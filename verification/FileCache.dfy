/** The host-side disk cache of sandbox input files, in front of an object store. */
module FileCache {
  import opened Helpers

  type Bytes = seq<bv8>

  // The digest of an object's key. Fixed-width hexadecimal names sort as the numbers they spell.
  type Digest = nat

  datatype File = File(bytes: Bytes, atime: int)

  // The sidecar: the ETag the HEAD request gave (empty if it failed), and the size downloaded.
  datatype Meta = Meta(etag: string, size: nat)

  datatype Disk = Disk(files: map<Digest, File>, metas: map<Digest, Meta>)

  // How far the write of a download gets: file and sidecar, the file only, or neither.
  datatype Write = Saved | NoMeta | NotSaved

  /* ----- Lookup ----- */

  // The cached file may be served: it is of the size its sidecar says, and the sidecar is of this version.
  predicate Fresh(d: Disk, key: Digest, etag: string) {
    etag != "" && key in d.metas && d.metas[key].etag == etag && key in d.files && |d.files[key].bytes| == d.metas[key].size
  }

  function Looked(d: Disk, key: Digest, etag: string, body: Bytes, write: Write, now: int): Disk {
    if Fresh(d, key, etag) then d.(files := d.files[key := d.files[key].(atime := now)])
    else if write == NotSaved then d
    else Disk(d.files[key := File(body, now)], if write == Saved then d.metas[key := Meta(etag, |body|)] else d.metas)
  }

  /* ----- Eviction ----- */

  predicate Older(d: Disk, a: Digest, b: Digest)
    requires a in d.files && b in d.files
  {
    var (x, y) := (d.files[a], d.files[b]);
    x.atime < y.atime || (x.atime == y.atime && (|x.bytes| < |y.bytes| || (|x.bytes| == |y.bytes| && a <= b)))
  }

  ghost predicate Listed(d: Disk, order: seq<Digest>) {
    (forall key :: key in order <==> key in d.files) &&
    (forall i, j :: 0 <= i < j < |order| ==> order[i] != order[j])
  }

  // Oldest access first, then smallest.
  ghost predicate OldestFirst(d: Disk, order: seq<Digest>)
    requires forall key :: key in order ==> key in d.files
  {
    forall i, j :: 0 <= i < j < |order| ==> Older(d, order[i], order[j])
  }

  function Total(d: Disk, order: seq<Digest>): nat
    requires forall key :: key in order ==> key in d.files
  {
    if order == [] then 0 else |d.files[order[0]].bytes| + Total(d, order[1..])
  }

  // What the sweep takes off its total: a failure to delete the file or its sidecar takes nothing off.
  function Credit(d: Disk, order: seq<Digest>, stuck: set<Digest>): nat
    requires forall key :: key in order ==> key in d.files
  {
    if order == [] then 0
    else Credit(d, order[..|order| - 1], stuck) +
         (if order[|order| - 1] in stuck then 0 else |d.files[order[|order| - 1]].bytes|)
  }

  lemma {:induction false} CreditIsTotal(d: Disk, order: seq<Digest>, n: nat)
    requires n <= |order| && forall key :: key in order ==> key in d.files
    ensures Total(d, order) == Credit(d, order[..n], {}) + Total(d, order[n..])
  {
    if n > 0 {
      CreditIsTotal(d, order, n - 1);
      assert order[..n][..n - 1] == order[..n - 1];
      assert order[n - 1..][1..] == order[n..];
    }
  }

  // How many of the oldest files the sweep tries: as few as bring its total within the limit.
  ghost predicate Tried(d: Disk, order: seq<Digest>, limit: nat, stuck: set<Digest>, n: nat)
    requires forall key :: key in order ==> key in d.files
  {
    && n <= |order|
    && (n < |order| ==> Total(d, order) - Credit(d, order[..n], stuck) <= limit)
    && (forall m :: 0 <= m < n ==> Total(d, order) - Credit(d, order[..m], stuck) > limit)
  }

  // With no failure: the rest is within the limit, and no shorter prefix of the oldest would have done.
  lemma SweepIsShortest(d: Disk, order: seq<Digest>, limit: nat, n: nat)
    requires Listed(d, order) && Tried(d, order, limit, {}, n)
    ensures Total(d, order[n..]) <= limit
    ensures forall m :: 0 <= m < n ==> Total(d, order[m..]) > limit
  {
    CreditIsTotal(d, order, n);
    forall m | 0 <= m < n ensures Total(d, order[m..]) > limit {
      CreditIsTotal(d, order, m);
    }
  }

  function Insert(d: Disk, key: Digest, order: seq<Digest>): (r: seq<Digest>)
    requires key in d.files && forall k :: k in order ==> k in d.files
    ensures |r| == |order| + 1 && forall k :: k in r <==> k == key || k in order
  {
    if order == [] || Older(d, key, order[0]) then [key] + order
    else [order[0]] + Insert(d, key, order[1..])
  }

  lemma {:induction false} InsertKeepsOrder(d: Disk, key: Digest, order: seq<Digest>)
    requires key in d.files && forall k :: k in order ==> k in d.files
    requires OldestFirst(d, order)
    requires key !in order && forall i, j :: 0 <= i < j < |order| ==> order[i] != order[j]
    ensures OldestFirst(d, Insert(d, key, order))
    ensures forall i, j :: 0 <= i < j < |order| + 1 ==> Insert(d, key, order)[i] != Insert(d, key, order)[j]
  {
    if order != [] && !Older(d, key, order[0]) {
      InsertKeepsOrder(d, key, order[1..]);
      var r := Insert(d, key, order[1..]);
      forall i | 0 <= i < |r| ensures Older(d, order[0], r[i]) && order[0] != r[i] {
        assert r[i] in r;
      }
    }
  }

  class DiskCache {
    var disk: Disk
    const limit: nat

    constructor (limit: nat)
      ensures disk == Disk(map[], map[]) && this.limit == limit
    {
      disk := Disk(map[], map[]);
      this.limit := limit;
    }

    // `etag` is empty if the HEAD request failed; `body` is what the GET request would give.
    method GetOrDownload(key: Digest, etag: string, body: Bytes, write: Write, now: int) returns (bytes: Bytes, size: nat, hit: bool)
      modifies this
      ensures disk == Looked(old(disk), key, etag, body, write, now)
      ensures hit == Fresh(old(disk), key, etag)
      ensures bytes == (if hit then old(disk).files[key].bytes else body) && size == |bytes|
      ensures hit || write != NotSaved ==> key in disk.files && disk.files[key] == File(bytes, now)
      ensures forall k :: k != key ==> (k in disk.files <==> k in old(disk).files) && (k in disk.files ==> disk.files[k] == old(disk).files[k])
    {
      var cached := if key in disk.metas then disk.metas[key] else Meta("", 0);
      if etag != "" && cached.etag == etag && key in disk.files && |disk.files[key].bytes| == cached.size {
        bytes := disk.files[key].bytes;
        disk := disk.(files := disk.files[key := disk.files[key].(atime := now)]);
        return bytes, cached.size, true;
      }
      bytes, size, hit := body, |body|, false;
      if write == NotSaved {
        return;
      }
      disk := disk.(files := disk.files[key := File(body, now)]);
      if write == Saved {
        disk := disk.(metas := disk.metas[key := Meta(etag, size)]);
      }
    }

    // The files by age, from a directory listing in any order.
    method ByAge(listing: seq<Digest>) returns (order: seq<Digest>, total: nat)
      requires Listed(disk, listing)
      ensures Listed(disk, order) && OldestFirst(disk, order)
      ensures total == Total(disk, order)
    {
      order, total := [], 0;
      for i := 0 to |listing|
        invariant forall key :: key in order <==> key in listing[..i]
        invariant forall j, k :: 0 <= j < k < |order| ==> order[j] != order[k]
        invariant OldestFirst(disk, order)
        invariant total == Total(disk, order)
      {
        assert listing[..i + 1] == listing[..i] + [listing[i]];
        InsertKeepsOrder(disk, listing[i], order);
        TotalInsert(disk, listing[i], order);
        order := Insert(disk, listing[i], order);
        total := total + |disk.files[listing[i]].bytes|;
      }
      assert listing[..|listing|] == listing;
    }

    // `stuckFiles` and `stuckMetas` are those whose deletion fails.
    method EvictIfOversize(listing: seq<Digest>, stuckFiles: set<Digest>, stuckMetas: set<Digest>) returns (order: seq<Digest>, n: nat)
      requires Listed(disk, listing)
      modifies this
      ensures Listed(old(disk), order) && OldestFirst(old(disk), order)
      ensures Tried(old(disk), order, limit, Stuck(old(disk), stuckFiles, stuckMetas), n)
      ensures disk == Swept(old(disk), order[..n], stuckFiles, stuckMetas)
    {
      var total;
      order, total := ByAge(listing);
      n := 0;
      ghost var was := disk;
      while n < |order| && total > limit
        invariant Sweeping(was, order, n, limit, stuckFiles, stuckMetas, total, disk)
      {
        SweepingOn(was, order, n, limit, stuckFiles, stuckMetas, total, disk);
        var freed := Delete(order[n], stuckFiles, stuckMetas);
        total := total - freed;
        n := n + 1;
      }
    }

    // One round of the sweep; `freed` is what it takes off the total.
    method Delete(key: Digest, stuckFiles: set<Digest>, stuckMetas: set<Digest>) returns (freed: nat)
      requires key in disk.files
      modifies this
      ensures disk == Deleted(old(disk), key, stuckFiles, stuckMetas)
      ensures freed == if key in Stuck(old(disk), stuckFiles, stuckMetas) then 0 else |old(disk).files[key].bytes|
    {
      if key in stuckFiles {
        return 0;
      }
      freed := |disk.files[key].bytes|;
      disk := disk.(files := disk.files - {key});
      if key in disk.metas {
        if key in stuckMetas {
          return 0;
        }
        disk := disk.(metas := disk.metas - {key});
      }
    }
  }

  // The files whose deletion, or whose sidecar's, fails.
  function Stuck(d: Disk, stuckFiles: set<Digest>, stuckMetas: set<Digest>): set<Digest> {
    stuckFiles + stuckMetas * d.metas.Keys
  }

  function Deleted(d: Disk, key: Digest, stuckFiles: set<Digest>, stuckMetas: set<Digest>): Disk {
    if key in stuckFiles then d
    else Disk(d.files - {key}, if key in stuckMetas then d.metas else d.metas - {key})
  }

  function Names(keys: seq<Digest>): set<Digest> {
    set key | key in keys
  }

  function Swept(d: Disk, tried: seq<Digest>, stuckFiles: set<Digest>, stuckMetas: set<Digest>): Disk {
    var gone := Names(tried) - stuckFiles;
    Disk(d.files - gone, d.metas - (gone - stuckMetas))
  }

  lemma SweptOne(d: Disk, tried: seq<Digest>, key: Digest, stuckFiles: set<Digest>, stuckMetas: set<Digest>)
    requires key in d.files && key !in tried
    ensures var s := Swept(d, tried, stuckFiles, stuckMetas);
      && key in s.files && s.files[key] == d.files[key] && (key in s.metas <==> key in d.metas)
      && Swept(d, tried + [key], stuckFiles, stuckMetas) == Deleted(s, key, stuckFiles, stuckMetas)
  {
    var s, t := Swept(d, tried, stuckFiles, stuckMetas), Swept(d, tried + [key], stuckFiles, stuckMetas);
    assert Names(tried + [key]) == Names(tried) + {key};
    assert t.files == Deleted(s, key, stuckFiles, stuckMetas).files;
    assert t.metas == Deleted(s, key, stuckFiles, stuckMetas).metas;
  }

  // The state of a sweep that has tried the first n files and still counts `total` bytes.
  ghost predicate Sweeping(d: Disk, order: seq<Digest>, n: nat, limit: nat, stuckFiles: set<Digest>, stuckMetas: set<Digest>, total: int, now: Disk)
    requires forall key :: key in order ==> key in d.files
  {
    var stuck := Stuck(d, stuckFiles, stuckMetas);
    && n <= |order|
    && total == Total(d, order) - Credit(d, order[..n], stuck)
    && now == Swept(d, order[..n], stuckFiles, stuckMetas)
    && (forall m :: 0 <= m < n ==> Total(d, order) - Credit(d, order[..m], stuck) > limit)
  }

  lemma SweepingOn(d: Disk, order: seq<Digest>, n: nat, limit: nat, stuckFiles: set<Digest>, stuckMetas: set<Digest>, total: int, now: Disk)
    requires Listed(d, order) && Sweeping(d, order, n, limit, stuckFiles, stuckMetas, total, now) && n < |order| && total > limit
    ensures order[n] in now.files
    ensures var freed := if order[n] in Stuck(now, stuckFiles, stuckMetas) then 0 else |now.files[order[n]].bytes|;
      Sweeping(d, order, n + 1, limit, stuckFiles, stuckMetas, total - freed, Deleted(now, order[n], stuckFiles, stuckMetas))
  {
    SweptOne(d, order[..n], order[n], stuckFiles, stuckMetas);
    CreditMore(d, order[..n], order[n], Stuck(d, stuckFiles, stuckMetas));
    assert order[..n + 1] == order[..n] + [order[n]];
  }

  lemma {:induction false} TotalInsert(d: Disk, key: Digest, order: seq<Digest>)
    requires key in d.files && forall k :: k in order ==> k in d.files
    ensures Total(d, Insert(d, key, order)) == Total(d, order) + |d.files[key].bytes|
  {
    if order != [] && !Older(d, key, order[0]) {
      TotalInsert(d, key, order[1..]);
    }
  }

  // After a sweep that nothing stopped, the disk holds exactly the files that were not tried, with the sidecars
  // of all others, within the limit.
  lemma SweepLeaves(d: Disk, order: seq<Digest>, limit: nat, n: nat)
    requires Listed(d, order) && Tried(d, order, limit, {}, n)
    ensures var t := Swept(d, order[..n], {}, {});
            (forall key :: key in t.files <==> key in order[n..]) && (forall key :: key in t.files ==> t.files[key] == d.files[key]) &&
            (forall key :: key in t.metas <==> key in d.metas && key !in order[..n]) &&
            (forall key :: key in t.metas ==> t.metas[key] == d.metas[key]) &&
            Listed(t, order[n..]) && Total(t, order[n..]) <= limit
  {
    var t := Swept(d, order[..n], {}, {});
    SplitAt(order, n);
    assert forall key :: key in t.files <==> key in order[n..];
    SweepIsShortest(d, order, limit, n);
    SameTotal(d, t, order[n..]);
  }

  lemma SplitAt(order: seq<Digest>, n: nat)
    requires n <= |order| && forall i, j :: 0 <= i < j < |order| ==> order[i] != order[j]
    ensures forall key :: key in order <==> key in order[..n] || key in order[n..]
    ensures forall key :: key in order[..n] ==> key !in order[n..]
  {
    assert order == order[..n] + order[n..];
  }

  lemma {:induction false} SameTotal(d: Disk, t: Disk, order: seq<Digest>)
    requires forall key :: key in order ==> key in d.files && key in t.files && t.files[key] == d.files[key]
    ensures Total(t, order) == Total(d, order)
  {
    if order != [] {
      SameTotal(d, t, order[1..]);
    }
  }

  // Whatever fails: a file stays if it was not tried or cannot be deleted, and its sidecar stays with it, or
  // if it cannot be deleted itself.
  lemma SweepSpares(d: Disk, tried: seq<Digest>, stuckFiles: set<Digest>, stuckMetas: set<Digest>, key: Digest)
    ensures var t := Swept(d, tried, stuckFiles, stuckMetas);
            (key in t.files <==> key in d.files && (key in tried ==> key in stuckFiles)) &&
            (key in t.metas <==> key in d.metas && (key in tried ==> key in stuckFiles || key in stuckMetas)) &&
            (key in t.files ==> t.files[key] == d.files[key]) && (key in t.metas ==> t.metas[key] == d.metas[key])
  {
  }

  // The bytes of those of the files that are on the disk.
  function OnDisk(d: Disk, order: seq<Digest>): nat {
    if order == [] then 0
    else (if order[0] in d.files then |d.files[order[0]].bytes| else 0) + OnDisk(d, order[1..])
  }

  lemma {:induction false} OnDiskAll(d: Disk, order: seq<Digest>)
    requires forall key :: key in order ==> key in d.files
    ensures OnDisk(d, order) == Total(d, order)
  {
    if order != [] {
      OnDiskAll(d, order[1..]);
    }
  }

  lemma {:induction false} OnDiskWithout(d: Disk, t: Disk, key: Digest, order: seq<Digest>)
    requires key in d.files && t.files == d.files - {key} && forall i, j :: 0 <= i < j < |order| ==> order[i] != order[j]
    ensures OnDisk(t, order) == OnDisk(d, order) - if key in order then |d.files[key].bytes| else 0
  {
    if order != [] {
      OnDiskWithout(d, t, key, order[1..]);
    }
  }

  // Some file was deleted whose sidecar could not be.
  ghost predicate LeftSidecar(d: Disk, tried: seq<Digest>, stuckFiles: set<Digest>, stuckMetas: set<Digest>) {
    exists key :: key in tried && key !in stuckFiles && key in stuckMetas && key in d.metas
  }

  ghost predicate CountsDisk(d: Disk, order: seq<Digest>, tried: seq<Digest>, stuckFiles: set<Digest>, stuckMetas: set<Digest>)
    requires forall key :: key in order + tried ==> key in d.files
  {
    var counted := Total(d, order) - Credit(d, tried, Stuck(d, stuckFiles, stuckMetas));
    var left := OnDisk(Swept(d, tried, stuckFiles, stuckMetas), order);
    left <= counted && (left == counted || LeftSidecar(d, tried, stuckFiles, stuckMetas))
  }

  // What the sweep counts down to is never less than what the disk still holds, and exactly that unless the
  // sidecar of a deleted file is stuck.
  lemma {:induction false} CountIsOnDisk(d: Disk, order: seq<Digest>, n: nat, stuckFiles: set<Digest>, stuckMetas: set<Digest>)
    requires Listed(d, order) && n <= |order|
    ensures CountsDisk(d, order, order[..n], stuckFiles, stuckMetas)
  {
    if n == 0 {
      assert Swept(d, [], stuckFiles, stuckMetas) == d;
      OnDiskAll(d, order);
    } else {
      CountIsOnDisk(d, order, n - 1, stuckFiles, stuckMetas);
      assert order[..n] == order[..n - 1] + [order[n - 1]];
      assert order[n - 1] !in order[..n - 1];
      CountOn(d, order, order[..n - 1], order[n - 1], stuckFiles, stuckMetas);
    }
  }

  lemma CountOn(d: Disk, order: seq<Digest>, tried: seq<Digest>, key: Digest, stuckFiles: set<Digest>, stuckMetas: set<Digest>)
    requires Listed(d, order) && key in order && key !in tried && forall k :: k in tried ==> k in order
    requires CountsDisk(d, order, tried, stuckFiles, stuckMetas)
    ensures CountsDisk(d, order, tried + [key], stuckFiles, stuckMetas)
  {
    LeftAfterOne(d, order, tried, key, stuckFiles, stuckMetas);
    CreditMore(d, tried, key, Stuck(d, stuckFiles, stuckMetas));
    if LeftSidecar(d, tried, stuckFiles, stuckMetas) {
      var k :| k in tried && k !in stuckFiles && k in stuckMetas && k in d.metas;
      assert k in tried + [key];
    }
    assert key in tried + [key];
  }

  lemma CreditMore(d: Disk, tried: seq<Digest>, key: Digest, stuck: set<Digest>)
    requires key in d.files && forall k :: k in tried ==> k in d.files
    ensures Credit(d, tried + [key], stuck) == Credit(d, tried, stuck) + if key in stuck then 0 else |d.files[key].bytes|
  {
    assert (tried + [key])[..|tried|] == tried;
  }

  lemma LeftAfterOne(d: Disk, order: seq<Digest>, tried: seq<Digest>, key: Digest, stuckFiles: set<Digest>, stuckMetas: set<Digest>)
    requires Listed(d, order) && key in order && key !in tried
    ensures OnDisk(Swept(d, tried + [key], stuckFiles, stuckMetas), order) ==
            OnDisk(Swept(d, tried, stuckFiles, stuckMetas), order) - if key in stuckFiles then 0 else |d.files[key].bytes|
  {
    var was := Swept(d, tried, stuckFiles, stuckMetas);
    SweptOne(d, tried, key, stuckFiles, stuckMetas);
    if key !in stuckFiles {
      OnDiskWithout(was, Deleted(was, key, stuckFiles, stuckMetas), key, order);
    }
  }

  /* ----- Oldest first is least recently used first ----- */

  // What happens to the disk: a lookup, or a sweep of these files.
  datatype Event =
    | Use(key: Digest, etag: string, body: Bytes, write: Write, now: int)
    | Clean(tried: seq<Digest>, stuckFiles: set<Digest>, stuckMetas: set<Digest>)

  function Happened(d: Disk, e: Event): Disk {
    match e
    case Use(key, etag, body, write, now) => Looked(d, key, etag, body, write, now)
    case Clean(tried, stuckFiles, stuckMetas) => Swept(d, tried, stuckFiles, stuckMetas)
  }

  // The disk, empty at first, after these events.
  function DiskAfter(events: seq<Event>): Disk {
    if events == [] then Disk(map[], map[])
    else Happened(DiskAfter(events[..|events| - 1]), events[|events| - 1])
  }

  // The event serves the file from the disk, or writes it there.
  predicate Uses(events: seq<Event>, key: Digest, i: nat) {
    i < |events| && events[i].Use? && events[i].key == key &&
    (Fresh(DiskAfter(events[..i]), key, events[i].etag) || events[i].write != NotSaved)
  }

  ghost predicate LastUse(events: seq<Event>, key: Digest, i: nat) {
    Uses(events, key, i) && forall j :: i < j < |events| ==> !Uses(events, key, j)
  }

  ghost predicate ClockRuns(events: seq<Event>) {
    forall i, j :: 0 <= i < j < |events| && events[i].Use? && events[j].Use? ==> events[i].now < events[j].now
  }

  // A lookup that leaves its file on the disk leaves it with the time of the lookup; a failed one changes
  // nothing, and no lookup touches another file.
  lemma LookupTouches(d: Disk, key: Digest, etag: string, body: Bytes, write: Write, now: int)
    ensures var t := Looked(d, key, etag, body, write, now);
            (Fresh(d, key, etag) ==> t.files == d.files[key := File(d.files[key].bytes, now)] && t.metas == d.metas) &&
            (!Fresh(d, key, etag) && write != NotSaved ==> t.files == d.files[key := File(body, now)]) &&
            (!Fresh(d, key, etag) && write == Saved ==> t.metas == d.metas[key := Meta(etag, |body|)]) &&
            (!Fresh(d, key, etag) && write != Saved ==> t.metas == d.metas) &&
            (!Fresh(d, key, etag) && write == NotSaved ==> t == d)
  {
  }

  // An event that does not use the file leaves it as it is, or deletes it.
  lemma UnusedIsKept(d: Disk, e: Event, key: Digest)
    requires key in Happened(d, e).files
    requires e.Use? ==> e.key != key || (!Fresh(d, key, e.etag) && e.write == NotSaved)
    ensures key in d.files && Happened(d, e).files[key] == d.files[key]
  {
  }

  lemma UsesBefore(events: seq<Event>, key: Digest, i: nat)
    requires i < |events| - 1
    ensures Uses(events, key, i) <==> Uses(events[..|events| - 1], key, i)
  {
    assert events[..|events| - 1][..i] == events[..i];
  }

  // A file that is not of the size it was written with is no hit.
  lemma DamagedIsNoHit(d: Disk, key: Digest, etag: string, bytes: Bytes)
    requires Fresh(d, key, etag) && |bytes| != |d.files[key].bytes|
    ensures !Fresh(d.(files := d.files[key := File(bytes, d.files[key].atime)]), key, etag)
  {
  }

  lemma {:induction false} TimeIsLastUse(events: seq<Event>, key: Digest) returns (i: nat)
    requires key in DiskAfter(events).files
    ensures LastUse(events, key, i) && DiskAfter(events).files[key].atime == events[i].now
  {
    var n, less := |events| - 1, events[..|events| - 1];
    var d, e := DiskAfter(less), events[n];
    if Uses(events, key, n) {
      LookupTouches(d, key, e.etag, e.body, e.write, e.now);
      i := n;
    } else {
      UnusedIsKept(d, e, key);
      i := TimeIsLastUse(less, key);
      forall j: nat | j < n
        ensures Uses(events, key, j) <==> Uses(less, key, j)
      {
        UsesBefore(events, key, j);
      }
    }
  }

  // Files with one access time are tried by size, and those of one size by name.
  lemma TiesBySize(d: Disk, order: seq<Digest>, p: nat, q: nat)
    requires Listed(d, order) && OldestFirst(d, order) && p < q < |order|
    requires order[p] in order && order[q] in order && d.files[order[p]].atime == d.files[order[q]].atime
    ensures |d.files[order[p]].bytes| <= |d.files[order[q]].bytes|
    ensures |d.files[order[p]].bytes| == |d.files[order[q]].bytes| ==> order[p] < order[q]
  {
    assert Older(d, order[p], order[q]) && order[p] != order[q];
  }

  // Over every history of lookups and sweeps under a clock that runs, the order of the sweep is the order of
  // last use: of two files it tries the one that was used last later.
  lemma SweepOrderIsUseOrder(events: seq<Event>, order: seq<Digest>, p: nat, q: nat)
    requires ClockRuns(events) && Listed(DiskAfter(events), order) && OldestFirst(DiskAfter(events), order)
    requires p < q < |order|
    ensures exists i: nat, j: nat :: LastUse(events, order[p], i) && LastUse(events, order[q], j) && i < j
  {
    var d := DiskAfter(events);
    assert order[p] in order && order[q] in order;
    var i := TimeIsLastUse(events, order[p]);
    var j := TimeIsLastUse(events, order[q]);
    assert Older(d, order[p], order[q]) && i != j;
  }

  /* ----- Agreement with the store ----- */

  // What may go wrong: an upload between the two requests of a lookup, a sidecar that is not written.
  datatype Config = Config(torn: bool, metaMayFail: bool)

  datatype State = State(disk: Disk, store: map<Digest, Bytes>)

  // In a lookup, `seen` is whether HEAD succeeds and `during` an upload that arrives before GET.
  datatype Step =
    | Upload(key: Digest, body: Bytes)
    | Lookup(key: Digest, seen: bool, during: Option<Bytes>, write: Write, now: int)
    | Sweep(tried: seq<Digest>, stuckFiles: set<Digest>, stuckMetas: set<Digest>)

  predicate Enabled(c: Config, s: State, step: Step) {
    match step
    case Lookup(key, seen, during, write, _) =>
      key in s.store && (during.Some? ==> c.torn) && (write == NoMeta ==> c.metaMayFail)
    case _ => true
  }

  function Etag(tag: Bytes -> string, s: State, step: Step): string
    requires step.Lookup? && step.key in s.store
  {
    if step.seen then tag(s.store[step.key]) else ""
  }

  function Body(s: State, step: Step): Bytes
    requires step.Lookup? && step.key in s.store
  {
    if step.during.Some? then step.during.value else s.store[step.key]
  }

  function Apply(c: Config, tag: Bytes -> string, s: State, step: Step): State
    requires Enabled(c, s, step)
  {
    match step
    case Upload(key, body) => s.(store := s.store[key := body])
    case Lookup(key, _, during, write, now) =>
      State(Looked(s.disk, key, Etag(tag, s, step), Body(s, step), write, now), s.store[key := Body(s, step)])
    case Sweep(tried, stuckFiles, stuckMetas) => s.(disk := Swept(s.disk, tried, stuckFiles, stuckMetas))
  }

  // The ETag determines the content.
  ghost predicate Faithful(tag: Bytes -> string) {
    forall a, b :: tag(a) == tag(b) ==> a == b
  }

  ghost predicate Leads(c: Config, tag: Bytes -> string, run: seq<Step>, s: State)
    decreases |run|
  {
    if run == [] then s == State(Disk(map[], map[]), map[])
    else exists before :: Leads(c, tag, run[1..], before) && Enabled(c, before, run[0]) && s == Apply(c, tag, before, run[0])
  }

  ghost predicate CanReach(c: Config, tag: Bytes -> string, s: State) {
    exists run :: Leads(c, tag, run, s)
  }

  // Whatever would be served from the disk is what the store holds.
  ghost predicate ServesCurrent(tag: Bytes -> string, s: State) {
    forall key :: key in s.store && Fresh(s.disk, key, tag(s.store[key])) ==> s.disk.files[key].bytes == s.store[key]
  }

  // A sidecar with an ETag describes the file beside it.
  ghost predicate Described(tag: Bytes -> string, d: Disk) {
    forall key :: key in d.files && key in d.metas && d.metas[key].etag != "" ==> tag(d.files[key].bytes) == d.metas[key].etag
  }

  lemma {:induction false} DescribedAlong(c: Config, tag: Bytes -> string, run: seq<Step>, s: State)
    requires !c.torn && !c.metaMayFail && Leads(c, tag, run, s)
    ensures Described(tag, s.disk)
    decreases |run|
  {
    if run != [] {
      var before :| Leads(c, tag, run[1..], before) && Enabled(c, before, run[0]) && s == Apply(c, tag, before, run[0]);
      DescribedAlong(c, tag, run[1..], before);
    }
  }

  lemma Do(c: Config, tag: Bytes -> string, s: State, step: Step) returns (t: State)
    requires CanReach(c, tag, s) && Enabled(c, s, step)
    ensures t == Apply(c, tag, s, step) && CanReach(c, tag, t)
  {
    t := Apply(c, tag, s, step);
    var run :| Leads(c, tag, run, s);
    assert ([step] + run)[1..] == run;
    assert Leads(c, tag, [step] + run, t);
  }

  // The object is uploaded as a, then b, and a again; the disk keeps b under the ETag of a.
  lemma StaleFileIsServed(c: Config, tag: Bytes -> string, a: Bytes, b: Bytes) returns (s: State)
    requires (c.torn || c.metaMayFail) && tag(a) != "" && tag(b) != tag(a) && |a| == |b|
    ensures CanReach(c, tag, s) && !ServesCurrent(tag, s)
  {
    assert Leads(c, tag, [], State(Disk(map[], map[]), map[]));
    s := Do(c, tag, State(Disk(map[], map[]), map[]), Upload(0, a));
    if c.torn {
      s := Do(c, tag, s, Lookup(0, true, Some(b), Saved, 0));
    } else {
      s := Do(c, tag, s, Lookup(0, true, None, Saved, 0));
      s := Do(c, tag, s, Upload(0, b));
      s := Do(c, tag, s, Lookup(0, true, None, NoMeta, 0));
    }
    s := Do(c, tag, s, Upload(0, a));
    assert Fresh(s.disk, 0, tag(a));
  }

  // A hit is always current exactly if HEAD and GET see one version and no sidecar write fails.
  lemma CurrentIff(c: Config, tag: Bytes -> string)
    requires Faithful(tag)
    ensures (forall s :: CanReach(c, tag, s) ==> ServesCurrent(tag, s)) <==> !c.torn && !c.metaMayFail
  {
    if !c.torn && !c.metaMayFail {
      forall s | CanReach(c, tag, s) ensures ServesCurrent(tag, s) {
        var run :| Leads(c, tag, run, s);
        DescribedAlong(c, tag, run, s);
      }
    } else {
      var a: Bytes, b: Bytes := [0], [1];
      assert a != b;
      var s;
      if tag(a) != "" {
        s := StaleFileIsServed(c, tag, a, b);
      } else {
        s := StaleFileIsServed(c, tag, b, a);
      }
    }
  }

  // What a lookup returns, hit or miss, is then what the store holds when it returns.
  lemma LookupIsCurrent(c: Config, tag: Bytes -> string, s: State, step: Step)
    requires Faithful(tag) && !c.torn && !c.metaMayFail && CanReach(c, tag, s) && Enabled(c, s, step) && step.Lookup?
    ensures Fresh(s.disk, step.key, Etag(tag, s, step)) ==> s.disk.files[step.key].bytes == s.store[step.key]
    ensures Apply(c, tag, s, step).store == s.store
    ensures step.write == Saved && step.seen && tag(s.store[step.key]) != "" ==>
      Fresh(Apply(c, tag, s, step).disk, step.key, tag(s.store[step.key]))
  {
    CurrentIff(c, tag);
  }
}
