/** The two rate limiters: the in-process sliding window, and the shared counter that expires. */
module RateLimit {
  import opened Helpers

  /* ----- Bursts ----- */

  // Granted requests, in the order of the clock.
  ghost predicate Ordered(g: seq<real>) {
    forall i, j :: 0 <= i < j < |g| ==> g[i] <= g[j]
  }

  // Any k + 1 consecutive grants span at least a window.
  ghost predicate Spaced(g: seq<real>, k: nat, window: real) {
    forall i :: k <= i < |g| ==> g[i] - g[i - k] >= window
  }

  // The grants in the half-open interval that starts at `from` and is one window long.
  ghost function Burst(g: seq<real>, from: real, window: real): set<nat> {
    set i: nat | i < |g| && from <= g[i] < from + window
  }

  lemma {:induction false} IntervalCard(s: set<nat>, low: nat, k: nat)
    requires forall x :: x in s ==> low <= x < low + k
    ensures |s| <= k
  {
    if k == 0 {
      assert s == {};
    } else {
      var top := low + k - 1;
      IntervalCard(s - {top}, low, k - 1);
      assert |s| <= |s - {top}| + 1;
    }
  }

  lemma FarApart(g: seq<real>, k: nat, window: real, i: nat, j: nat)
    requires Ordered(g) && Spaced(g, k, window) && i + k <= j < |g|
    ensures g[j] - g[i] >= window
  {
    assert g[i + k] - g[i + k - k] >= window;
    assert i + k == j || g[i + k] <= g[j];
  }

  lemma AppendGrant(g: seq<real>, k: nat, window: real, now: real)
    requires Ordered(g) && Spaced(g, k, window) && forall i :: 0 <= i < |g| ==> g[i] <= now
    requires k >= 1 && (|g| >= k ==> now - g[|g| - k] >= window)
    ensures Ordered(g + [now]) && Spaced(g + [now], k, window)
    ensures forall i :: 0 <= i < |g| + 1 ==> (g + [now])[i] <= now
  {
    var g' := g + [now];
    forall i | k <= i < |g'|
      ensures g'[i] - g'[i - k] >= window
    {
      if i < |g| {
        assert g[i] - g[i - k] >= window;
      }
    }
  }

  // Spaced grants are at most k in any window, wherever it starts.
  lemma SpacedBoundsBurst(g: seq<real>, k: nat, from: real, window: real)
    requires k >= 1 && Ordered(g) && Spaced(g, k, window)
    ensures |Burst(g, from, window)| <= k
  {
    var s := Burst(g, from, window);
    if s != {} {
      var low := Lowest(s);
      forall x | x in s
        ensures x < low + k
      {
        if x >= low + k {
          FarApart(g, k, window, low, x);
        }
      }
      IntervalCard(s, low, k);
    }
  }

  /* ----- The in-process limiter ----- */

  // The entries that are still inside the window.
  function Fresh(bucket: seq<real>, now: real, window: real): (r: seq<real>) {
    if bucket == [] then []
    else (if now - bucket[0] < window then [bucket[0]] else []) + Fresh(bucket[1..], now, window)
  }

  class SlidingLimiter {
    var buckets: map<string, seq<real>>

    constructor ()
      ensures buckets == map[]
    {
      buckets := map[];
    }

    function Bucket(key: string): seq<real>
      reads this
    {
      if key in buckets then buckets[key] else []
    }

    method Check(key: string, maxRequests: nat, window: real, now: real) returns (allowed: bool)
      modifies this
      ensures allowed <==> |Fresh(old(Bucket(key)), now, window)| < maxRequests
      ensures Bucket(key) == Fresh(old(Bucket(key)), now, window) + if allowed then [now] else []
      ensures forall k :: k != key ==> Bucket(k) == old(Bucket(k))
    {
      var bucket := Fresh(Bucket(key), now, window);
      buckets := buckets[key := bucket];
      if |bucket| >= maxRequests {
        return false;
      }
      buckets := buckets[key := bucket + [now]];
      allowed := true;
    }
  }

  // The bucket after a history of requests under one key, and the requests that were granted.
  datatype Sliding = Sliding(bucket: seq<real>, granted: seq<real>)

  function SlidingAfter(times: seq<real>, maxRequests: nat, window: real): Sliding {
    if times == [] then Sliding([], [])
    else
      var now := times[|times| - 1];
      var s := SlidingAfter(times[..|times| - 1], maxRequests, window);
      var bucket := Fresh(s.bucket, now, window);
      if |bucket| < maxRequests then Sliding(bucket + [now], s.granted + [now]) else Sliding(bucket, s.granted)
  }

  // A new key's requests, one after the other: they are granted as in SlidingAfter, and so within SlidingBound.
  method CheckEach(limiter: SlidingLimiter, key: string, times: seq<real>, maxRequests: nat, window: real) returns (granted: seq<real>)
    requires limiter.Bucket(key) == []
    modifies limiter
    ensures granted == SlidingAfter(times, maxRequests, window).granted
    ensures limiter.Bucket(key) == SlidingAfter(times, maxRequests, window).bucket
    ensures Ordered(times) ==> forall from :: |Burst(granted, from, window)| <= maxRequests
  {
    granted := [];
    for i := 0 to |times|
      invariant Sliding(limiter.Bucket(key), granted) == SlidingAfter(times[..i], maxRequests, window)
    {
      assert times[..i + 1][..i] == times[..i];
      var allowed := limiter.Check(key, maxRequests, window, times[i]);
      if allowed {
        granted := granted + [times[i]];
      }
    }
    assert times[..|times|] == times;
    SlidingBounds(times, maxRequests, window);
  }

  lemma SlidingBounds(times: seq<real>, maxRequests: nat, window: real)
    ensures Ordered(times) ==> forall from :: |Burst(SlidingAfter(times, maxRequests, window).granted, from, window)| <= maxRequests
  {
    if Ordered(times) {
      forall from
        ensures |Burst(SlidingAfter(times, maxRequests, window).granted, from, window)| <= maxRequests
      {
        SlidingBound(times, maxRequests, window, from);
      }
    }
  }

  lemma {:induction false} AllFresh(bucket: seq<real>, now: real, window: real)
    requires forall i :: 0 <= i < |bucket| ==> now - bucket[i] < window
    ensures Fresh(bucket, now, window) == bucket
  {
    if bucket != [] {
      AllFresh(bucket[1..], now, window);
    }
  }

  // In an ordered bucket the stale entries come first.
  lemma {:induction false} FreshIsSuffix(bucket: seq<real>, now: real, window: real) returns (stale: nat)
    requires Ordered(bucket)
    ensures stale <= |bucket| && Fresh(bucket, now, window) == bucket[stale..]
    ensures forall i :: 0 <= i < |bucket| ==> (now - bucket[i] >= window <==> i < stale)
  {
    if bucket == [] {
      stale := 0;
    } else if now - bucket[0] < window {
      AllFresh(bucket, now, window);
      stale := 0;
    } else {
      var rest := FreshIsSuffix(bucket[1..], now, window);
      stale := rest + 1;
      forall i | 0 <= i < |bucket|
        ensures now - bucket[i] >= window <==> i < stale
      {
        assert i > 0 ==> bucket[1..][i - 1] == bucket[i];
      }
    }
  }

  // The first `stale` grants have left the bucket, and have left the window.
  ghost predicate SlidingInv(s: Sliding, stale: nat, maxRequests: nat, window: real, now: real) {
    Ordered(s.granted) && Spaced(s.granted, maxRequests, window) && stale <= |s.granted| && s.bucket == s.granted[stale..] &&
    (forall i :: 0 <= i < stale ==> now - s.granted[i] >= window) &&
    (forall i :: 0 <= i < |s.granted| ==> s.granted[i] <= now)
  }

  lemma SlidingStep(s: Sliding, stale: nat, maxRequests: nat, window: real, before: real, now: real) returns (stale': nat)
    requires maxRequests >= 1 && SlidingInv(s, stale, maxRequests, window, before) && before <= now
    ensures var bucket := Fresh(s.bucket, now, window);
            SlidingInv(if |bucket| < maxRequests then Sliding(bucket + [now], s.granted + [now]) else Sliding(bucket, s.granted),
                       stale', maxRequests, window, now)
  {
    stale' := StaleGrows(s, stale, maxRequests, window, before, now);
    if |Fresh(s.bucket, now, window)| < maxRequests {
      GrantOne(s.granted, stale', maxRequests, window, now);
    }
  }

  lemma GrantOne(g: seq<real>, stale: nat, maxRequests: nat, window: real, now: real)
    requires maxRequests >= 1 && Ordered(g) && Spaced(g, maxRequests, window) && (forall i :: 0 <= i < |g| ==> g[i] <= now)
    requires stale <= |g| < stale + maxRequests && forall i :: 0 <= i < stale ==> now - g[i] >= window
    ensures SlidingInv(Sliding(g[stale..] + [now], g + [now]), stale, maxRequests, window, now)
  {
    AppendGrant(g, maxRequests, window, now);
    assert (g + [now])[stale..] == g[stale..] + [now];
    assert forall i :: 0 <= i < stale ==> (g + [now])[i] == g[i];
  }

  lemma StaleGrows(s: Sliding, stale: nat, maxRequests: nat, window: real, before: real, now: real) returns (stale': nat)
    requires SlidingInv(s, stale, maxRequests, window, before) && before <= now
    ensures stale' <= |s.granted| && Fresh(s.bucket, now, window) == s.granted[stale'..]
    ensures forall i :: 0 <= i < stale' ==> now - s.granted[i] >= window
  {
    var g := s.granted;
    assert forall i :: 0 <= i < |s.bucket| ==> s.bucket[i] == g[stale + i];
    var more := FreshIsSuffix(s.bucket, now, window);
    stale' := stale + more;
    forall i | 0 <= i < stale'
      ensures now - g[i] >= window
    {
      assert i >= stale ==> s.bucket[i - stale] == g[i];
    }
  }

  function LastOf(times: seq<real>): real {
    if times == [] then 0.0 else times[|times| - 1]
  }

  lemma {:induction false} SlidingAlways(times: seq<real>, maxRequests: nat, window: real) returns (stale: nat)
    requires maxRequests >= 1 && Ordered(times)
    ensures SlidingInv(SlidingAfter(times, maxRequests, window), stale, maxRequests, window, LastOf(times))
  {
    if times == [] {
      stale := 0;
    } else {
      var less, now := times[..|times| - 1], times[|times| - 1];
      stale := SlidingAlways(less, maxRequests, window);
      var before := if less == [] then now else LastOf(less);
      assert SlidingInv(SlidingAfter(less, maxRequests, window), stale, maxRequests, window, before);
      stale := SlidingStep(SlidingAfter(less, maxRequests, window), stale, maxRequests, window, before, now);
    }
  }

  // Whatever the requests, at most maxRequests are granted in any interval of one window.
  lemma SlidingBound(times: seq<real>, maxRequests: nat, window: real, from: real)
    requires Ordered(times)
    ensures |Burst(SlidingAfter(times, maxRequests, window).granted, from, window)| <= maxRequests
  {
    if maxRequests >= 1 {
      var _ := SlidingAlways(times, maxRequests, window);
      SpacedBoundsBurst(SlidingAfter(times, maxRequests, window).granted, maxRequests, from, window);
    } else {
      NothingGranted(times, window);
      assert Burst([], from, window) == {};
    }
  }

  lemma {:induction false} NothingGranted(times: seq<real>, window: real)
    ensures SlidingAfter(times, 0, window).granted == []
  {
    if times != [] {
      NothingGranted(times[..|times| - 1], window);
    }
  }

  /* ----- The shared counter ----- */

  // The key in the shared store: a count, and the time at which it expires.
  datatype Counter = Absent | Present(count: nat, expiry: real)

  // INCR, and EXPIRE when the key is new.
  function Incr(c: Counter, window: real, now: real): Counter {
    if c.Absent? || now >= c.expiry then Present(1, now + window) else Present(c.count + 1, c.expiry)
  }

  class SharedCounter {
    var counters: map<string, Counter>

    constructor ()
      ensures counters == map[]
    {
      counters := map[];
    }

    function At(key: string): Counter
      reads this
    {
      if key in counters then counters[key] else Absent
    }

    method Check(key: string, maxRequests: nat, window: real, now: real) returns (allowed: bool)
      modifies this
      ensures At(key) == Incr(old(At(key)), window, now)
      ensures allowed <==> At(key).Present? && At(key).count <= maxRequests
      ensures forall k :: k != key ==> At(k) == old(At(k))
    {
      var c := Incr(At(key), window, now);
      counters := counters[key := c];
      allowed := c.count <= maxRequests;
    }
  }

  datatype Shared = Shared(counter: Counter, granted: seq<real>)

  function SharedAfter(times: seq<real>, maxRequests: nat, window: real): Shared {
    if times == [] then Shared(Absent, [])
    else
      var now := times[|times| - 1];
      var s := SharedAfter(times[..|times| - 1], maxRequests, window);
      var c := Incr(s.counter, window, now);
      Shared(c, if c.count <= maxRequests then s.granted + [now] else s.granted)
  }

  // A new key's requests, one after the other: they are granted as in SharedAfter, and so within SharedBound.
  method CountEach(counter: SharedCounter, key: string, times: seq<real>, maxRequests: nat, window: real) returns (granted: seq<real>)
    requires counter.At(key) == Absent
    modifies counter
    ensures granted == SharedAfter(times, maxRequests, window).granted
    ensures counter.At(key) == SharedAfter(times, maxRequests, window).counter
    ensures Ordered(times) && maxRequests >= 1 && window >= 0.0 ==>
              forall from :: |Burst(granted, from, window)| <= 2 * maxRequests - 1
  {
    granted := [];
    for i := 0 to |times|
      invariant Shared(counter.At(key), granted) == SharedAfter(times[..i], maxRequests, window)
    {
      assert times[..i + 1][..i] == times[..i];
      var allowed := counter.Check(key, maxRequests, window, times[i]);
      if allowed {
        granted := granted + [times[i]];
      }
    }
    assert times[..|times|] == times;
    if Ordered(times) && maxRequests >= 1 && window >= 0.0 {
      forall from
        ensures |Burst(granted, from, window)| <= 2 * maxRequests - 1
      {
        SharedBound(times, maxRequests, window, from);
      }
    }
  }

  ghost predicate SharedInv(s: Shared, first: nat, maxRequests: nat, window: real, now: real)
    requires maxRequests >= 1
  {
    Ordered(s.granted) && Spaced(s.granted, 2 * maxRequests - 1, window) &&
    (forall i :: 0 <= i < |s.granted| ==> s.granted[i] <= now) && CounterInv(s, first, maxRequests, window, now)
  }

  // The grants before position `first` belong to earlier counters; the current one began with a grant at
  // `start`.  A whole counter's worth back, the grants are a window older than that.
  ghost predicate CounterInv(s: Shared, first: nat, maxRequests: nat, window: real, now: real) {
    var g := s.granted;
    match s.counter
    case Absent => g == [] && first == 0
    case Present(count, expiry) =>
      var start := expiry - window;
      count >= 1 && first < |g| && |g| == first + Min(count, maxRequests) && g[first] == start && start <= now &&
      AgedBefore(g, first, maxRequests, start - window)
  }

  ghost predicate AgedBefore(g: seq<real>, first: nat, maxRequests: nat, limit: real)
    requires first <= |g|
  {
    forall i :: 0 <= i < first && i + maxRequests <= first ==> g[i] <= limit
  }

  // Once the counter expired, the grants that are its whole limit back are a window old.
  lemma GrantsAged(s: Shared, first: nat, maxRequests: nat, window: real, before: real, now: real)
    requires maxRequests >= 1 && window >= 0.0 && SharedInv(s, first, maxRequests, window, before) && before <= now
    requires s.counter.Absent? || now >= s.counter.expiry
    ensures AgedBefore(s.granted, |s.granted|, maxRequests, now - window)
  {
    var g := s.granted;
    forall i | 0 <= i < |g| && i + maxRequests <= |g|
      ensures g[i] <= now - window
    {
      assert i == first || g[i] <= g[first];
    }
  }

  // The counter expired: the request starts a new one, and is granted.
  lemma NewCounter(s: Shared, first: nat, maxRequests: nat, window: real, before: real, now: real)
    requires maxRequests >= 1 && window >= 0.0 && SharedInv(s, first, maxRequests, window, before) && before <= now
    requires s.counter.Absent? || now >= s.counter.expiry
    ensures SharedInv(Shared(Present(1, now + window), s.granted + [now]), |s.granted|, maxRequests, window, now)
  {
    var k := 2 * maxRequests - 1;
    GrantsAged(s, first, maxRequests, window, before, now);
    StartCounter(s.granted, maxRequests, window, now);
    AppendGrant(s.granted, k, window, now);
  }

  lemma StartCounter(g: seq<real>, maxRequests: nat, window: real, now: real)
    requires maxRequests >= 1 && AgedBefore(g, |g|, maxRequests, now - window)
    ensures CounterInv(Shared(Present(1, now + window), g + [now]), |g|, maxRequests, window, now)
  {
    var g' := g + [now];
    assert |g'| == |g| + 1 && g'[|g|] == now == now + window - window;
    assert forall i :: 0 <= i < |g| ==> g'[i] == g[i];
  }

  // The counter still runs, and has not reached the limit.
  lemma SameCounter(s: Shared, first: nat, maxRequests: nat, window: real, before: real, now: real)
    requires maxRequests >= 1 && window >= 0.0 && SharedInv(s, first, maxRequests, window, before) && before <= now
    requires s.counter.Present? && now < s.counter.expiry && s.counter.count < maxRequests
    ensures SharedInv(Shared(Present(s.counter.count + 1, s.counter.expiry), s.granted + [now]), first, maxRequests, window, now)
  {
    var g := s.granted;
    var k := 2 * maxRequests - 1;
    if |g| >= k {
      var i := |g| - k;
      assert i < first && i + maxRequests <= first;
      assert g[i] <= s.counter.expiry - window - window;
    }
    AppendGrant(g, k, window, now);
  }

  lemma SharedStep(s: Shared, first: nat, maxRequests: nat, window: real, before: real, now: real) returns (first': nat)
    requires maxRequests >= 1 && window >= 0.0 && SharedInv(s, first, maxRequests, window, before) && before <= now
    ensures var c := Incr(s.counter, window, now);
            SharedInv(Shared(c, if c.count <= maxRequests then s.granted + [now] else s.granted), first', maxRequests, window, now)
  {
    if s.counter.Absent? || now >= s.counter.expiry {
      first' := |s.granted|;
      NewCounter(s, first, maxRequests, window, before, now);
    } else {
      first' := first;
      if s.counter.count < maxRequests {
        SameCounter(s, first, maxRequests, window, before, now);
      }
    }
  }

  lemma {:induction false} SharedAlways(times: seq<real>, maxRequests: nat, window: real) returns (first: nat)
    requires maxRequests >= 1 && window >= 0.0 && Ordered(times)
    ensures SharedInv(SharedAfter(times, maxRequests, window), first, maxRequests, window, LastOf(times))
  {
    if times == [] {
      first := 0;
    } else {
      var last := |times| - 1;
      var prefix := times[..last];
      first := SharedAlways(prefix, maxRequests, window);
      var s := SharedAfter(prefix, maxRequests, window);
      assert if last == 0 then prefix == [] else LastOf(prefix) == times[last - 1];
      first := SharedStep(s, first, maxRequests, window, if last == 0 then times[0] else times[last - 1], times[last]);
    }
  }

  // Whatever the requests, at most 2 * maxRequests - 1 are granted in any interval of one window.
  lemma SharedBound(times: seq<real>, maxRequests: nat, window: real, from: real)
    requires maxRequests >= 1 && window >= 0.0 && Ordered(times)
    ensures |Burst(SharedAfter(times, maxRequests, window).granted, from, window)| <= 2 * maxRequests - 1
  {
    var _ := SharedAlways(times, maxRequests, window);
    SpacedBoundsBurst(SharedAfter(times, maxRequests, window).granted, 2 * maxRequests - 1, from, window);
  }

  function Repeat(x: real, k: nat): (r: seq<real>)
    ensures |r| == k && forall i :: 0 <= i < k ==> r[i] == x
  {
    seq(k, _ => x)
  }

  // k more requests at one moment, all within the limit.
  lemma {:induction false} GrantAll(times: seq<real>, s: Shared, maxRequests: nat, window: real, x: real, k: nat)
    requires s == SharedAfter(times, maxRequests, window) && s.counter.Present?
    requires x < s.counter.expiry && s.counter.count + k <= maxRequests
    ensures SharedAfter(times + Repeat(x, k), maxRequests, window) ==
            Shared(Present(s.counter.count + k, s.counter.expiry), s.granted + Repeat(x, k))
  {
    if k == 0 {
      assert times + Repeat(x, k) == times && s.granted + Repeat(x, k) == s.granted;
    } else {
      var less := Repeat(x, k - 1);
      GrantAll(times, s, maxRequests, window, x, k - 1);
      CountOneMore(times + less, s.counter.count + (k - 1), s.counter.expiry, s.granted + less, x, maxRequests, window);
      assert Repeat(x, k) == less + [x];
      assert times + less + [x] == times + Repeat(x, k) && s.granted + less + [x] == s.granted + Repeat(x, k);
    }
  }

  lemma OneMore(times: seq<real>, c: Counter, granted: seq<real>, maxRequests: nat, window: real, x: real)
    requires maxRequests >= 1
    requires SharedAfter(times, maxRequests, window) == Shared(c, granted) && (c.Absent? || x >= c.expiry)
    ensures SharedAfter(times + [x], maxRequests, window) == Shared(Present(1, x + window), granted + [x])
  {
    assert (times + [x])[..|times|] == times;
  }

  // Requests under which the bound is met: one starts a counter, the rest of its limit is used late, and the
  // next counter is used up at once.
  function WorstCase(maxRequests: nat, window: real): seq<real>
    requires maxRequests >= 1
  {
    [0.0] + Repeat(window / 2.0, maxRequests - 1) + [window] + Repeat(window, maxRequests - 1)
  }

  lemma WorstCaseIsGranted(maxRequests: nat, window: real)
    requires maxRequests >= 1 && window > 0.0
    ensures SharedAfter(WorstCase(maxRequests, window), maxRequests, window).granted == WorstCase(maxRequests, window)
  {
    var first := [] + [0.0];
    assert first == [0.0];
    UsedUp([], Absent, [], maxRequests, maxRequests - 1, window, 0.0, window / 2.0);
    var early := first + Repeat(window / 2.0, maxRequests - 1);
    UsedUp(early, Present(maxRequests, window), early, maxRequests, maxRequests - 1, window, window, window);
  }

  // A new counter, and the rest of its limit used at one moment.
  lemma UsedUp(times: seq<real>, c: Counter, granted: seq<real>, maxRequests: nat, k: nat, window: real, x: real, y: real)
    requires maxRequests == k + 1 && x <= y < x + window
    requires SharedAfter(times, maxRequests, window) == Shared(c, granted) && (c.Absent? || x >= c.expiry)
    ensures SharedAfter(times + [x] + Repeat(y, k), maxRequests, window) ==
            Shared(Present(1 + k, x + window), granted + [x] + Repeat(y, k))
  {
    var started := times + [x];
    var s := Shared(Present(1, x + window), granted + [x]);
    assert SharedAfter(started, maxRequests, window) == s by {
      OneMore(times, c, granted, maxRequests, window, x);
    }
    GrantAll(started, s, maxRequests, window, y, k);
  }

  lemma {:induction false} AtLeast(s: set<nat>, low: nat, k: nat)
    requires forall i: nat :: low <= i < low + k ==> i in s
    ensures |s| >= k
  {
    if k > 0 {
      AtLeast(s - {low}, low + 1, k - 1);
      assert |s| == |s - {low}| + 1;
    }
  }

  lemma LateGrants(maxRequests: nat, window: real, b: set<nat>)
    requires maxRequests >= 1 && window > 0.0 && b == Burst(WorstCase(maxRequests, window), window / 2.0, window)
    ensures Ordered(WorstCase(maxRequests, window))
    ensures forall i: nat :: 1 <= i < 2 * maxRequests ==> i in b
  {
    var g := WorstCase(maxRequests, window);
    forall i: nat | 1 <= i < 2 * maxRequests
      ensures i in b
    {
      assert g[i] == window / 2.0 || g[i] == window;
    }
  }

  lemma SharedBoundIsTight(maxRequests: nat, window: real)
    requires maxRequests >= 1 && window > 0.0
    ensures Ordered(WorstCase(maxRequests, window))
    ensures |Burst(SharedAfter(WorstCase(maxRequests, window), maxRequests, window).granted, window / 2.0, window)|
            == 2 * maxRequests - 1
  {
    WorstCaseIsGranted(maxRequests, window);
    var b := Burst(WorstCase(maxRequests, window), window / 2.0, window);
    LateGrants(maxRequests, window, b);
    AtLeast(b, 1, 2 * maxRequests - 1);
    SharedBound(WorstCase(maxRequests, window), maxRequests, window, window / 2.0);
  }

  /* ----- Nobody is refused without need ----- */

  // The grants that are still inside the window that ends now.
  ghost function Recent(g: seq<real>, now: real, window: real): set<nat> {
    set i: nat | i < |g| && now - g[i] < window
  }

  lemma {:induction false} SuffixSize(stale: nat, n: nat, s: set<nat>)
    requires stale <= n && forall i: nat :: i in s <==> stale <= i < n
    ensures |s| == n - stale
  {
    if stale == n {
      assert s == {};
    } else {
      SuffixSize(stale, n - 1, s - {n - 1});
    }
  }

  lemma FreshIsRecent(s: Sliding, stale: nat, maxRequests: nat, window: real, before: real, now: real)
    requires SlidingInv(s, stale, maxRequests, window, before) && before <= now
    ensures |Fresh(s.bucket, now, window)| == |Recent(s.granted, now, window)|
  {
    var g := s.granted;
    assert forall i :: 0 <= i < |s.bucket| ==> s.bucket[i] == g[stale + i];
    var more := FreshIsSuffix(s.bucket, now, window);
    forall i: nat
      ensures i in Recent(g, now, window) <==> stale + more <= i < |g|
    {
      if stale <= i < |g| {
        assert s.bucket[i - stale] == g[i];
      }
    }
    SuffixSize(stale + more, |g|, Recent(g, now, window));
  }

  // A request is granted exactly if fewer than maxRequests grants lie in the window that it ends.
  lemma SlidingGrantIff(times: seq<real>, now: real, maxRequests: nat, window: real)
    requires Ordered(times) && (times != [] ==> LastOf(times) <= now)
    ensures var g := SlidingAfter(times, maxRequests, window).granted;
            SlidingAfter(times + [now], maxRequests, window).granted ==
            g + if |Recent(g, now, window)| < maxRequests then [now] else []
  {
    assert (times + [now])[..|times|] == times;
    var s := SlidingAfter(times, maxRequests, window);
    if maxRequests >= 1 {
      var stale := SlidingAlways(times, maxRequests, window);
      if times == [] {
        assert Recent(s.granted, now, window) == {};
      } else {
        FreshIsRecent(s, stale, maxRequests, window, LastOf(times), now);
      }
    }
  }

  // After these requests the counter has counted all of them, lasts as long as the first one gave it, and has
  // granted the first maxRequests, on top of the earlier grants.
  ghost predicate CountsFirst(times: seq<real>, counted: seq<real>, granted: seq<real>, maxRequests: nat, window: real)
    requires counted != []
  {
    SharedAfter(times + counted, maxRequests, window) ==
    Shared(Present(|counted|, counted[0] + window), granted + FirstOf(counted, maxRequests))
  }

  lemma CountsOne(times: seq<real>, x: real, maxRequests: nat, window: real)
    requires maxRequests >= 1
    requires var c := SharedAfter(times, maxRequests, window).counter; c.Absent? || x >= c.expiry
    ensures CountsFirst(times, [x], SharedAfter(times, maxRequests, window).granted, maxRequests, window)
  {
    var s := SharedAfter(times, maxRequests, window);
    OneMore(times, s.counter, s.granted, maxRequests, window, x);
  }

  lemma CountsMore(times: seq<real>, counted: seq<real>, granted: seq<real>, y: real, maxRequests: nat, window: real)
    requires counted != [] && CountsFirst(times, counted, granted, maxRequests, window) && y < counted[0] + window
    ensures CountsFirst(times, counted + [y], granted, maxRequests, window)
  {
    CountOneMore(times + counted, |counted|, counted[0] + window, granted + FirstOf(counted, maxRequests), y, maxRequests, window);
    assert times + counted + [y] == times + (counted + [y]);
    FirstOfMore(counted, y, maxRequests, granted);
  }

  // A counter that starts anew grants the first maxRequests of the requests it counts and no other, and refused
  // ones do not make it last longer.
  lemma {:induction false} CounterGrantsFirst(times: seq<real>, counted: seq<real>, maxRequests: nat, window: real)
    requires maxRequests >= 1 && counted != []
    requires var c := SharedAfter(times, maxRequests, window).counter; c.Absent? || counted[0] >= c.expiry
    requires forall i :: 1 <= i < |counted| ==> counted[i] < counted[0] + window
    ensures CountsFirst(times, counted, SharedAfter(times, maxRequests, window).granted, maxRequests, window)
  {
    var n := |counted| - 1;
    if n == 0 {
      CountsOne(times, counted[0], maxRequests, window);
      assert counted == [counted[0]];
    } else {
      CounterGrantsFirst(times, counted[..n], maxRequests, window);
      CountsMore(times, counted[..n], SharedAfter(times, maxRequests, window).granted, counted[n], maxRequests, window);
      assert counted == counted[..n] + [counted[n]];
    }
  }

  function FirstOf(requests: seq<real>, k: nat): seq<real> {
    if k < |requests| then requests[..k] else requests
  }

  lemma FirstOfMore(requests: seq<real>, y: real, k: nat, granted: seq<real>)
    ensures granted + FirstOf(requests, k) + (if |requests| < k then [y] else []) == granted + FirstOf(requests + [y], k)
  {
  }

  // One more request while the counter runs.
  lemma CountOneMore(times: seq<real>, count: nat, expiry: real, granted: seq<real>, y: real, maxRequests: nat, window: real)
    requires SharedAfter(times, maxRequests, window) == Shared(Present(count, expiry), granted) && y < expiry
    ensures SharedAfter(times + [y], maxRequests, window) ==
            Shared(Present(count + 1, expiry), granted + if count < maxRequests then [y] else [])
  {
    assert (times + [y])[..|times|] == times;
  }
}
