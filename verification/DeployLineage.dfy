/** The deploy lineage of one workflow: snapshots, retention, rollback. */
module DeployLineage {
  import opened Helpers
  import opened Graphs
  import opened ValidateDag

  // What a workflow does; `settings` stands for its schedule, its variables and its call limit.
  datatype Content = Content(nodes: seq<Id>, edges: seq<Edge>, settings: string)

  datatype Source = FromDeploy | FromRollback(version: nat)

  datatype Snapshot = Snapshot(content: Content, source: Source)

  // The stored documents: the workflow itself and its version history.
  datatype State = State(deployed: bool, live: Content, deployedVersion: Option<nat>, versions: map<nat, Snapshot>)

  // `checksPass` is the verdict of the environment and cron checks.
  datatype Op =
    | Deploy(checksPass: bool)
    | Undeploy
    | Edit(content: Content)
    | Rollback(version: nat, checksPass: bool)
    | DeleteVersion(version: nat)

  ghost predicate ValidContent(c: Content) {
    c.nodes == [] || ValidGraph(IdSet(c.nodes), c.edges)
  }

  ghost predicate Deployable(c: Content) {
    c.nodes != [] && ValidGraph(IdSet(c.nodes), c.edges)
  }

  /* ----- Version numbers and retention ----- */

  ghost predicate IsMax(s: set<nat>, m: nat) {
    m in s && forall x :: x in s ==> x <= m
  }

  // The version numbers above n.
  function Newer(s: set<nat>, n: nat): set<nat> {
    set x | x in s && x > n
  }

  ghost function HighWater(s: set<nat>): nat {
    if s == {} then 0 else MaxExists(s); var m: nat :| IsMax(s, m); m
  }

  lemma {:induction false} MaxExists(s: set<nat>)
    requires s != {}
    ensures exists m :: IsMax(s, m)
  {
    var x :| x in s;
    if s == {x} {
      assert IsMax(s, x);
    } else {
      var rest := s - {x};
      MaxExists(rest);
      var m :| IsMax(rest, m);
      assert forall y :: y in s ==> y == x || y in rest;
      assert IsMax(s, if x > m then x else m);
    }
  }

  // The newest `keep` versions and the protected one.
  ghost function Retained(versions: map<nat, Snapshot>, keep: nat, protect: nat): map<nat, Snapshot> {
    map n | n in versions && (|Newer(versions.Keys, n)| < keep || n == protect) :: versions[n]
  }

  ghost function Appended(keep: nat, versions: map<nat, Snapshot>, snap: Snapshot): (r: (map<nat, Snapshot>, nat)) {
    var n := HighWater(versions.Keys) + 1;
    (Retained(versions[n := snap], keep, n), n)
  }

  /* ----- The operations ----- */

  ghost predicate Accepts(s: State, op: Op) {
    match op
    case Deploy(checksPass) => Deployable(s.live) && checksPass
    case Undeploy => true
    case Edit(content) => ValidContent(content)
    case Rollback(v, checksPass) => v in s.versions && Deployable(s.versions[v].content) && (s.deployed ==> checksPass)
    case DeleteVersion(v) => s.deployedVersion != Some(v) && v in s.versions
  }

  // An operation that is refused changes nothing.
  ghost function Next(keep: nat, s: State, op: Op): State {
    if !Accepts(s, op) then s
    else
      match op
      case Deploy(_) =>
        var (versions, n) := Appended(keep, s.versions, Snapshot(s.live, FromDeploy));
        State(true, s.live, Some(n), versions)
      case Undeploy => s.(deployed := false)
      case Edit(content) => s.(live := content)
      case Rollback(v, _) =>
        var content := s.versions[v].content;
        if s.deployed then
          var (versions, n) := Appended(keep, s.versions, Snapshot(content, FromRollback(v)));
          State(true, content, Some(n), versions)
        else s.(live := content)
      case DeleteVersion(v) => s.(versions := s.versions - {v})
  }

  // Does the operation put a new version on the lineage?
  ghost predicate Issues(s: State, op: Op) {
    Accepts(s, op) && (op.Deploy? || (op.Rollback? && s.deployed))
  }

  /* ----- What every operation keeps ----- */

  ghost predicate Valid(keep: nat, s: State) {
    |s.versions| <= keep &&
    (forall n :: n in s.versions ==> n >= 1 && Deployable(s.versions[n].content)) &&
    (if s.deployedVersion.None? then s.versions == map[] else IsMax(s.versions.Keys, s.deployedVersion.value)) &&
    (s.deployed ==> s.deployedVersion.Some?) && ValidContent(s.live)
  }

  lemma HighWaterIsMax(s: set<nat>, m: nat)
    requires IsMax(s, m)
    ensures HighWater(s) == m
  {
    MaxExists(s);
  }

  // A set all of whose members have fewer than k members above them has at most k members.
  lemma {:induction false} FewAboveMeansFew(s: set<nat>, k: nat)
    requires forall n :: n in s ==> |Newer(s, n)| < k
    ensures |s| <= k
  {
    if s != {} {
      var low := Lowest(s);
      assert Newer(s, low) == s - {low};
    }
  }

  lemma AppendedIsNewest(keep: nat, versions: map<nat, Snapshot>, snap: Snapshot)
    requires keep >= 1
    ensures var (kept, n) := Appended(keep, versions, snap);
            n == HighWater(versions.Keys) + 1 && IsMax(kept.Keys, n) && kept[n] == snap && |kept| <= keep &&
            forall x :: x in kept && x != n ==> x in versions && kept[x] == versions[x]
  {
    var n := HighWater(versions.Keys) + 1;
    if versions.Keys != {} {
      MaxExists(versions.Keys);
    }
    var all := versions[n := snap];
    assert Newer(all.Keys, n) == {};
    var kept := Retained(all, keep, n);
    forall x | x in kept.Keys
      ensures |Newer(kept.Keys, x)| < keep
    {
      SubsetCard(Newer(kept.Keys, x), Newer(all.Keys, x));
    }
    FewAboveMeansFew(kept.Keys, keep);
    assert |kept| == |kept.Keys|;
  }

  // One operation keeps the invariant; a version it issues is one above the high-water mark, and no
  // operation moves the mark otherwise or alters a snapshot.
  lemma NextKeepsLineage(keep: nat, s: State, op: Op)
    requires keep >= 1 && Valid(keep, s)
    ensures var t := Next(keep, s, op);
            Valid(keep, t) &&
            HighWater(t.versions.Keys) == HighWater(s.versions.Keys) + (if Issues(s, op) then 1 else 0) &&
            forall n :: n in t.versions && n <= HighWater(s.versions.Keys) ==> n in s.versions && t.versions[n] == s.versions[n]
  {
    var t := Next(keep, s, op);
    if s.deployedVersion.Some? {
      HighWaterIsMax(s.versions.Keys, s.deployedVersion.value);
    }
    if Issues(s, op) {
      var snap := if op.Deploy? then Snapshot(s.live, FromDeploy)
                  else Snapshot(s.versions[op.version].content, FromRollback(op.version));
      AppendedIsNewest(keep, s.versions, snap);
      HighWaterIsMax(t.versions.Keys, t.deployedVersion.value);
    } else if op.DeleteVersion? && Accepts(s, op) {
      SubsetCard(t.versions.Keys, s.versions.Keys);
      HighWaterIsMax(t.versions.Keys, s.deployedVersion.value);
    }
  }

  /* ----- Whole histories ----- */

  ghost function After(keep: nat, s: State, ops: seq<Op>): State
    decreases |ops|
  {
    if ops == [] then s else After(keep, Next(keep, s, ops[0]), ops[1..])
  }

  ghost function IssuedBy(keep: nat, s: State, ops: seq<Op>): nat
    decreases |ops|
  {
    if ops == [] then 0
    else (if Issues(s, ops[0]) then 1 else 0) + IssuedBy(keep, Next(keep, s, ops[0]), ops[1..])
  }

  // Over every history the invariant holds, each issue raises the high-water mark by exactly one, and a
  // snapshot that is still there is the one that was taken.
  lemma {:induction false} LineageAlways(keep: nat, s: State, ops: seq<Op>)
    requires keep >= 1 && Valid(keep, s)
    ensures var t := After(keep, s, ops);
            Valid(keep, t) && HighWater(t.versions.Keys) == HighWater(s.versions.Keys) + IssuedBy(keep, s, ops) &&
            forall n :: n in t.versions && n <= HighWater(s.versions.Keys) ==> n in s.versions && t.versions[n] == s.versions[n]
    decreases |ops|
  {
    if ops != [] {
      NextKeepsLineage(keep, s, ops[0]);
      LineageAlways(keep, Next(keep, s, ops[0]), ops[1..]);
    }
  }

  // Version numbers are never reused: whatever happens between two issues, also deletes and pruning, the
  // later one gets a number above every number the earlier history ever held.
  lemma NumbersNeverReused(keep: nat, s: State, ops: seq<Op>, op: Op)
    requires keep >= 1 && Valid(keep, s)
    requires Issues(After(keep, s, ops), op)
    ensures var t := Next(keep, After(keep, s, ops), op);
            t.deployedVersion == Some(HighWater(s.versions.Keys) + IssuedBy(keep, s, ops) + 1) &&
            forall n :: n in s.versions ==> n < t.deployedVersion.value
  {
    LineageAlways(keep, s, ops);
    IssueIsNewest(keep, After(keep, s, ops), op);
    ValidHighWater(keep, s);
  }

  lemma IssueIsNewest(keep: nat, s: State, op: Op)
    requires keep >= 1 && Valid(keep, s) && Issues(s, op)
    ensures Next(keep, s, op).deployedVersion == Some(HighWater(s.versions.Keys) + 1)
  {
    NextKeepsLineage(keep, s, op);
    ValidHighWater(keep, Next(keep, s, op));
  }

  lemma ValidHighWater(keep: nat, s: State)
    requires Valid(keep, s)
    ensures HighWater(s.versions.Keys) == if s.deployedVersion.Some? then s.deployedVersion.value else 0
    ensures forall n :: n in s.versions ==> n <= HighWater(s.versions.Keys)
  {
    if s.deployedVersion.Some? {
      HighWaterIsMax(s.versions.Keys, s.deployedVersion.value);
    }
  }

  // A rollback brings back exactly the graph that was deployed under the version, however long ago, and
  // when the workflow is live it puts that graph on top of the lineage.
  lemma RollbackRestores(keep: nat, s: State, ops: seq<Op>, v: nat, checksPass: bool)
    requires keep >= 1 && Valid(keep, s) && Accepts(s, Deploy(true))
    requires Next(keep, s, Deploy(true)).deployedVersion == Some(v)
    requires var m := After(keep, Next(keep, s, Deploy(true)), ops); v in m.versions && (m.deployed ==> checksPass)
    ensures var m := After(keep, Next(keep, s, Deploy(true)), ops);
            var t := Next(keep, m, Rollback(v, checksPass));
            var n := HighWater(m.versions.Keys) + 1;
            t.live == s.live && t.deployed == m.deployed &&
            (m.deployed ==> t.deployedVersion == Some(n) && n in t.versions && t.versions[n] == Snapshot(s.live, FromRollback(v))) &&
            (!m.deployed ==> t.versions == m.versions && t.deployedVersion == m.deployedVersion)
  {
    DeployedSnapshotKept(keep, s, ops, v);
    RollbackGives(keep, After(keep, Next(keep, s, Deploy(true)), ops), v, checksPass);
  }

  lemma RollbackGives(keep: nat, m: State, v: nat, checksPass: bool)
    requires keep >= 1 && v in m.versions && Deployable(m.versions[v].content) && (m.deployed ==> checksPass)
    ensures var t := Next(keep, m, Rollback(v, checksPass));
            var n := HighWater(m.versions.Keys) + 1;
            t.live == m.versions[v].content && t.deployed == m.deployed &&
            (m.deployed ==> t.deployedVersion == Some(n) && n in t.versions && t.versions[n] == Snapshot(t.live, FromRollback(v))) &&
            (!m.deployed ==> t.versions == m.versions && t.deployedVersion == m.deployedVersion)
  {
    AppendedIsNewest(keep, m.versions, Snapshot(m.versions[v].content, FromRollback(v)));
  }

  lemma DeployedSnapshotKept(keep: nat, s: State, ops: seq<Op>, v: nat)
    requires keep >= 1 && Valid(keep, s) && Accepts(s, Deploy(true))
    requires Next(keep, s, Deploy(true)).deployedVersion == Some(v)
    requires v in After(keep, Next(keep, s, Deploy(true)), ops).versions
    ensures After(keep, Next(keep, s, Deploy(true)), ops).versions[v] == Snapshot(s.live, FromDeploy)
    ensures Deployable(s.live)
  {
    var d := Next(keep, s, Deploy(true));
    NextKeepsLineage(keep, s, Deploy(true));
    AppendedIsNewest(keep, s.versions, Snapshot(s.live, FromDeploy));
    HighWaterIsMax(d.versions.Keys, v);
    LineageAlways(keep, d, ops);
  }

  // Rolling back to a version that exists is never refused for its graph.
  lemma RollbackNeverInvalid(keep: nat, s: State, ops: seq<Op>, v: nat, checksPass: bool)
    requires keep >= 1 && Valid(keep, s)
    ensures var m := After(keep, s, ops);
            Accepts(m, Rollback(v, checksPass)) <==> v in m.versions && (m.deployed ==> checksPass)
  {
    LineageAlways(keep, s, ops);
  }

  /* ----- What a history leads to ----- */

  lemma {:induction false} AfterLast(keep: nat, s: State, ops: seq<Op>)
    requires ops != []
    ensures After(keep, s, ops) == Next(keep, After(keep, s, ops[..|ops| - 1]), ops[|ops| - 1])
    decreases |ops|
  {
    if |ops| > 1 {
      AfterLast(keep, Next(keep, s, ops[0]), ops[1..]);
      assert ops[..|ops| - 1][1..] == ops[1..][..|ops| - 2];
    } else {
      assert ops[1..] == [] && ops[..0] == [];
    }
  }

  // The state in which the operation at i finds the workflow, and whether it is accepted there.
  ghost function Before(keep: nat, s: State, ops: seq<Op>, i: nat): State
    requires i <= |ops|
  {
    After(keep, s, ops[..i])
  }

  // Accepted, and of the given kind.
  ghost predicate Done(keep: nat, s: State, ops: seq<Op>, kind: Op -> bool, i: nat) {
    i < |ops| && kind(ops[i]) && Accepts(Before(keep, s, ops, i), ops[i])
  }

  // The last accepted operation of the kind.
  ghost predicate LastDone(keep: nat, s: State, ops: seq<Op>, kind: Op -> bool, i: nat) {
    Done(keep, s, ops, kind, i) && forall j :: i < j < |ops| ==> !Done(keep, s, ops, kind, j)
  }

  ghost predicate NoneDone(keep: nat, s: State, ops: seq<Op>, kind: Op -> bool) {
    forall j :: 0 <= j < |ops| ==> !Done(keep, s, ops, kind, j)
  }

  // One more operation is the last one of its kind, or leaves that one as it is.
  lemma LastOfMore(keep: nat, s: State, ops: seq<Op>, kind: Op -> bool)
    requires ops != []
    ensures var (n, less) := (|ops| - 1, ops[..|ops| - 1]);
            forall i: nat :: i < |ops| ==>
              Before(keep, s, ops, i) == (if i < n then Before(keep, s, less, i) else After(keep, s, less)) &&
              (i < n ==> (Done(keep, s, ops, kind, i) <==> Done(keep, s, less, kind, i)))
  {
    var n, less := |ops| - 1, ops[..|ops| - 1];
    forall i: nat | i < |ops|
      ensures ops[..i] == less[..i] && (i < n ==> ops[i] == less[i])
    {
    }
    assert less[..n] == less;
  }

  predicate Switches(op: Op) {
    op.Deploy? || op.Undeploy?
  }

  predicate Writes(op: Op) {
    op.Edit? || op.Rollback?
  }

  // One more operation of another kind, or refused, is not the last one.
  lemma LastStays(keep: nat, s: State, ops: seq<Op>, kind: Op -> bool)
    requires ops != [] && !Done(keep, s, ops, kind, |ops| - 1)
    ensures var less := ops[..|ops| - 1];
            (forall i: nat :: LastDone(keep, s, ops, kind, i) ==> LastDone(keep, s, less, kind, i) && ops[i] == less[i]) &&
            (NoneDone(keep, s, ops, kind) ==> NoneDone(keep, s, less, kind))
  {
    LastOfMore(keep, s, ops, kind);
    var less := ops[..|ops| - 1];
    forall i: nat | LastDone(keep, s, ops, kind, i)
      ensures LastDone(keep, s, less, kind, i)
    {
      assert i < |less|;
    }
  }

  lemma {:induction false} LastOrNone(keep: nat, s: State, ops: seq<Op>, kind: Op -> bool, n: nat)
    requires n <= |ops| && forall j :: n <= j < |ops| ==> !Done(keep, s, ops, kind, j)
    ensures NoneDone(keep, s, ops, kind) || exists i: nat :: LastDone(keep, s, ops, kind, i)
  {
    if n > 0 {
      if Done(keep, s, ops, kind, n - 1) {
        assert LastDone(keep, s, ops, kind, n - 1);
      } else {
        LastOrNone(keep, s, ops, kind, n - 1);
      }
    }
  }

  lemma SwitchedBy(keep: nat, s: State, op: Op)
    ensures Next(keep, s, op).deployed <==> if Switches(op) && Accepts(s, op) then op.Deploy? else s.deployed
  {
  }

  lemma {:induction false} DeployedAsLast(keep: nat, s: State, ops: seq<Op>)
    ensures forall i: nat :: LastDone(keep, s, ops, Switches, i) ==> (After(keep, s, ops).deployed <==> ops[i].Deploy?)
    ensures NoneDone(keep, s, ops, Switches) ==> (After(keep, s, ops).deployed <==> s.deployed)
    decreases |ops|
  {
    if ops != [] {
      var n, less := |ops| - 1, ops[..|ops| - 1];
      var before := After(keep, s, less);
      AfterLast(keep, s, ops);
      SwitchedBy(keep, before, ops[n]);
      if Done(keep, s, ops, Switches, n) {
        forall i: nat | LastDone(keep, s, ops, Switches, i)
          ensures i == n
        {
        }
      } else {
        DeployedAsLast(keep, s, less);
        LastStays(keep, s, ops, Switches);
      }
    }
  }

  // A workflow is live exactly if the last accepted deploy or undeploy was a deploy, or if it was live before
  // and there was none.
  lemma DeployedIff(keep: nat, s: State, ops: seq<Op>)
    ensures After(keep, s, ops).deployed <==>
              (exists i: nat :: LastDone(keep, s, ops, Switches, i) && ops[i].Deploy?) || (NoneDone(keep, s, ops, Switches) && s.deployed)
  {
    DeployedAsLast(keep, s, ops);
    LastOrNone(keep, s, ops, Switches, |ops|);
  }

  // What the last accepted edit or rollback has put into the workflow.
  ghost function Written(keep: nat, s: State, ops: seq<Op>, i: nat): Content
    requires Done(keep, s, ops, Writes, i)
  {
    if ops[i].Edit? then ops[i].content else Before(keep, s, ops, i).versions[ops[i].version].content
  }

  // The live content is that of the last accepted edit or rollback; without any it is what it was.
  lemma {:induction false} LiveIsLastWritten(keep: nat, s: State, ops: seq<Op>)
    ensures forall i: nat :: LastDone(keep, s, ops, Writes, i) ==> After(keep, s, ops).live == Written(keep, s, ops, i)
    ensures NoneDone(keep, s, ops, Writes) ==> After(keep, s, ops).live == s.live
    decreases |ops|
  {
    if ops != [] {
      var n, less := |ops| - 1, ops[..|ops| - 1];
      LiveIsLastWritten(keep, s, less);
      AfterLast(keep, s, ops);
      LastOfMore(keep, s, ops, Writes);
      if !Done(keep, s, ops, Writes, n) {
        assert After(keep, s, ops).live == After(keep, s, less).live;
        LastStays(keep, s, ops, Writes);
        forall i: nat | LastDone(keep, s, ops, Writes, i)
          ensures Written(keep, s, ops, i) == Written(keep, s, less, i)
        {
        }
      }
    }
  }

  // Right after an accepted deploy the workflow is live under a version that is exactly its content.
  lemma DeployDeploys(keep: nat, s: State, checksPass: bool)
    requires keep >= 1 && Accepts(s, Deploy(checksPass))
    ensures var t := Next(keep, s, Deploy(checksPass));
            t.deployed && t.live == s.live && t.deployedVersion == Some(HighWater(s.versions.Keys) + 1) &&
            t.deployedVersion.value in t.versions && t.versions[t.deployedVersion.value] == Snapshot(s.live, FromDeploy)
  {
    AppendedIsNewest(keep, s.versions, Snapshot(s.live, FromDeploy));
  }

  // Undeploying, editing and rolling back a draft leave the lineage and the deployed version alone; deleting
  // takes one version out of it and touches nothing else.
  lemma LineageIsLeftAlone(keep: nat, s: State, op: Op)
    requires !Issues(s, op)
    ensures var t := Next(keep, s, op);
            t.deployedVersion == s.deployedVersion && (!op.Undeploy? ==> t.deployed == s.deployed) &&
            (op.DeleteVersion? || op.Undeploy? || op.Deploy? ==> t.live == s.live) &&
            (forall n :: n in t.versions ==> n in s.versions && t.versions[n] == s.versions[n]) &&
            (forall n :: n in s.versions && n !in t.versions ==> op == DeleteVersion(n))
  {
  }

  // A deleted version is gone and never comes back.
  lemma DeletedNeverReturns(keep: nat, s: State, v: nat, ops: seq<Op>)
    requires keep >= 1 && Valid(keep, s) && Accepts(s, DeleteVersion(v))
    ensures v !in After(keep, Next(keep, s, DeleteVersion(v)), ops).versions
  {
    var t := Next(keep, s, DeleteVersion(v));
    NextKeepsLineage(keep, s, DeleteVersion(v));
    ValidHighWater(keep, s);
    LineageAlways(keep, t, ops);
  }

  // The number of members with fewer than k members above them.
  function NewestOf(s: set<nat>, k: nat): set<nat> {
    set n | n in s && |Newer(s, n)| < k
  }

  lemma {:induction false} NewestOfSize(s: set<nat>, k: nat)
    ensures |NewestOf(s, k)| == Min(k, |s|)
  {
    if s == {} {
      assert NewestOf(s, k) == {};
    } else {
      var low := Lowest(s);
      var rest := s - {low};
      NewestOfSize(rest, k);
      assert Newer(s, low) == rest;
      assert forall x :: x in rest ==> Newer(s, x) == Newer(rest, x);
      assert NewestOf(s, k) == NewestOf(rest, k) + if |rest| < k then {low} else {};
    }
  }

  // What is dropped is older than what is kept.
  lemma DroppedAreOlder(s: set<nat>, k: nat, x: nat, y: nat)
    requires x in s && x !in NewestOf(s, k) && y in NewestOf(s, k)
    ensures x < y
  {
    if y <= x {
      SubsetCard(Newer(s, x), Newer(s, y));
    }
  }

  lemma RetainedIsNewest(versions: map<nat, Snapshot>, keep: nat, protect: nat)
    requires keep >= 1 && IsMax(versions.Keys, protect)
    ensures Retained(versions, keep, protect).Keys == NewestOf(versions.Keys, keep)
  {
    assert Newer(versions.Keys, protect) == {};
  }

  // Retention drops no more than it has to, and only from the old end.
  lemma DropsOnlyOldest(keep: nat, versions: map<nat, Snapshot>, snap: Snapshot)
    requires keep >= 1
    ensures var (kept, n) := Appended(keep, versions, snap);
            |kept| == Min(keep, |versions| + 1) &&
            forall x, y :: x in versions && x !in kept && y in kept ==> x < y
  {
    var n := HighWater(versions.Keys) + 1;
    if versions.Keys != {} {
      MaxExists(versions.Keys);
    }
    var all := versions[n := snap];
    assert all.Keys == versions.Keys + {n};
    RetainedIsNewest(all, keep, n);
    NewestOfSize(all.Keys, keep);
    var kept := Retained(all, keep, n);
    assert |kept| == |kept.Keys|;
    forall x, y | x in versions && x !in kept && y in kept
      ensures x < y
    {
      DroppedAreOlder(all.Keys, keep, x, y);
    }
  }

  /* ----- The stored workflow ----- */

  // Strictly decreasing.
  ghost predicate Descending(nums: seq<nat>) {
    forall i, j :: 0 <= i < j < |nums| ==> nums[i] > nums[j]
  }

  // The query sorted by version number, newest first.
  method NewestFirst(s: set<nat>) returns (nums: seq<nat>)
    ensures Descending(nums) && forall n :: n in nums <==> n in s
  {
    nums := [];
    var rest := s;
    while rest != {}
      invariant rest <= s && Descending(nums) && forall n :: n in nums <==> n in s - rest
      invariant forall n, x :: n in nums && x in rest ==> n > x
    {
      MaxExists(rest);
      var m :| m in rest && forall x :: x in rest ==> x <= m;
      assert forall i :: 0 <= i < |nums| ==> nums[i] in nums;
      nums, rest := nums + [m], rest - {m};
    }
  }

  lemma PrefixIsNewer(s: set<nat>, nums: seq<nat>, i: nat)
    requires Descending(nums) && (forall n :: n in nums <==> n in s) && i < |nums|
    ensures Newer(s, nums[i]) == Elements(nums[..i]) && |Newer(s, nums[i])| == i
  {
    forall x
      ensures x in Newer(s, nums[i]) <==> x in nums[..i]
    {
      if x in s {
        var j :| 0 <= j < |nums| && nums[j] == x;
        assert j < i ==> nums[..i][j] == x;
      }
    }
    DistinctSize(nums[..i]);
  }

  // The first `keep` of the sorted numbers are those with fewer than `keep` numbers above them.
  lemma KeptAreNewest(s: set<nat>, nums: seq<nat>, newest: seq<nat>, keep: nat)
    requires Descending(nums) && forall n :: n in nums <==> n in s
    requires newest == if keep < |nums| then nums[..keep] else nums
    ensures forall n :: n in s ==> (n in newest <==> |Newer(s, n)| < keep)
  {
    forall n | n in s
      ensures n in newest <==> |Newer(s, n)| < keep
    {
      var i :| 0 <= i < |nums| && nums[i] == n;
      PrefixIsNewer(s, nums, i);
      if i < |newest| {
        assert newest[i] == n;
      }
      if n in newest {
        var j :| 0 <= j < |newest| && newest[j] == n;
        assert nums[j] == n;
      }
    }
  }

  function Doomed(versions: map<nat, Snapshot>, newest: seq<nat>, protect: nat): set<nat> {
    set n | n in versions && n !in newest && n != protect
  }

  lemma RestIsRetained(versions: map<nat, Snapshot>, keep: nat, protect: nat, newest: seq<nat>)
    requires forall n :: n in versions.Keys ==> (n in newest <==> |Newer(versions.Keys, n)| < keep)
    ensures versions - Doomed(versions, newest, protect) == Retained(versions, keep, protect)
  {
  }

  lemma FirstIsHighWater(s: set<nat>, nums: seq<nat>)
    requires Descending(nums) && forall n :: n in nums <==> n in s
    ensures HighWater(s) == if nums == [] then 0 else nums[0]
  {
    if nums == [] {
      assert s == {};
    } else {
      assert nums[0] in nums;
      forall x | x in s
        ensures x <= nums[0]
      {
        var i :| 0 <= i < |nums| && nums[i] == x;
      }
      HighWaterIsMax(s, nums[0]);
    }
  }

  class StoredWorkflow {
    const keep: nat
    var deployed: bool
    var live: Content
    var deployedVersion: Option<nat>
    var versions: map<nat, Snapshot>

    ghost function View(): State
      reads this
    {
      State(deployed, live, deployedVersion, versions)
    }

    // A new workflow with a validated graph; retention is at least 1.
    constructor (maxVersions: nat, content: Content)
      requires ValidContent(content)
      ensures View() == State(false, content, None, map[]) && keep >= 1 && Valid(keep, View())
    {
      keep := if maxVersions >= 1 then maxVersions else 1;
      deployed, live, deployedVersion, versions := false, content, None, map[];
    }

    // Delete all but the newest `keep` snapshots and the protected one.
    method PruneOldVersions(protect: nat)
      modifies this`versions
      ensures versions == Retained(old(versions), keep, protect)
    {
      var nums := NewestFirst(versions.Keys);
      var newest := if keep < |nums| then nums[..keep] else nums;
      KeptAreNewest(versions.Keys, nums, newest, keep);
      RestIsRetained(versions, keep, protect, newest);
      versions := versions - Doomed(versions, newest, protect);
    }

    method AppendSnapshot(snap: Snapshot) returns (n: nat)
      modifies this`versions
      ensures (versions, n) == Appended(keep, old(versions), snap)
    {
      var nums := NewestFirst(versions.Keys);
      FirstIsHighWater(versions.Keys, nums);
      n := if nums == [] then 1 else nums[0] + 1;
      versions := versions[n := snap];
      PruneOldVersions(n);
    }

    method Deploy(checksPass: bool) returns (ok: bool)
      modifies this
      ensures View() == Next(keep, old(View()), Op.Deploy(checksPass))
      ensures ok <==> Deployable(old(live)) && checksPass
      ensures ok ==> deployed && live == old(live) && deployedVersion.Some?
      ensures ok ==> deployedVersion.value in versions && versions[deployedVersion.value] == Snapshot(live, FromDeploy)
    {
      if live.nodes == [] {
        return false;
      }
      var errors := Validate(live.nodes, live.edges);
      if errors != [] || !checksPass {
        return false;
      }
      var n := AppendSnapshot(Snapshot(live, FromDeploy));
      deployed, deployedVersion := true, Some(n);
      ok := true;
    }

    method Undeploy()
      modifies this
      ensures View() == Next(keep, old(View()), Op.Undeploy) && !deployed
    {
      deployed := false;
    }

    method Edit(content: Content) returns (ok: bool)
      modifies this
      ensures View() == Next(keep, old(View()), Op.Edit(content))
      ensures ok <==> ValidContent(content)
      ensures live == if ok then content else old(live)
    {
      var errors := Validate(content.nodes, content.edges);
      ok := errors == [];
      if ok {
        live := content;
      }
    }

    method Rollback(version: nat, checksPass: bool) returns (ok: bool)
      modifies this
      ensures View() == Next(keep, old(View()), Op.Rollback(version, checksPass))
      ensures ok <==> version in old(versions) && Deployable(old(versions)[version].content) && (old(deployed) ==> checksPass)
      ensures live == (if ok then old(versions)[version].content else old(live)) && deployed == old(deployed)
    {
      if version !in versions {
        return false;
      }
      var content := versions[version].content;
      if content.nodes == [] {
        return false;
      }
      var errors := Validate(content.nodes, content.edges);
      if errors != [] || (deployed && !checksPass) {
        return false;
      }
      if deployed {
        var n := AppendSnapshot(Snapshot(content, FromRollback(version)));
        deployedVersion := Some(n);
      }
      live := content;
      ok := true;
    }

    method DeleteVersion(version: nat) returns (ok: bool)
      modifies this
      ensures View() == Next(keep, old(View()), Op.DeleteVersion(version))
      ensures ok <==> old(deployedVersion) != Some(version) && version in old(versions)
      ensures versions == old(versions) - if ok then {version} else {}
    {
      if deployedVersion == Some(version) || version !in versions {
        return false;
      }
      versions := versions - {version};
      ok := true;
    }
  }
}
