/** Whole runs of the executor: when they finish, what they cover, and what resuming them gives. */
module RunTheorems {
  import opened Helpers
  import opened Graphs
  import opened Engine
  import opened Executor
  import opened ValidateDag

  // A graph that Validate accepts, with at least two nodes.
  ghost predicate Accepted(g: Graph) {
    |g.nodes| >= 2 && ValidGraph(g.nodes.Keys, g.edges)
  }

  ghost predicate AllRegistered(g: Graph) {
    forall n :: n in g.nodes ==> g.nodes[n].registered
  }

  lemma ParentIsNode(g: Graph, n: Id, p: Id)
    requires EndpointsExist(g.nodes.Keys, g.edges) && p in Incoming(g.edges, n)
    ensures p in g.nodes && n in g.nodes
  {
    IncomingIffEdge(g.edges, p, n);
  }

  // An accepted graph has a root to start from and no orphan to skip.
  lemma AcceptedStarts(g: Graph, f: (Id, Input) -> NodeRun)
    requires Accepted(g)
    ensures var r := FreshRun(g, f); r.base == map[] && r.seeds == Roots(g) && r.seeds != {}
  {
    assert |g.nodes| == |g.nodes.Keys|;
    assert forall n :: n in g.nodes.Keys ==> n in Endpoints(g.edges);
    assert Orphans(g) == {};
    if Roots(g) == {} {
      forall n | n in g.nodes.Keys
        ensures HasPredecessorIn(g.edges, g.nodes.Keys, n)
      {
        assert n !in Roots(g);
        var e :| e in g.edges && e.target == n;
        assert HasEdge(g.edges, e.source, n);
      }
      assert |g.nodes.Keys| >= 2;
      PredecessorClosedHasCycle(g.edges, g.nodes.Keys);
    }
  }

  lemma VisitableIsNode(r: Run, m: map<Id, NodeResult>, n: Id)
    requires EndpointsExist(r.graph.nodes.Keys, r.graph.edges) && r.seeds <= r.graph.nodes.Keys
    requires Visitable(r, m, n)
    ensures n in r.graph.nodes
  {
    if n !in r.seeds {
      var p :| p in Incoming(r.graph.edges, n) && p in m && Enqueues(r, p, m[p]);
      ParentIsNode(r.graph, n, p);
    }
  }

  /* ----- Coverage ----- */

  // Every parent of n is restored.
  ghost predicate RootOfRest(r: Run, n: Id) {
    forall p :: p in Incoming(r.graph.edges, n) ==> p in r.base
  }

  // In a finished run a node is recorded as soon as each of its parents is, given a way to reach it.
  lemma {:induction false} Covered(r: Run, rank: map<Id, nat>, m: map<Id, NodeResult>, n: Id)
    requires ValidGraph(r.graph.nodes.Keys, r.graph.edges) && AllRegistered(r.graph) && Ranks(r.graph.edges, rank)
    requires Sound(r, m) && Complete(r, m) && NoStops(r, m)
    requires forall x :: x in r.graph.nodes && x !in r.base && RootOfRest(r, x) ==> x in r.seeds
    requires n in r.graph.nodes
    ensures n in m
    decreases RankOf(rank, n)
  {
    if n !in m {
      ParentsRankLower(r.graph.edges, rank, n);
      var ps := Incoming(r.graph.edges, n);
      forall p | p in ps
        ensures p in m
      {
        ParentIsNode(r.graph, n, p);
        Covered(r, rank, m, p);
      }
      if p :| p in ps && p !in r.base {
        ParentIsNode(r.graph, n, p);
        assert Enqueues(r, p, m[p]);
      }
      assert Ready(r, m, n) && Reached(r, m, n);
    }
  }

  lemma FinishedCoversAll(g: Graph, f: (Id, Input) -> NodeRun, m: map<Id, NodeResult>)
    requires Accepted(g) && AllRegistered(g)
    requires Sound(FreshRun(g, f), m) && Complete(FreshRun(g, f), m) && NoStops(FreshRun(g, f), m)
    ensures m.Keys == g.nodes.Keys
  {
    var r := FreshRun(g, f);
    AcceptedStarts(g, f);
    AcyclicIffRanked(g.edges);
    var rank :| Ranks(g.edges, rank);
    forall x | x in g.nodes && RootOfRest(r, x)
      ensures x in r.seeds
    {
      forall e | e in g.edges
        ensures e.source in Incoming(g.edges, e.target)
      {
        IncomingIffEdge(g.edges, e.source, e.target);
        assert HasEdge(g.edges, e.source, e.target);
      }
    }
    forall n | n in g.nodes
      ensures n in m
    {
      Covered(r, rank, m, n);
    }
    forall n | n in m
      ensures n in g.nodes
    {
      assert Justified(r, m, n);
    }
  }

  // When a round finds nothing to run, nothing unvisited is left on the queue: the loop never gives up on
  // unresolvable dependencies.
  lemma NothingUnresolved(g: Graph, f: (Id, Input) -> NodeRun, m: map<Id, NodeResult>, queue: seq<Id>)
    requires Accepted(g) && AllRegistered(g)
    requires Sound(FreshRun(g, f), m) && Complete(FreshRun(g, f), m) && NoStops(FreshRun(g, f), m)
    requires Frontier(FreshRun(g, f), m, queue)
    ensures forall n :: n in queue ==> n in m
  {
    var r := FreshRun(g, f);
    FinishedCoversAll(g, f, m);
    forall n | n in queue
      ensures n in g.nodes
    {
      assert Reached(r, m, n);
      if n !in r.seeds {
        var p :| p in Incoming(g.edges, n) && p in m && Enqueues(r, p, m[p]);
        ParentIsNode(g, n, p);
      }
    }
  }

  /* ----- When does a run finish? ----- */

  // The nodes whose body the recursive definition runs.
  ghost function RanByMeaning(r: Run, rank: map<Id, nat>): set<Id>
    requires Ranks(r.graph.edges, rank)
  {
    set n | n in r.graph.nodes && n !in r.base && Meaning(r, rank, n).Some? && Ran(r, n, Meaning(r, rank, n).value)
  }

  // By the recursive definition every node gets a result, and none of them ends the run early.
  ghost predicate RunsThrough(r: Run, rank: map<Id, nat>)
    requires Ranks(r.graph.edges, rank)
  {
    forall n {:trigger Meaning(r, rank, n)} :: n in r.graph.nodes ==> Meaning(r, rank, n).Some? && Passes(r, n, Meaning(r, rank, n).value)
  }

  lemma RanInIsRanByMeaning(r: Run, rank: map<Id, nat>, m: map<Id, NodeResult>)
    requires Ranks(r.graph.edges, rank) && Sound(r, m)
    ensures RanIn(r, m) <= RanByMeaning(r, rank)
    ensures |RanIn(r, m)| <= |RanByMeaning(r, rank)| <= |r.graph.nodes|
    ensures forall n :: WouldRun(r, m, n) ==> |RanIn(r, m)| < |RanByMeaning(r, rank)|
  {
    forall n | n in RanIn(r, m)
      ensures n in RanByMeaning(r, rank)
    {
      assert Justified(r, m, n);
      SoundIsMeaning(r, rank, m, n);
    }
    SubsetCard(RanIn(r, m), RanByMeaning(r, rank));
    SubsetCard(RanByMeaning(r, rank), r.graph.nodes.Keys);
    forall n | WouldRun(r, m, n)
      ensures |RanIn(r, m)| < |RanByMeaning(r, rank)|
    {
      var m' := m[n := Visit(r, m, n)];
      SoundStep(r, m, n);
      SoundIsMeaning(r, rank, m', n);
      SubsetCard(RanIn(r, m) + {n}, RanByMeaning(r, rank));
    }
  }

  lemma FinishedRun(g: Graph, f: (Id, Input) -> NodeRun, rank: map<Id, nat>, m: map<Id, NodeResult>, max: nat)
    requires Accepted(g) && AllRegistered(g) && Ranks(g.edges, rank)
    requires Ends(FreshRun(g, f), m, Finished, max, false)
    ensures var r := FreshRun(g, f);
            RunsThrough(r, rank) && |RanByMeaning(r, rank)| <= max &&
            m.Keys == g.nodes.Keys && forall n :: n in m ==> Meaning(r, rank, n) == Some(m[n])
  {
    var r := FreshRun(g, f);
    AcceptedStarts(g, f);
    FinishedCoversAll(g, f, m);
    forall n | n in m
      ensures Meaning(r, rank, n) == Some(m[n])
    {
      SoundIsMeaning(r, rank, m, n);
    }
    assert RanByMeaning(r, rank) <= RanIn(r, m);
    SubsetCard(RanByMeaning(r, rank), RanIn(r, m));
  }

  lemma UnfinishedRun(g: Graph, f: (Id, Input) -> NodeRun, rank: map<Id, nat>, m: map<Id, NodeResult>,
                      status: Status, max: nat)
    requires Accepted(g) && Ranks(g.edges, rank) && status != Finished
    requires Ends(FreshRun(g, f), m, status, max, false)
    ensures !(RunsThrough(FreshRun(g, f), rank) && |RanByMeaning(FreshRun(g, f), rank)| <= max)
  {
    var r := FreshRun(g, f);
    AcceptedStarts(g, f);
    if n :| n in m && Stops(r, n, m[n]) {
      StopIsNode(r, m, n);
      SoundIsMeaning(r, rank, m, n);
    } else if n :| Visitable(r, m, n) && n !in g.nodes {
      VisitableIsNode(r, m, n);
    } else {
      assert status == Failing(StepLimit);
      RanInIsRanByMeaning(r, rank, m);
    }
  }

  // The main theorem.  On an accepted graph a run that nobody cancels finishes exactly if the
  // recursive definition runs through and stays within the step limit; it then records for every
  // node exactly the result of the recursive definition.
  lemma FinishesIff(g: Graph, f: (Id, Input) -> NodeRun, rank: map<Id, nat>, m: map<Id, NodeResult>,
                    status: Status, max: nat)
    requires Accepted(g) && AllRegistered(g) && Ranks(g.edges, rank)
    requires Ends(FreshRun(g, f), m, status, max, false)
    ensures var r := FreshRun(g, f);
            (status == Finished <==> RunsThrough(r, rank) && |RanByMeaning(r, rank)| <= max) &&
            (status == Finished ==> m.Keys == g.nodes.Keys && forall n :: n in m ==> Meaning(r, rank, n) == Some(m[n]))
  {
    if status == Finished {
      FinishedRun(g, f, rank, m, max);
    } else {
      UnfinishedRun(g, f, rank, m, status, max);
    }
  }

  lemma StopIsNode(r: Run, m: map<Id, NodeResult>, n: Id)
    requires Sound(r, m) && n in m && Stops(r, n, m[n])
    ensures n in r.graph.nodes
  {
    assert n !in r.base;
    assert Justified(r, m, n);
  }

  /* ----- Crash resume ----- */

  // Nothing that is still to be redone failed softly, or was skipped only because its parents were.
  ghost predicate Replayable(r0: Run, m0: map<Id, NodeResult>, base: map<Id, NodeResult>) {
    forall n :: n in m0 && n !in base ==> !m0[n].Failed? && (m0[n].Skipped? ==> RoutedAway(r0, m0, n))
  }

  // The node gathers from a restored skipped parent, whose output is None and no longer the empty
  // dictionary; the output of a routing parent would hide it.
  predicate SeesRestoredSkip(edges: seq<Edge>, m0: map<Id, NodeResult>, base: map<Id, NodeResult>, n: Id) {
    (exists p :: p in Incoming(edges, n) && p in base && base[p].Skipped?) &&
    forall p :: p in Incoming(edges, n) && p in m0 && m0[p].Completed? ==> m0[p].output.meta.Plain?
  }

  predicate Redone(m0: map<Id, NodeResult>, base: map<Id, NodeResult>, n: Id) {
    n in m0 && n !in base && m0[n].Completed?
  }

  // No body still to be run again can tell the restored input from the original one.
  ghost predicate ReadsAlike(r0: Run, r1: Run, m0: map<Id, NodeResult>) {
    forall n :: Redone(m0, r1.base, n) && SeesRestoredSkip(r0.graph.edges, m0, r1.base, n) ==>
      r0.f(n, InputOf(r1, m0, n)) == r0.f(n, InputOf(r0, m0, n))
  }

  // A run from scratch and a resumed run of the same graph, whose restored part is in the table.
  ghost predicate SameWork(r0: Run, r1: Run, m: map<Id, NodeResult>) {
    r0.graph == r1.graph && !r0.resumed && r1.resumed && r0.base == map[] && Extends(r1.base, m)
  }

  lemma LooksAlike(r0: Run, r1: Run, m: map<Id, NodeResult>, p: Id)
    requires SameWork(r0, r1, m)
    ensures var (a, b) := (Look(OutputsOf(r0, m), p), Look(OutputsOf(r1, m), p));
            (if p in r1.base && r1.base[p].Skipped? then a == Nothing && b == Null else a == b) &&
            (Routes(a) <==> p in m && m[p].Completed? && !m[p].output.meta.Plain?)
  {
  }

  lemma {:induction false} RoutedOrGathered(ps: seq<Id>, a: map<Id, Seen>, b: map<Id, Seen>, ga: Input, gb: Input)
    requires forall p :: p in ps ==> Look(a, p) == Look(b, p) || (!Routes(Look(a, p)) && !Routes(Look(b, p)))
    ensures if exists p :: p in ps && Routes(Look(a, p)) then Routed(ps, a, ga) == Routed(ps, b, gb)
            else Routed(ps, a, ga) == ga && Routed(ps, b, gb) == gb
  {
    if ps != [] {
      assert ps[|ps| - 1] in ps;
      RoutedOrGathered(ps[..|ps| - 1], a, b, ga, gb);
      assert forall p :: p in ps <==> p in ps[..|ps| - 1] || p == ps[|ps| - 1];
    }
  }

  lemma GatheredAlikeIff(ps: seq<Id>, a: map<Id, Seen>, b: map<Id, Seen>)
    ensures Gathered(ps, a) == Gathered(ps, b) <==> forall p :: p in ps ==> Look(a, p) == Look(b, p)
  {
    if |ps| > 1 {
      var x, y := Gathered(ps, a).all, Gathered(ps, b).all;
      assert forall k :: 0 <= k < |ps| ==> x[k] == Look(a, ps[k]) && y[k] == Look(b, ps[k]);
      if x == y {
        forall p | p in ps
          ensures Look(a, p) == Look(b, p)
        {
          var k :| 0 <= k < |ps| && ps[k] == p;
          assert x[k] == y[k];
        }
      }
    } else if |ps| == 1 {
      assert ps[0] in ps;
    }
  }

  lemma InputAlikeIff(r0: Run, r1: Run, m: map<Id, NodeResult>, n: Id)
    requires SameWork(r0, r1, m)
    ensures InputOf(r0, m, n) != InputOf(r1, m, n) <==> SeesRestoredSkip(r0.graph.edges, m, r1.base, n)
  {
    var ps := Incoming(r0.graph.edges, n);
    var a, b := OutputsOf(r0, m), OutputsOf(r1, m);
    forall p | p in ps
      ensures if p in r1.base && r1.base[p].Skipped? then Look(a, p) == Nothing && Look(b, p) == Null else Look(a, p) == Look(b, p)
      ensures Routes(Look(a, p)) <==> p in m && m[p].Completed? && !m[p].output.meta.Plain?
    {
      LooksAlike(r0, r1, m, p);
    }
    RoutedOrGathered(ps, a, b, Gathered(ps, a), Gathered(ps, b));
    GatheredAlikeIff(ps, a, b);
  }

  lemma RoutedAwayAlike(r0: Run, r1: Run, m: map<Id, NodeResult>, n: Id)
    requires SameWork(r0, r1, m)
    ensures RoutedAway(r0, m, n) == RoutedAway(r1, m, n)
  {
    forall p
      ensures Gates(r0.graph.edges, p, n, Look(OutputsOf(r0, m), p)) == Gates(r0.graph.edges, p, n, Look(OutputsOf(r1, m), p))
    {
      LooksAlike(r0, r1, m, p);
    }
  }

  // One node: revisiting it in the resumed run gives what the uninterrupted run recorded.
  lemma RevisitAlike(r0: Run, r1: Run, m0: map<Id, NodeResult>, n: Id)
    requires SameWork(r0, r1, m0) && r0.f == r1.f
    requires AllRegistered(r0.graph) && n in r0.graph.nodes
    requires n in m0 && n !in r1.base && m0[n] == Visit(r0, m0, n)
    requires ReadsAlike(r0, r1, m0)
    requires !m0[n].Failed? && (m0[n].Skipped? ==> RoutedAway(r0, m0, n))
    ensures Visit(r1, m0, n) == m0[n]
  {
    InputAlikeIff(r0, r1, m0, n);
    RoutedAwayAlike(r0, r1, m0, n);
    assert Redone(m0, r1.base, n) <==> m0[n].Completed?;
  }

  ghost predicate Interrupted(g: Graph, f: (Id, Input) -> NodeRun, m0: map<Id, NodeResult>, cp: map<Id, NodeResult>) {
    Accepted(g) && AllRegistered(g) &&
    Sound(FreshRun(g, f), m0) && Complete(FreshRun(g, f), m0) && NoStops(FreshRun(g, f), m0) &&
    Sound(FreshRun(g, f), cp)
  }

  lemma CheckpointIsPart(g: Graph, f: (Id, Input) -> NodeRun, m0: map<Id, NodeResult>, cp: map<Id, NodeResult>)
    requires Interrupted(g, f, m0, cp)
    ensures Extends(cp, m0) && Extends(Restored(cp), m0) && m0.Keys == g.nodes.Keys
  {
    FinishedCoversAll(g, f, m0);
    forall n | n in cp
      ensures n in m0 && m0[n] == cp[n]
    {
      assert n in FreshRun(g, f).base || Justified(FreshRun(g, f), cp, n);
      AcceptedStarts(g, f);
      StoppedRunsAgree(FreshRun(g, f), m0, cp, n);
    }
  }

  lemma ResumeIsSameWork(g: Graph, f: (Id, Input) -> NodeRun, m0: map<Id, NodeResult>, cp: map<Id, NodeResult>)
    requires Interrupted(g, f, m0, cp)
    ensures SameWork(FreshRun(g, f), ResumedRun(g, f, cp, None), m0)
  {
    AcceptedStarts(g, f);
    CheckpointIsPart(g, f, m0, cp);
  }

  // If everything left is replayable and read alike, the uninterrupted table is also right for the resumed run.
  lemma ReplayableIsSound(g: Graph, f: (Id, Input) -> NodeRun, m0: map<Id, NodeResult>, cp: map<Id, NodeResult>)
    requires Interrupted(g, f, m0, cp)
    requires Replayable(FreshRun(g, f), m0, Restored(cp)) && ReadsAlike(FreshRun(g, f), ResumedRun(g, f, cp, None), m0)
    ensures var r1 := ResumedRun(g, f, cp, None);
            Sound(r1, m0) && Complete(r1, m0) && NoStops(r1, m0)
  {
    var r0, r1 := FreshRun(g, f), ResumedRun(g, f, cp, None);
    AcceptedStarts(g, f);
    CheckpointIsPart(g, f, m0, cp);
    ResumeIsSameWork(g, f, m0, cp);
    forall n | n in m0 && n !in r1.base
      ensures Passes(r1, n, m0[n])
    {
    }
    forall n | n in m0 && n !in r1.base
      ensures Justified(r1, m0, n)
    {
      assert Justified(r0, m0, n);
      RevisitAlike(r0, r1, m0, n);
    }
    forall n | n !in m0
      ensures !Visitable(r1, m0, n)
    {
      if Visitable(r1, m0, n) {
        VisitableIsNode(r1, m0, n);
      }
    }
  }

  // Conversely, a table that is right for both runs is replayable and read alike.
  lemma SoundIsReplayable(g: Graph, f: (Id, Input) -> NodeRun, m0: map<Id, NodeResult>, cp: map<Id, NodeResult>)
    requires Interrupted(g, f, m0, cp)
    requires Sound(ResumedRun(g, f, cp, None), m0) && NoStops(ResumedRun(g, f, cp, None), m0)
    ensures Replayable(FreshRun(g, f), m0, Restored(cp)) && ReadsAlike(FreshRun(g, f), ResumedRun(g, f, cp, None), m0)
  {
    var r0, r1 := FreshRun(g, f), ResumedRun(g, f, cp, None);
    ResumeIsSameWork(g, f, m0, cp);
    forall n | n in m0 && n !in r1.base
      ensures !m0[n].Failed? && (m0[n].Skipped? ==> RoutedAway(r0, m0, n))
      ensures m0[n].Completed? ==> f(n, InputOf(r1, m0, n)) == f(n, InputOf(r0, m0, n)) == Done(m0[n].output)
    {
      assert Justified(r0, m0, n) && Justified(r1, m0, n) && Passes(r1, n, m0[n]);
      RoutedAwayAlike(r0, r1, m0, n);
    }
  }

  // The resumed run cannot hit the step limit: it visits each node once, and restored nodes count.
  lemma ResumeWithinLimit(r: Run, m: map<Id, NodeResult>, n: Id)
    requires r.resumed && Sound(r, m) && r.base.Keys <= r.graph.nodes.Keys && WouldRun(r, m, n)
    ensures |RanIn(r, m)| + RestoredSteps(r) < |r.graph.nodes|
  {
    forall x | x in RanIn(r, m)
      ensures x in r.graph.nodes
    {
      assert Justified(r, m, x);
    }
    var all := RanIn(r, m) + r.base.Keys + {n};
    assert |all| == |RanIn(r, m)| + |r.base.Keys| + 1;
    SubsetCard(all, r.graph.nodes.Keys);
  }

  // Crash resume against the uninterrupted run, exactly.  A run that checkpointed cp would have ended
  // with the table m0.  The resumed run finishes with that same table if and only if nothing still to
  // be redone failed softly, was skipped only because its parents were, or takes the None of a restored
  // skipped parent for something else than the empty dictionary it was.
  lemma CrashResumeExact(g: Graph, f: (Id, Input) -> NodeRun, m0: map<Id, NodeResult>, cp: map<Id, NodeResult>,
                         m1: map<Id, NodeResult>, status: Status, max: nat)
    requires Interrupted(g, f, m0, cp) && |g.nodes| <= max
    requires Ends(ResumedRun(g, f, cp, None), m1, status, max, false)
    ensures status == Finished && m1 == m0 <==>
            Replayable(FreshRun(g, f), m0, Restored(cp)) && ReadsAlike(FreshRun(g, f), ResumedRun(g, f, cp, None), m0)
  {
    var r1 := ResumedRun(g, f, cp, None);
    if status == Finished && m1 == m0 {
      SoundIsReplayable(g, f, m0, cp);
    }
    if Replayable(FreshRun(g, f), m0, Restored(cp)) && ReadsAlike(FreshRun(g, f), r1, m0) {
      ReplayableIsSound(g, f, m0, cp);
      CheckpointIsPart(g, f, m0, cp);
      ResumedRunFinishes(r1, m0, m1, status, max);
    }
  }

  lemma ResumedRunFinishes(r: Run, m0: map<Id, NodeResult>, m1: map<Id, NodeResult>, status: Status, max: nat)
    requires ValidGraph(r.graph.nodes.Keys, r.graph.edges) && m0.Keys == r.graph.nodes.Keys
    requires r.resumed && r.base.Keys <= r.graph.nodes.Keys && r.seeds <= r.graph.nodes.Keys
    requires Sound(r, m0) && Complete(r, m0) && NoStops(r, m0) && |r.graph.nodes| <= max
    requires Ends(r, m1, status, max, false)
    ensures status == Finished && m1 == m0
  {
    if n :| n in m1 && Stops(r, n, m1[n]) {
      StopIsNode(r, m1, n);
      StoppedRunsAgree(r, m0, m1, n);
    } else if n :| Visitable(r, m1, n) && n !in r.graph.nodes {
      VisitableIsNode(r, m1, n);
    } else if n :| WouldRun(r, m1, n) {
      ResumeWithinLimit(r, m1, n);
      assert status == Finished;
      Confluence(r, m0, m1);
    } else {
      assert status == Finished;
      Confluence(r, m0, m1);
    }
  }

  // The part of the condition that does not depend on what the bodies do: no restored skip is in sight.
  ghost predicate NoneSeesRestoredSkip(g: Graph, m0: map<Id, NodeResult>, base: map<Id, NodeResult>) {
    forall n :: Redone(m0, base, n) ==> !SeesRestoredSkip(g.edges, m0, base, n)
  }

  // A body that fails on one input that the uninterrupted run never gives it.
  function FailingOn(f: (Id, Input) -> NodeRun, n: Id, i: Input): (Id, Input) -> NodeRun {
    (x: Id, j: Input) => if x == n && j == i then Error("restored input") else f(x, j)
  }

  lemma InputIgnoresBody(r: Run, r': Run, m: map<Id, NodeResult>, n: Id)
    requires r' == r.(f := r'.f)
    ensures InputOf(r', m, n) == InputOf(r, m, n) && RoutedAway(r', m, n) == RoutedAway(r, m, n)
  {
    assert OutputsOf(r', m) == OutputsOf(r, m);
  }

  lemma VisitForBoth(r: Run, r': Run, m: map<Id, NodeResult>, n: Id)
    requires r' == r.(f := r'.f) && r.f(n, InputOf(r, m, n)) == r'.f(n, InputOf(r, m, n))
    ensures Visit(r', m, n) == Visit(r, m, n)
  {
    InputIgnoresBody(r, r', m, n);
    assert SkippedByParents(r', m, n) == SkippedByParents(r, m, n);
  }

  lemma ReachIgnoresBody(r: Run, r': Run, m: map<Id, NodeResult>, n: Id)
    requires r' == r.(f := r'.f)
    ensures Ready(r', m, n) == Ready(r, m, n) && Reached(r', m, n) == Reached(r, m, n)
  {
  }

  lemma SoundForBoth(g: Graph, f: (Id, Input) -> NodeRun, f': (Id, Input) -> NodeRun, m: map<Id, NodeResult>)
    requires Sound(FreshRun(g, f), m)
    requires forall x :: x in m ==> f(x, InputOf(FreshRun(g, f), m, x)) == f'(x, InputOf(FreshRun(g, f), m, x))
    ensures Sound(FreshRun(g, f'), m)
  {
    var r, r' := FreshRun(g, f), FreshRun(g, f');
    forall x | x in m && x !in r'.base
      ensures Justified(r', m, x)
    {
      assert Justified(r, m, x);
      VisitForBoth(r, r', m, x);
      ReachIgnoresBody(r, r', m, x);
    }
  }

  lemma StillInterrupted(g: Graph, f: (Id, Input) -> NodeRun, m0: map<Id, NodeResult>, cp: map<Id, NodeResult>, n: Id, i: Input)
    requires Interrupted(g, f, m0, cp) && Redone(m0, Restored(cp), n) && i != InputOf(FreshRun(g, f), m0, n)
    ensures Interrupted(g, FailingOn(f, n, i), m0, cp)
  {
    var f' := FailingOn(f, n, i);
    SoundForBoth(g, f, f', m0);
    CheckpointIsPart(g, f, m0, cp);
    assert n !in cp;
    SoundForBoth(g, f, f', cp);
    SameTables(g, f, f', m0);
  }

  // Some bodies with the same uninterrupted results see the restored skip.
  lemma RestoredSkipMatters(g: Graph, f: (Id, Input) -> NodeRun, m0: map<Id, NodeResult>, cp: map<Id, NodeResult>, n: Id)
    returns (f': (Id, Input) -> NodeRun)
    requires Interrupted(g, f, m0, cp) && Redone(m0, Restored(cp), n) && SeesRestoredSkip(g.edges, m0, Restored(cp), n)
    ensures Interrupted(g, f', m0, cp) && !ReadsAlike(FreshRun(g, f'), ResumedRun(g, f', cp, None), m0)
  {
    var r0, r1 := FreshRun(g, f), ResumedRun(g, f, cp, None);
    ResumeIsSameWork(g, f, m0, cp);
    InputAlikeIff(r0, r1, m0, n);
    f' := FailingOn(f, n, InputOf(r1, m0, n));
    StillInterrupted(g, f, m0, cp, n, InputOf(r1, m0, n));
    RunAgain(g, f, m0, n);
    InputIgnoresBody(r0, FreshRun(g, f'), m0, n);
    InputIgnoresBody(r1, ResumedRun(g, f', cp, None), m0, n);
  }

  lemma RunAgain(g: Graph, f: (Id, Input) -> NodeRun, m: map<Id, NodeResult>, n: Id)
    requires Sound(FreshRun(g, f), m) && n in m && m[n].Completed?
    ensures f(n, InputOf(FreshRun(g, f), m, n)) == Done(m[n].output)
  {
    assert n in FreshRun(g, f).base || Justified(FreshRun(g, f), m, n);
  }

  // Which nodes are still to be visited, and how a run stops, does not depend on the bodies.
  lemma SameTables(g: Graph, f: (Id, Input) -> NodeRun, f': (Id, Input) -> NodeRun, m: map<Id, NodeResult>)
    ensures Complete(FreshRun(g, f), m) ==> Complete(FreshRun(g, f'), m)
    ensures NoStops(FreshRun(g, f), m) ==> NoStops(FreshRun(g, f'), m)
  {
    var r, r' := FreshRun(g, f), FreshRun(g, f');
    forall n
      ensures Ready(r, m, n) == Ready(r', m, n) && Reached(r, m, n) == Reached(r', m, n)
    {
      ReachIgnoresBody(r, r', m, n);
    }
  }

  lemma ResumeFinishesWith(g: Graph, f: (Id, Input) -> NodeRun, m0: map<Id, NodeResult>, cp: map<Id, NodeResult>, max: nat)
    requires Interrupted(g, f, m0, cp) && |g.nodes| <= max
    requires Sound(ResumedRun(g, f, cp, None), m0) && Complete(ResumedRun(g, f, cp, None), m0) && NoStops(ResumedRun(g, f, cp, None), m0)
    ensures Ends(ResumedRun(g, f, cp, None), m0, Finished, max, false)
  {
    var r1 := ResumedRun(g, f, cp, None);
    CheckpointIsPart(g, f, m0, cp);
    var all := RanIn(r1, m0) + r1.base.Keys;
    assert |all| == |RanIn(r1, m0)| + |r1.base.Keys|;
    SubsetCard(all, g.nodes.Keys);
  }

  // For all bodies at once: a crash at this checkpoint is harmless whatever the bodies with these
  // uninterrupted results are, if and only if the rest is replayable and nothing in it sees a restored skip.
  lemma CrashResumeForAllIff(g: Graph, f: (Id, Input) -> NodeRun, m0: map<Id, NodeResult>, cp: map<Id, NodeResult>, max: nat)
    requires Interrupted(g, f, m0, cp) && |g.nodes| <= max
    ensures (forall f' :: Interrupted(g, f', m0, cp) ==> Ends(ResumedRun(g, f', cp, None), m0, Finished, max, false)) <==>
            Replayable(FreshRun(g, f), m0, Restored(cp)) && NoneSeesRestoredSkip(g, m0, Restored(cp))
  {
    if forall f' :: Interrupted(g, f', m0, cp) ==> Ends(ResumedRun(g, f', cp, None), m0, Finished, max, false) {
      SoundIsReplayable(g, f, m0, cp);
      forall n | Redone(m0, Restored(cp), n)
        ensures !SeesRestoredSkip(g.edges, m0, Restored(cp), n)
      {
        if SeesRestoredSkip(g.edges, m0, Restored(cp), n) {
          var f' := RestoredSkipMatters(g, f, m0, cp, n);
          SoundIsReplayable(g, f', m0, cp);
        }
      }
    }
    if Replayable(FreshRun(g, f), m0, Restored(cp)) && NoneSeesRestoredSkip(g, m0, Restored(cp)) {
      forall f' | Interrupted(g, f', m0, cp)
        ensures Ends(ResumedRun(g, f', cp, None), m0, Finished, max, false)
      {
        assert OutputsOf(FreshRun(g, f'), m0) == OutputsOf(FreshRun(g, f), m0);
        assert Replayable(FreshRun(g, f'), m0, Restored(cp));
        ReplayableIsSound(g, f', m0, cp);
        ResumeFinishesWith(g, f', m0, cp, max);
      }
    }
  }

  // Graphs without branching, approvals or soft failures always meet the condition.
  ghost predicate PlainNodes(g: Graph, f: (Id, Input) -> NodeRun) {
    (forall n :: n in g.nodes ==> !g.nodes[n].continueOnError) &&
    (forall n, i :: f(n, i).Done? ==> f(n, i).output.meta.Plain? && !f(n, i).output.waiting)
  }

  lemma {:induction false} PlainNeverSkips(g: Graph, f: (Id, Input) -> NodeRun, rank: map<Id, nat>, m: map<Id, NodeResult>, n: Id)
    requires Accepted(g) && AllRegistered(g) && PlainNodes(g, f) && Ranks(g.edges, rank)
    requires Sound(FreshRun(g, f), m) && NoStops(FreshRun(g, f), m) && n in m
    ensures m[n].Completed? && m[n].output.meta.Plain?
    decreases RankOf(rank, n)
  {
    var r := FreshRun(g, f);
    AcceptedStarts(g, f);
    assert Justified(r, m, n) && Passes(r, n, m[n]);
    ParentsRankLower(g.edges, rank, n);
    forall p | p in Incoming(g.edges, n)
      ensures p in m && m[p].Completed? && m[p].output.meta.Plain?
    {
      PlainNeverSkips(g, f, rank, m, p);
    }
    var ps := Incoming(g.edges, n);
    if ps != [] {
      assert ps[0] in ps;
    }
    assert !RoutedAway(r, m, n) && !SkippedByParents(r, m, n);
    assert m[n] == match f(n, InputOf(r, m, n)) case Done(o) => NodeResult.Completed(o) case Error(e) => NodeResult.Failed(e);
  }

  lemma CrashResumePlain(g: Graph, f: (Id, Input) -> NodeRun, m0: map<Id, NodeResult>, cp: map<Id, NodeResult>,
                         m1: map<Id, NodeResult>, status: Status, max: nat)
    requires Interrupted(g, f, m0, cp) && PlainNodes(g, f) && |g.nodes| <= max
    requires Ends(ResumedRun(g, f, cp, None), m1, status, max, false)
    ensures status == Finished && m1 == m0
    ensures forall n :: n in cp ==> n in ResumedRun(g, f, cp, None).base
  {
    CheckpointIsPart(g, f, m0, cp);
    AcyclicIffRanked(g.edges);
    var rank :| Ranks(g.edges, rank);
    forall n | n in m0
      ensures m0[n].Completed?
    {
      PlainNeverSkips(g, f, rank, m0, n);
    }
    CrashResumeExact(g, f, m0, cp, m1, status, max);
  }

  // A plain table has no skips and no failures: revisiting a node gives the same from scratch and resumed.
  lemma PlainVisitAlike(r0: Run, r1: Run, m: map<Id, NodeResult>, n: Id)
    requires SameWork(r0, r1, m) && r0.f == r1.f && (forall x :: x in m ==> m[x].Completed?)
    requires Ready(r1, m, n)
    ensures Visit(r0, m, n) == Visit(r1, m, n)
  {
    InputAlikeIff(r0, r1, m, n);
    RoutedAwayAlike(r0, r1, m, n);
    var ps := Incoming(r0.graph.edges, n);
    if ps != [] {
      assert ps[0] in ps && !Dead(r0, m, ps[0]);
    }
  }

  // A finished resumed run of a plain graph has run every node, and skipped none.
  lemma {:induction false} PlainResumeNeverSkips(g: Graph, f: (Id, Input) -> NodeRun, cp: map<Id, NodeResult>, rank: map<Id, nat>,
                                                 m: map<Id, NodeResult>, n: Id)
    requires Accepted(g) && AllRegistered(g) && PlainNodes(g, f) && Ranks(g.edges, rank)
    requires forall x :: x in cp ==> cp[x].Completed? && cp[x].output.meta.Plain?
    requires Sound(ResumedRun(g, f, cp, None), m) && NoStops(ResumedRun(g, f, cp, None), m) && n in m
    ensures m[n].Completed? && m[n].output.meta.Plain?
    decreases RankOf(rank, n)
  {
    var r := ResumedRun(g, f, cp, None);
    if n !in r.base {
      assert Justified(r, m, n) && Passes(r, n, m[n]);
      ParentsRankLower(g.edges, rank, n);
      forall p | p in Incoming(g.edges, n)
        ensures p in m && m[p].Completed? && m[p].output.meta.Plain?
      {
        PlainResumeNeverSkips(g, f, cp, rank, m, p);
      }
      assert !RoutedAway(r, m, n);
    }
  }

  // What a plain resumed run ends with is what the uninterrupted run would record.
  lemma PlainResumeIsSound(g: Graph, f: (Id, Input) -> NodeRun, cp: map<Id, NodeResult>, m1: map<Id, NodeResult>)
    requires Accepted(g) && AllRegistered(g) && PlainNodes(g, f)
    requires Sound(FreshRun(g, f), cp) && NoStops(FreshRun(g, f), cp)
    requires Sound(ResumedRun(g, f, cp, None), m1) && NoStops(ResumedRun(g, f, cp, None), m1)
    ensures Sound(FreshRun(g, f), m1) && NoStops(FreshRun(g, f), m1)
  {
    var r0, r1 := FreshRun(g, f), ResumedRun(g, f, cp, None);
    AcceptedStarts(g, f);
    AcyclicIffRanked(g.edges);
    var rank :| Ranks(g.edges, rank);
    forall x | x in cp
      ensures cp[x].Completed? && cp[x].output.meta.Plain?
    {
      PlainNeverSkips(g, f, rank, cp, x);
    }
    forall x | x in m1
      ensures m1[x].Completed? && m1[x].output.meta.Plain?
    {
      PlainResumeNeverSkips(g, f, cp, rank, m1, x);
    }
    assert r1.base == cp;
    forall x | x in m1
      ensures Passes(r0, x, m1[x])
    {
      assert x in cp ==> Passes(r0, x, cp[x]);
    }
    forall x | x in m1
      ensures Justified(r0, m1, x)
    {
      PlainJustified(g, f, cp, m1, x);
    }
  }

  lemma PlainJustified(g: Graph, f: (Id, Input) -> NodeRun, cp: map<Id, NodeResult>, m1: map<Id, NodeResult>, n: Id)
    requires Accepted(g) && AllRegistered(g)
    requires Sound(FreshRun(g, f), cp) && Restored(cp) == cp && n in m1
    requires Sound(ResumedRun(g, f, cp, None), m1)
    requires forall x :: x in m1 ==> m1[x].Completed? && Passes(FreshRun(g, f), x, m1[x])
    ensures Justified(FreshRun(g, f), m1, n)
  {
    var r0, r1 := FreshRun(g, f), ResumedRun(g, f, cp, None);
    AcceptedStarts(g, f);
    if n in cp {
      assert Justified(r0, cp, n);
      VisitDependsOnParents(r0, cp, m1, n);
    } else {
      assert Justified(r1, m1, n);
      PlainVisitAlike(r0, r1, m1, n);
      ReachedByParent(g, f, m1, n);
    }
  }

  // A node whose parents have all completed is reached, if it has any; else it is a root.
  lemma ReachedByParent(g: Graph, f: (Id, Input) -> NodeRun, m: map<Id, NodeResult>, n: Id)
    requires Accepted(g) && n in g.nodes && Ready(FreshRun(g, f), m, n)
    requires forall x :: x in m ==> m[x].Completed? && Passes(FreshRun(g, f), x, m[x])
    ensures Reached(FreshRun(g, f), m, n)
  {
    var r0, ps := FreshRun(g, f), Incoming(g.edges, n);
    AcceptedStarts(g, f);
    if ps == [] {
      forall e | e in g.edges
        ensures e.target != n
      {
        assert HasEdge(g.edges, e.source, e.target);
        IncomingIffEdge(g.edges, e.source, e.target);
      }
    } else {
      assert ps[0] in ps && Enqueues(r0, ps[0], m[ps[0]]);
    }
  }

  // On a plain graph, from any checkpoint, the resumed run finishes if and only if the uninterrupted run does.
  lemma CrashResumePlainIff(g: Graph, f: (Id, Input) -> NodeRun, m0: map<Id, NodeResult>, status0: Status,
                            cp: map<Id, NodeResult>, m1: map<Id, NodeResult>, status1: Status, max: nat)
    requires Accepted(g) && AllRegistered(g) && PlainNodes(g, f) && |g.nodes| <= max
    requires Ends(FreshRun(g, f), m0, status0, max, false)
    requires Sound(FreshRun(g, f), cp) && NoStops(FreshRun(g, f), cp)
    requires Ends(ResumedRun(g, f, cp, None), m1, status1, max, false)
    ensures status1 == Finished <==> status0 == Finished
    ensures status0 == Finished ==> m1 == m0
  {
    if status0 == Finished {
      CrashResumePlain(g, f, m0, cp, m1, status1, max);
    } else if status1 == Finished {
      PlainResumeIsSound(g, f, cp, m1);
      AcyclicIffRanked(g.edges);
      var rank :| Ranks(g.edges, rank);
      ResumedCoversAll(g, f, cp, m1);
      FullRunsThrough(g, f, rank, m1);
      FinishesIff(g, f, rank, m0, status0, max);
    }
  }

  lemma ResumedCoversAll(g: Graph, f: (Id, Input) -> NodeRun, cp: map<Id, NodeResult>, m: map<Id, NodeResult>)
    requires Accepted(g) && AllRegistered(g)
    requires Sound(ResumedRun(g, f, cp, None), m) && Complete(ResumedRun(g, f, cp, None), m) && NoStops(ResumedRun(g, f, cp, None), m)
    ensures forall n :: n in g.nodes ==> n in m
  {
    AcyclicIffRanked(g.edges);
    var rank :| Ranks(g.edges, rank);
    forall n | n in g.nodes
      ensures n in m
    {
      Covered(ResumedRun(g, f, cp, None), rank, m, n);
    }
  }

  // A sound table of all nodes without a stop shows that the recursive definition runs through.
  lemma FullRunsThrough(g: Graph, f: (Id, Input) -> NodeRun, rank: map<Id, nat>, m: map<Id, NodeResult>)
    requires Ranks(g.edges, rank) && Sound(FreshRun(g, f), m) && NoStops(FreshRun(g, f), m)
    requires forall n :: n in g.nodes ==> n in m
    ensures RunsThrough(FreshRun(g, f), rank) && |RanByMeaning(FreshRun(g, f), rank)| <= |g.nodes|
  {
    var r := FreshRun(g, f);
    forall n | n in g.nodes
      ensures Meaning(r, rank, n) == Some(m[n]) && Passes(r, n, m[n])
    {
      SoundIsMeaning(r, rank, m, n);
    }
    SubsetCard(RanByMeaning(r, rank), g.nodes.Keys);
  }

  /* ----- Resume after an approval ----- */

  // A resume after the approval at p records every node if and only if each node that was ready when
  // the run paused, p's own children apart, had already been visited.
  lemma ApprovalResumeCoversIff(g: Graph, f: (Id, Input) -> NodeRun, results: map<Id, NodeResult>, p: Id,
                                m: map<Id, NodeResult>, max: nat)
    requires Accepted(g) && AllRegistered(g)
    requires Ends(ResumedRun(g, f, results, Some(p)), m, Finished, max, false)
    ensures (forall n :: n in g.nodes ==> n in m) <==>
            (forall n :: n in g.nodes && n !in Restored(results) && RootOfRest(ResumedRun(g, f, results, Some(p)), n) ==>
               n in Children(g.edges, p))
  {
    var r := ResumedRun(g, f, results, Some(p));
    if forall n :: n in g.nodes && n !in r.base && RootOfRest(r, n) ==> n in Children(g.edges, p) {
      AcyclicIffRanked(g.edges);
      var rank :| Ranks(g.edges, rank);
      forall n | n in g.nodes
        ensures n in m
      {
        Covered(r, rank, m, n);
      }
    }
    if forall n :: n in g.nodes ==> n in m {
      forall n | n in g.nodes && n !in r.base && RootOfRest(r, n)
        ensures n in Children(g.edges, p)
      {
        assert Justified(r, m, n);
      }
    }
  }
}
