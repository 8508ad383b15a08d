/** Concrete runs in which resuming does not give what an uninterrupted run gives. */
module Counterexamples {
  import opened Helpers
  import opened Graphs
  import opened Engine
  import opened Executor
  import opened ValidateDag
  import opened RunTheorems

  const PLAIN := Node(true, false, false)

  function Link(a: Id, b: Id, handle: Option<string>): Edge {
    Edge(a, b, handle, None, None)
  }

  function Text(waiting: bool): Output {
    Output(Plain, waiting, "text")
  }

  function ResultOf(run: NodeRun): NodeResult {
    match run
    case Done(o) => NodeResult.Completed(o)
    case Error(e) => NodeResult.Failed(e)
  }

  // One more visit of a sound table: n is visitable and its visit gives res.
  ghost predicate Adds(r: Run, m: map<Id, NodeResult>, n: Id, res: NodeResult) {
    Visitable(r, m, n) && n in r.graph.nodes && Visit(r, m, n) == res
  }

  lemma AddsSound(r: Run, m: map<Id, NodeResult>, n: Id, res: NodeResult)
    requires Sound(r, m) && Adds(r, m, n, res)
    ensures Sound(r, m[n := res])
  {
    SoundStep(r, m, n);
  }

  lemma AddsRoot(r: Run, m: map<Id, NodeResult>, n: Id)
    requires n !in m && n in r.graph.nodes && n in r.seeds && r.graph.nodes[n].registered
    requires Incoming(r.graph.edges, n) == []
    ensures Adds(r, m, n, ResultOf(r.f(n, Trigger)))
  {
  }

  lemma OnlyChild(r: Run, m: map<Id, NodeResult>, p: Id, n: Id)
    requires Incoming(r.graph.edges, n) == [p] && p in m
    ensures RoutedAway(r, m, n) == Gates(r.graph.edges, p, n, SeenOf(r, m, p))
    ensures InputOf(r, m, n) == One(SeenOf(r, m, p))
    ensures SkippedByParents(r, m, n) == (!r.resumed && Dead(r, m, p))
  {
    var ps := Incoming(r.graph.edges, n);
    var outs := OutputsOf(r, m);
    assert ps[0] == p && p in ps && ps[..|ps| - 1] == [];
    assert Look(outs, p) == SeenOf(r, m, p);
    assert Routed([], outs, Gathered(ps, outs)) == Gathered(ps, outs) == One(SeenOf(r, m, p));
  }

  lemma AddsOnlyChild(r: Run, m: map<Id, NodeResult>, p: Id, n: Id)
    requires n !in m && n in r.graph.nodes && r.graph.nodes[n].registered
    requires Incoming(r.graph.edges, n) == [p] && p in m && Passes(r, p, m[p]) && (Enqueues(r, p, m[p]) || n in r.seeds)
    ensures Adds(r, m, n, if Gates(r.graph.edges, p, n, SeenOf(r, m, p)) || (!r.resumed && Dead(r, m, p)) then NodeResult.Skipped
                          else ResultOf(r.f(n, One(SeenOf(r, m, p)))))
  {
    OnlyChild(r, m, p, n);
    assert p in Incoming(r.graph.edges, n);
  }

  // Visiting n, whose only parent p let the run go on, keeps the table sound.
  lemma ChildSound(r: Run, m: map<Id, NodeResult>, p: Id, n: Id)
    requires Sound(r, m) && n !in m && n in r.graph.nodes && r.graph.nodes[n].registered
    requires Incoming(r.graph.edges, n) == [p] && p in m && Passes(r, p, m[p]) && (Enqueues(r, p, m[p]) || n in r.seeds)
    ensures Sound(r, m[n := if Gates(r.graph.edges, p, n, SeenOf(r, m, p)) || (!r.resumed && Dead(r, m, p)) then NodeResult.Skipped
                            else ResultOf(r.f(n, One(SeenOf(r, m, p))))])
  {
    AddsOnlyChild(r, m, p, n);
    SoundStep(r, m, n);
  }

  lemma TwoEdges(e1: Edge, e2: Edge, a: Id, n: Id)
    ensures Incoming([e1, e2], n) == (if e1.target == n then [e1.source] else []) + (if e2.target == n then [e2.source] else [])
    ensures Children([e1, e2], n) == (if e1.source == n then [e1.target] else []) + (if e2.source == n then [e2.target] else [])
    ensures EdgesBetween([e1, e2], a, n) == (if e1.source == a && e1.target == n then [e1] else []) +
                                            (if e2.source == a && e2.target == n then [e2] else [])
  {
    assert [e1, e2][1..] == [e2] && [e2][1..] == [];
    assert Incoming([e2], n) == if e2.target == n then [e2.source] else [];
    assert Children([e2], n) == if e2.source == n then [e2.target] else [];
    assert EdgesBetween([e2], a, n) == if e2.source == a && e2.target == n then [e2] else [];
  }

  // A table with every node in it is complete.
  lemma FullIsComplete(r: Run, m: map<Id, NodeResult>)
    requires EndpointsExist(r.graph.nodes.Keys, r.graph.edges) && r.seeds <= r.graph.nodes.Keys
    requires r.graph.nodes.Keys <= m.Keys
    ensures Complete(r, m)
  {
    forall n | n !in m
      ensures !(Ready(r, m, n) && Reached(r, m, n))
    {
      if Visitable(r, m, n) {
        VisitableIsNode(r, m, n);
      }
    }
  }

  /* ----- An approval beside another branch ----- */

  // Any three nodes: t feeds the approval p and the independent branch b.
  function ForkGraph(t: Id, p: Id, b: Id): Graph {
    Graph(map[t := PLAIN, p := PLAIN, b := PLAIN], [Link(t, p, None), Link(t, b, None)])
  }

  function ForkBody(p: Id): (Id, Input) -> NodeRun {
    (n: Id, i: Input) => Done(Text(n == p))
  }

  lemma ForkIsAccepted(t: Id, p: Id, b: Id)
    requires t != p && t != b && p != b
    ensures Accepted(ForkGraph(t, p, b)) && AllRegistered(ForkGraph(t, p, b))
    ensures Incoming(ForkGraph(t, p, b).edges, t) == [] && Incoming(ForkGraph(t, p, b).edges, p) == [t]
    ensures Children(ForkGraph(t, p, b).edges, p) == []
  {
    var g := ForkGraph(t, p, b);
    var rank: map<Id, nat> := map[t := 0, p := 1, b := 1];
    assert Ranks(g.edges, rank);
    RankedIsAcyclic(g.edges, rank);
    assert g.nodes.Keys == {t, p, b};
    assert Link(t, p, None) in g.edges && Link(t, b, None) in g.edges;
    TwoEdges(Link(t, p, None), Link(t, b, None), t, t);
    TwoEdges(Link(t, p, None), Link(t, b, None), t, p);
  }

  function ForkPaused(t: Id, p: Id): map<Id, NodeResult> {
    map[t := NodeResult.Completed(Text(false)), p := NodeResult.Completed(Text(true))]
  }

  lemma ForkPauses(t: Id, p: Id, b: Id)
    requires t != p && t != b && p != b
    ensures Ends(FreshRun(ForkGraph(t, p, b), ForkBody(p)), ForkPaused(t, p), Paused(p), 500, false)
  {
    var r, m := FreshRun(ForkGraph(t, p, b), ForkBody(p)), ForkPaused(t, p);
    ForkPausesSound(t, p, b);
    assert RanIn(r, m) == {t, p};
  }

  lemma ForkPausesSound(t: Id, p: Id, b: Id)
    requires t != p && t != b && p != b
    ensures Sound(FreshRun(ForkGraph(t, p, b), ForkBody(p)), ForkPaused(t, p))
  {
    ForkIsAccepted(t, p, b);
    AcceptedStarts(ForkGraph(t, p, b), ForkBody(p));
    var r, m := FreshRun(ForkGraph(t, p, b), ForkBody(p)), ForkPaused(t, p);
    var m1: map<Id, NodeResult> := map[t := NodeResult.Completed(Text(false))];
    assert t in r.seeds;
    AddsRoot(r, map[], t);
    AddsSound(r, map[], t, NodeResult.Completed(Text(false)));
    ChildSound(r, m1, t, p);
    assert m1[p := NodeResult.Completed(Text(true))] == m;
  }

  // A run with nothing to start from is finished at once.
  lemma EmptyResumeFinishes(r: Run, max: nat)
    requires r.seeds == {}
    ensures Ends(r, r.base, Finished, max, false)
  {
    assert RanIn(r, r.base) == {};
  }

  // The run pauses at p before b was visited; the resumed run finishes, and b never runs.
  lemma ApprovalResumeCanLoseABranch(t: Id, p: Id, b: Id) returns (paused: map<Id, NodeResult>)
    requires t != p && t != b && p != b
    ensures Ends(FreshRun(ForkGraph(t, p, b), ForkBody(p)), paused, Paused(p), 500, false)
    ensures Ends(ResumedRun(ForkGraph(t, p, b), ForkBody(p), paused, Some(p)), paused, Finished, 500, false)
    ensures b in ForkGraph(t, p, b).nodes && b !in paused
  {
    paused := ForkPaused(t, p);
    ForkIsAccepted(t, p, b);
    ForkPauses(t, p, b);
    var r := ResumedRun(ForkGraph(t, p, b), ForkBody(p), paused, Some(p));
    assert r.base == paused && r.seeds == {};
    EmptyResumeFinishes(r, 500);
  }

  /* ----- A skip that was still to be propagated ----- */

  // Any three nodes: the condition c is true; b is on its false branch, and d hangs below b.
  function SkipGraph(c: Id, b: Id, d: Id): Graph {
    Graph(map[c := PLAIN, b := PLAIN, d := PLAIN], [Link(c, b, Some("0")), Link(b, d, None)])
  }

  const TAKEN := Output(Condition("true"), false, "text")
  const COND := NodeResult.Completed(TAKEN)

  function SkipBody(c: Id): (Id, Input) -> NodeRun {
    (n: Id, i: Input) => if n == c then Done(TAKEN) else Done(Text(false))
  }

  lemma ZeroIsFalse()
    ensures NormalizeBranchToken(Some("0")) == Some("false")
  {
    assert Lower("0") == "0" && StripLeft("0") == "0" && StripRight("0") == "0";
    assert FALSE_TOKENS[10] == "0" && "0" !in TRUE_TOKENS;
  }

  lemma SkipIsAccepted(c: Id, b: Id, d: Id)
    requires c != b && c != d && b != d
    ensures Accepted(SkipGraph(c, b, d)) && AllRegistered(SkipGraph(c, b, d))
    ensures var es := SkipGraph(c, b, d).edges;
            Incoming(es, c) == [] && Incoming(es, b) == [c] && Incoming(es, d) == [b] && Gates(es, c, b, Value(TAKEN))
  {
    var g := SkipGraph(c, b, d);
    var rank: map<Id, nat> := map[c := 0, b := 1, d := 2];
    assert Ranks(g.edges, rank);
    RankedIsAcyclic(g.edges, rank);
    assert g.nodes.Keys == {c, b, d};
    assert Link(c, b, Some("0")) in g.edges && Link(b, d, None) in g.edges;
    SkipEdges(c, b, d);
  }

  lemma SkipEdges(c: Id, b: Id, d: Id)
    requires c != b && c != d && b != d
    ensures var es := SkipGraph(c, b, d).edges;
            Incoming(es, c) == [] && Incoming(es, b) == [c] && Incoming(es, d) == [b] && Gates(es, c, b, Value(TAKEN))
  {
    var e1, e2 := Link(c, b, Some("0")), Link(b, d, None);
    TwoEdges(e1, e2, c, c);
    TwoEdges(e1, e2, c, b);
    TwoEdges(e1, e2, b, d);
    ZeroIsFalse();
    assert e1 in EdgesBetween([e1, e2], c, b);
  }

  function SkipTable(c: Id, b: Id, d: Id, res: NodeResult): map<Id, NodeResult> {
    map[c := COND, b := NodeResult.Skipped, d := res]
  }

  lemma SkipUninterrupted(c: Id, b: Id, d: Id)
    requires c != b && c != d && b != d
    ensures var r, m0 := FreshRun(SkipGraph(c, b, d), SkipBody(c)), SkipTable(c, b, d, NodeResult.Skipped);
            Sound(r, m0) && Complete(r, m0) && NoStops(r, m0) && Sound(r, map[c := COND])
  {
    SkipIsAccepted(c, b, d);
    AcceptedStarts(SkipGraph(c, b, d), SkipBody(c));
    var r, m0 := FreshRun(SkipGraph(c, b, d), SkipBody(c)), SkipTable(c, b, d, NodeResult.Skipped);
    var cp: map<Id, NodeResult> := map[c := COND];
    var m1 := cp[b := NodeResult.Skipped];
    assert c in r.seeds;
    AddsRoot(r, map[], c);
    AddsSound(r, map[], c, COND);
    ChildSound(r, cp, c, b);
    ChildSound(r, m1, b, d);
    assert m1[d := NodeResult.Skipped] == m0;
    FullIsComplete(r, m0);
  }

  lemma SkipResumed(c: Id, b: Id, d: Id)
    requires c != b && c != d && b != d
    ensures Ends(ResumedRun(SkipGraph(c, b, d), SkipBody(c), map[c := COND], None),
                 SkipTable(c, b, d, NodeResult.Completed(Text(false))), Finished, 500, false)
  {
    var r := ResumedRun(SkipGraph(c, b, d), SkipBody(c), map[c := COND], None);
    var m1 := SkipTable(c, b, d, NodeResult.Completed(Text(false)));
    SkipResumedSound(c, b, d);
    SkipIsAccepted(c, b, d);
    assert r.base.Keys == {c} && m1.Keys == {c, b, d};
    FullFinishes(r, m1, 500);
  }

  // Every node passed, so the run is finished; the steps are at most the nodes.
  lemma FullFinishes(r: Run, m: map<Id, NodeResult>, max: nat)
    requires EndpointsExist(r.graph.nodes.Keys, r.graph.edges) && r.seeds <= r.graph.nodes.Keys
    requires Sound(r, m) && r.graph.nodes.Keys == m.Keys && |m.Keys| + |r.base.Keys| <= max
    requires forall n :: n in m ==> Passes(r, n, m[n])
    ensures Ends(r, m, Finished, max, false)
  {
    FullIsComplete(r, m);
    SubsetCard(RanIn(r, m), m.Keys);
  }

  lemma SkipResumedSound(c: Id, b: Id, d: Id)
    requires c != b && c != d && b != d
    ensures Sound(ResumedRun(SkipGraph(c, b, d), SkipBody(c), map[c := COND], None),
                  SkipTable(c, b, d, NodeResult.Completed(Text(false))))
  {
    SkipIsAccepted(c, b, d);
    var r := ResumedRun(SkipGraph(c, b, d), SkipBody(c), map[c := COND], None);
    var cp: map<Id, NodeResult> := map[c := COND];
    var m := cp[b := NodeResult.Skipped];
    assert r.base == cp && r.seeds == {b, d};
    ChildSound(r, cp, c, b);
    ChildSound(r, m, b, d);
    assert m[d := NodeResult.Completed(Text(false))] == SkipTable(c, b, d, NodeResult.Completed(Text(false)));
  }

  // Interrupted after c, the uninterrupted run would skip d, and the resumed run runs it.
  lemma CrashResumeCanDiffer(c: Id, b: Id, d: Id)
    returns (m0: map<Id, NodeResult>, cp: map<Id, NodeResult>, m1: map<Id, NodeResult>)
    requires c != b && c != d && b != d
    ensures Interrupted(SkipGraph(c, b, d), SkipBody(c), m0, cp)
    ensures Ends(ResumedRun(SkipGraph(c, b, d), SkipBody(c), cp, None), m1, Finished, 500, false)
    ensures d in m0 && d in m1 && m0[d].Skipped? && m1[d].Completed?
  {
    m0, m1 := SkipTable(c, b, d, NodeResult.Skipped), SkipTable(c, b, d, NodeResult.Completed(Text(false)));
    cp := map[c := COND];
    SkipIsAccepted(c, b, d);
    SkipUninterrupted(c, b, d);
    SkipResumed(c, b, d);
  }

  /* ----- A restored skip that a join can tell ----- */

  // Any four nodes: b is on the false branch of c, and d joins b with the independent t.
  function JoinGraph(c: Id, b: Id, t: Id, d: Id): Graph {
    Graph(map[c := PLAIN, b := PLAIN, t := PLAIN, d := PLAIN], [Link(c, b, Some("0")), Link(b, d, None), Link(t, d, None)])
  }

  // The join fails if its first parent gives None.
  function JoinBody(c: Id, d: Id): (Id, Input) -> NodeRun {
    (n: Id, i: Input) =>
      if n == c then Done(TAKEN)
      else if n == d && i.Many? && |i.all| == 2 && i.all[0].Null? then Error("None")
      else Done(Text(false))
  }

  function JoinedBefore(c: Id, b: Id, t: Id): map<Id, NodeResult> {
    map[c := COND, b := NodeResult.Skipped, t := NodeResult.Completed(Text(false))]
  }

  lemma ThreeEdges(e1: Edge, e2: Edge, e3: Edge, a: Id, n: Id)
    ensures Incoming([e1, e2, e3], n) == (if e1.target == n then [e1.source] else []) + (if e2.target == n then [e2.source] else [])
                                         + (if e3.target == n then [e3.source] else [])
    ensures EdgesBetween([e1, e2, e3], a, n) == (if e1.source == a && e1.target == n then [e1] else []) +
                                                (if e2.source == a && e2.target == n then [e2] else []) +
                                                (if e3.source == a && e3.target == n then [e3] else [])
  {
    assert [e1, e2, e3][1..] == [e2, e3];
    TwoEdges(e2, e3, a, n);
  }

  lemma JoinIsAccepted(c: Id, b: Id, t: Id, d: Id)
    requires c != b && c != t && c != d && b != t && b != d && t != d
    ensures Accepted(JoinGraph(c, b, t, d)) && AllRegistered(JoinGraph(c, b, t, d))
  {
    var g := JoinGraph(c, b, t, d);
    var rank: map<Id, nat> := map[c := 0, b := 1, t := 0, d := 2];
    assert Ranks(g.edges, rank);
    RankedIsAcyclic(g.edges, rank);
    assert g.nodes.Keys == {c, b, t, d};
    assert Link(c, b, Some("0")) in g.edges && Link(b, d, None) in g.edges && Link(t, d, None) in g.edges;
  }

  lemma JoinEdges(c: Id, b: Id, t: Id, d: Id)
    requires c != b && c != t && c != d && b != t && b != d && t != d
    ensures var es := JoinGraph(c, b, t, d).edges;
            Incoming(es, c) == [] && Incoming(es, t) == [] && Incoming(es, b) == [c] && Incoming(es, d) == [b, t] &&
            Gates(es, c, b, Value(TAKEN))
  {
    var e1, e2, e3 := Link(c, b, Some("0")), Link(b, d, None), Link(t, d, None);
    ThreeEdges(e1, e2, e3, c, c);
    ThreeEdges(e1, e2, e3, c, t);
    ThreeEdges(e1, e2, e3, c, b);
    ThreeEdges(e1, e2, e3, b, d);
    ZeroIsFalse();
    assert e1 in EdgesBetween([e1, e2, e3], c, b);
  }

  // The join of a skipped parent and one with an output.
  lemma JoinVisit(r: Run, m: map<Id, NodeResult>, p: Id, q: Id, n: Id)
    requires Incoming(r.graph.edges, n) == [p, q] && p in m && q in m && n in r.graph.nodes && r.graph.nodes[n].registered
    requires m[p].Skipped? && m[q] == NodeResult.Completed(Text(false))
    ensures Visit(r, m, n) == ResultOf(r.f(n, Many([SeenOf(r, m, p), SeenOf(r, m, q)])))
    ensures Ready(r, m, n) && (q !in r.base ==> Reached(r, m, n))
  {
    var ps, outs := Incoming(r.graph.edges, n), OutputsOf(r, m);
    assert ps[0] == p && ps[1] == q && ps[..1] == [p] && ps[..1][..0] == [];
    assert Gathered(ps, outs) == Many([SeenOf(r, m, p), SeenOf(r, m, q)]);
    RoutedOrGathered(ps, outs, outs, Gathered(ps, outs), Gathered(ps, outs));
    assert q in ps && !Dead(r, m, q);
  }

  lemma JoinStep(r: Run, m: map<Id, NodeResult>, p: Id, q: Id, n: Id)
    requires Incoming(r.graph.edges, n) == [p, q] && p in m && q in m && n in r.graph.nodes && r.graph.nodes[n].registered
    requires m[p].Skipped? && m[q] == NodeResult.Completed(Text(false))
    requires Sound(r, m) && n !in m && (q !in r.base || n in r.seeds)
    ensures Sound(r, m[n := ResultOf(r.f(n, Many([SeenOf(r, m, p), SeenOf(r, m, q)])))])
  {
    JoinVisit(r, m, p, q, n);
    SoundStep(r, m, n);
  }

  lemma JoinUninterrupted(c: Id, b: Id, t: Id, d: Id)
    requires c != b && c != t && c != d && b != t && b != d && t != d
    ensures Interrupted(JoinGraph(c, b, t, d), JoinBody(c, d), JoinedBefore(c, b, t)[d := NodeResult.Completed(Text(false))],
                        JoinedBefore(c, b, t))
  {
    var g := JoinGraph(c, b, t, d);
    var r, cp := FreshRun(g, JoinBody(c, d)), JoinedBefore(c, b, t);
    JoinIsAccepted(c, b, t, d);
    JoinCheckpoint(c, b, t, d);
    JoinSound(c, b, t, d);
    AcceptedStarts(g, JoinBody(c, d));
    assert g.nodes.Keys == {c, b, t, d};
    FullIsComplete(r, cp[d := NodeResult.Completed(Text(false))]);
  }

  lemma JoinSound(c: Id, b: Id, t: Id, d: Id)
    requires c != b && c != t && c != d && b != t && b != d && t != d
    ensures Sound(FreshRun(JoinGraph(c, b, t, d), JoinBody(c, d)), JoinedBefore(c, b, t)[d := NodeResult.Completed(Text(false))])
  {
    var r, cp := FreshRun(JoinGraph(c, b, t, d), JoinBody(c, d)), JoinedBefore(c, b, t);
    JoinIsAccepted(c, b, t, d);
    AcceptedStarts(r.graph, r.f);
    JoinEdges(c, b, t, d);
    JoinCheckpoint(c, b, t, d);
    JoinStep(r, cp, b, t, d);
  }

  lemma ResumedJoin(c: Id, b: Id, t: Id, d: Id)
    requires c != b && c != t && c != d && b != t && b != d && t != d
    ensures var r := ResumedRun(JoinGraph(c, b, t, d), JoinBody(c, d), JoinedBefore(c, b, t), None);
            r.base == JoinedBefore(c, b, t) && r.seeds == {d} && Sound(r, r.base)
  {
  }

  lemma ResumedJoinSound(c: Id, b: Id, t: Id, d: Id)
    requires c != b && c != t && c != d && b != t && b != d && t != d
    ensures var r := ResumedRun(JoinGraph(c, b, t, d), JoinBody(c, d), JoinedBefore(c, b, t), None);
            r.base == JoinedBefore(c, b, t) && Sound(r, r.base[d := NodeResult.Failed("None")])
  {
    var r, cp := ResumedRun(JoinGraph(c, b, t, d), JoinBody(c, d), JoinedBefore(c, b, t), None), JoinedBefore(c, b, t);
    ResumedJoin(c, b, t, d);
    JoinEdges(c, b, t, d);
    JoinStep(r, cp, b, t, d);
  }

  lemma JoinCheckpoint(c: Id, b: Id, t: Id, d: Id)
    requires c != b && c != t && c != d && b != t && b != d && t != d
    ensures Sound(FreshRun(JoinGraph(c, b, t, d), JoinBody(c, d)), JoinedBefore(c, b, t))
  {
    var r := FreshRun(JoinGraph(c, b, t, d), JoinBody(c, d));
    JoinEdges(c, b, t, d);
    JoinSeeds(c, b, t, d);
    JoinBranch(c, b, t, d);
    var m2: map<Id, NodeResult> := map[c := COND, b := NodeResult.Skipped];
    RootSound(r, m2, t);
    assert m2[t := NodeResult.Completed(Text(false))] == JoinedBefore(c, b, t);
  }

  lemma JoinSeeds(c: Id, b: Id, t: Id, d: Id)
    requires c != b && c != t && c != d && b != t && b != d && t != d
    ensures var r := FreshRun(JoinGraph(c, b, t, d), JoinBody(c, d)); r.base == map[] && c in r.seeds && t in r.seeds
  {
    JoinIsAccepted(c, b, t, d);
    AcceptedStarts(JoinGraph(c, b, t, d), JoinBody(c, d));
  }

  lemma RootSound(r: Run, m: map<Id, NodeResult>, n: Id)
    requires Sound(r, m) && n !in m && n in r.graph.nodes && n in r.seeds && r.graph.nodes[n].registered
    requires Incoming(r.graph.edges, n) == []
    ensures Sound(r, m[n := ResultOf(r.f(n, Trigger))])
  {
    AddsRoot(r, m, n);
    SoundStep(r, m, n);
  }

  lemma JoinBranch(c: Id, b: Id, t: Id, d: Id)
    requires c != b && c != t && c != d && b != t && b != d && t != d
    ensures Sound(FreshRun(JoinGraph(c, b, t, d), JoinBody(c, d)), map[c := COND, b := NodeResult.Skipped])
  {
    var r := FreshRun(JoinGraph(c, b, t, d), JoinBody(c, d));
    JoinEdges(c, b, t, d);
    JoinSeeds(c, b, t, d);
    var m1: map<Id, NodeResult> := map[c := COND];
    RootSound(r, map[], c);
    assert (map[])[c := COND] == m1;
    ChildSound(r, m1, c, b);
    assert m1[b := NodeResult.Skipped] == map[c := COND, b := NodeResult.Skipped];
  }

  // Everything left is replayable, and yet the resumed run fails where the uninterrupted one finishes.
  lemma RestoredSkipCanFail(c: Id, b: Id, t: Id, d: Id)
    returns (m0: map<Id, NodeResult>, cp: map<Id, NodeResult>, m1: map<Id, NodeResult>)
    requires c != b && c != t && c != d && b != t && b != d && t != d
    ensures Interrupted(JoinGraph(c, b, t, d), JoinBody(c, d), m0, cp)
    ensures Replayable(FreshRun(JoinGraph(c, b, t, d), JoinBody(c, d)), m0, Restored(cp))
    ensures Ends(ResumedRun(JoinGraph(c, b, t, d), JoinBody(c, d), cp, None), m1, Failing(NodeError(d, "None")), 500, false)
  {
    cp := JoinedBefore(c, b, t);
    m0, m1 := cp[d := NodeResult.Completed(Text(false))], cp[d := NodeResult.Failed("None")];
    JoinUninterrupted(c, b, t, d);
    JoinReplayable(c, b, t, d);
    ResumedJoinSound(c, b, t, d);
    OneFailureEnds(ResumedRun(JoinGraph(c, b, t, d), JoinBody(c, d), cp, None), d, "None", 500);
  }

  lemma JoinReplayable(c: Id, b: Id, t: Id, d: Id)
    requires c != b && c != t && c != d && b != t && b != d && t != d
    ensures var cp := JoinedBefore(c, b, t);
            Replayable(FreshRun(JoinGraph(c, b, t, d), JoinBody(c, d)), cp[d := NodeResult.Completed(Text(false))], Restored(cp))
  {
    assert Restored(JoinedBefore(c, b, t)) == JoinedBefore(c, b, t);
  }

  // A resumed run ends when the first node it visits fails.
  lemma OneFailureEnds(r: Run, n: Id, e: string, max: nat)
    requires r.resumed && n !in r.base && n in r.graph.nodes && r.graph.nodes[n].registered && |r.base| < max
    requires Sound(r, r.base[n := NodeResult.Failed(e)])
    ensures Ends(r, r.base[n := NodeResult.Failed(e)], Failing(NodeError(n, e)), max, false)
  {
    assert RanIn(r, r.base[n := NodeResult.Failed(e)]) == {n};
  }
}
