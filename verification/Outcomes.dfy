/** What a run records, read off the edges: which nodes are skipped, what the others are given, and what it
    means that a run finished, paused or failed. */
module Outcomes {
  import opened Helpers
  import opened Graphs
  import opened Engine
  import opened Executor

  /* ----- Branch names ----- */

  predicate NoBlankEnds(s: string) {
    s != "" ==> !IsSpace(s[0]) && !IsSpace(s[|s| - 1])
  }

  predicate NoCapitals(s: string) {
    forall i :: 0 <= i < |s| ==> !('A' <= s[i] <= 'Z')
  }

  lemma {:induction false} LowerOfLower(s: string)
    requires NoCapitals(s)
    ensures Lower(s) == s
  {
    if s != "" {
      LowerOfLower(s[1..]);
    }
  }

  lemma {:induction false} LowerOfParts(s: string, t: string)
    ensures Lower(s + t) == Lower(s) + Lower(t) && |Lower(s)| == |s|
  {
    if s == "" {
      assert s + t == t;
    } else {
      LowerOfParts(s[1..], t);
      assert (s + t)[1..] == s[1..] + t;
    }
  }

  lemma {:induction false} LowerIsLower(s: string)
    ensures Lower(Lower(s)) == Lower(s)
    ensures StripLeft(Lower(s)) == Lower(StripLeft(s))
  {
    if s != "" {
      LowerIsLower(s[1..]);
      assert Lower(s)[1..] == Lower(s[1..]);
    }
  }

  lemma {:induction false} LowerStripsRight(s: string)
    ensures StripRight(Lower(s)) == Lower(StripRight(s))
  {
    if s != "" {
      var last := |s| - 1;
      LowerOfParts(s[..last], s[last..]);
      assert s == s[..last] + s[last..];
      LowerStripsRight(s[..last]);
      assert Lower(s)[..last] == Lower(s[..last]);
    }
  }

  // Nor do capitals.
  lemma CapitalsDoNotMatter(s: string)
    ensures NormalizeBranchToken(Some(Lower(s))) == NormalizeBranchToken(Some(s))
  {
    LowerIsLower(s);
    LowerStripsRight(StripLeft(s));
    LowerIsLower(StripRight(StripLeft(s)));
  }

  lemma NamesItself(s: string)
    requires NoCapitals(s) && NoBlankEnds(s)
    ensures NormalizeBranchToken(Some(s)) == if s in TRUE_TOKENS then Some("true") else if s in FALSE_TOKENS then Some("false") else None
  {
    LowerOfLower(s);
    assert StripLeft(s) == s && StripRight(s) == s;
  }

  // Each listed word names its branch.
  lemma TrueWords()
    ensures forall t :: t in TRUE_TOKENS ==> NormalizeBranchToken(Some(t)) == Some("true")
  {
    forall i | 0 <= i < |TRUE_TOKENS|
      ensures NormalizeBranchToken(Some(TRUE_TOKENS[i])) == Some("true")
    {
      assert NoCapitals(TRUE_TOKENS[i]) && NoBlankEnds(TRUE_TOKENS[i]);
      NamesItself(TRUE_TOKENS[i]);
    }
  }

  lemma FalseWords()
    ensures forall t :: t in FALSE_TOKENS ==> NormalizeBranchToken(Some(t)) == Some("false")
  {
    forall i | 0 <= i < |FALSE_TOKENS|
      ensures NormalizeBranchToken(Some(FALSE_TOKENS[i])) == Some("false")
    {
      assert NoCapitals(FALSE_TOKENS[i]) && NoBlankEnds(FALSE_TOKENS[i]);
      NamesItself(FALSE_TOKENS[i]);
      WordsDiffer(i);
    }
  }

  lemma WordsDiffer(i: nat)
    requires i < |FALSE_TOKENS|
    ensures FALSE_TOKENS[i] !in TRUE_TOKENS
  {
  }

  // Blanks around a word do not matter.
  lemma BlanksDoNotMatter(s: string, c: char)
    requires IsSpace(c)
    ensures NormalizeBranchToken(Some([c] + s)) == NormalizeBranchToken(Some(s))
    ensures NormalizeBranchToken(Some(s + [c])) == NormalizeBranchToken(Some(s))
  {
    assert ([c] + s)[1..] == s;
    StripsBoth(s, c);
  }

  lemma {:induction false} StripsBoth(s: string, c: char)
    requires IsSpace(c)
    ensures StripRight(StripLeft(s + [c])) == StripRight(StripLeft(s))
  {
    if s == "" {
      assert [c][1..] == "";
    } else if IsSpace(s[0]) {
      assert (s + [c])[1..] == s[1..] + [c];
      StripsBoth(s[1..], c);
    } else {
      assert (s + [c])[..|s|] == s;
    }
  }

  /* ----- Routing, edge by edge ----- */

  predicate Leads(e: Edge, p: Id, n: Id) {
    e.source == p && e.target == n
  }

  // The handle names a branch, or else the label does.
  predicate NamesBranch(e: Edge) {
    NormalizeBranchToken(e.sourceHandle).Some? || NormalizeBranchToken(e.caption).Some?
  }

  // The label is read only where the handle names no branch.
  predicate Names(e: Edge, branch: string) {
    if NormalizeBranchToken(e.sourceHandle).Some? then NormalizeBranchToken(e.sourceHandle) == Some(branch)
    else NormalizeBranchToken(e.caption) == Some(branch)
  }

  // A condition whose edges to n name branches, but not the one taken.
  ghost predicate ConditionTurnsAway(edges: seq<Edge>, m: map<Id, NodeResult>, p: Id, n: Id) {
    p in m && m[p].Completed? && m[p].output.meta.Condition? &&
    (exists e :: e in edges && Leads(e, p, n) && NamesBranch(e)) &&
    (forall e :: e in edges && Leads(e, p, n) ==> !Names(e, m[p].output.meta.branch))
  }

  // A switch that matched a route on which no edge to n is.
  ghost predicate SwitchTurnsAway(edges: seq<Edge>, m: map<Id, NodeResult>, p: Id, n: Id) {
    p in m && m[p].Completed? && m[p].output.meta.Switch? && m[p].output.meta.matched.Some? &&
    (forall e :: e in edges && Leads(e, p, n) ==> e.route != m[p].output.meta.matched)
  }

  ghost predicate TurnedAway(edges: seq<Edge>, m: map<Id, NodeResult>, n: Id) {
    exists p :: HasEdge(edges, p, n) && (ConditionTurnsAway(edges, m, p, n) || SwitchTurnsAway(edges, m, p, n))
  }

  lemma {:induction false} BetweenIffLeads(edges: seq<Edge>, p: Id, n: Id, e: Edge)
    ensures e in EdgesBetween(edges, p, n) <==> e in edges && Leads(e, p, n)
  {
    if edges != [] {
      BetweenIffLeads(edges[1..], p, n, e);
      assert e in edges <==> e == edges[0] || e in edges[1..];
    }
  }

  lemma GatesIff(r: Run, m: map<Id, NodeResult>, p: Id, n: Id)
    ensures Gates(r.graph.edges, p, n, Look(OutputsOf(r, m), p)) <==>
            ConditionTurnsAway(r.graph.edges, m, p, n) || SwitchTurnsAway(r.graph.edges, m, p, n)
  {
    forall e
      ensures e in EdgesBetween(r.graph.edges, p, n) <==> e in r.graph.edges && Leads(e, p, n)
    {
      BetweenIffLeads(r.graph.edges, p, n, e);
    }
  }

  lemma RoutedAwayIff(r: Run, m: map<Id, NodeResult>, n: Id)
    ensures RoutedAway(r, m, n) <==> TurnedAway(r.graph.edges, m, n)
  {
    forall p
      ensures p in Incoming(r.graph.edges, n) <==> HasEdge(r.graph.edges, p, n)
      ensures Gates(r.graph.edges, p, n, Look(OutputsOf(r, m), p)) <==>
              ConditionTurnsAway(r.graph.edges, m, p, n) || SwitchTurnsAway(r.graph.edges, m, p, n)
    {
      IncomingIffEdge(r.graph.edges, p, n);
      GatesIff(r, m, p, n);
    }
  }

  /* ----- The input of a node ----- */

  // The parents are taken in the order of the edges, one for each edge: those at the positions `at`.
  ghost predicate InEdgeOrder(edges: seq<Edge>, n: Id, at: seq<nat>) {
    (forall j, k :: 0 <= j < k < |at| ==> at[j] < at[k]) &&
    (forall i: nat :: i in at <==> i < |edges| && edges[i].target == n)
  }

  lemma OrderOfMore(less: seq<Edge>, last: Edge, n: Id, before: seq<nat>)
    requires InEdgeOrder(less, n, before)
    ensures InEdgeOrder(less + [last], n, before + if last.target == n then [|less|] else [])
  {
    var at := before + if last.target == n then [|less|] else [];
    assert forall k :: 0 <= k < |before| ==> before[k] in before;
    forall i: nat
      ensures i in at <==> i < |less| + 1 && (less + [last])[i].target == n
    {
      assert i in at <==> i in before || (last.target == n && i == |less|);
    }
  }

  lemma {:induction false} IncomingInEdgeOrder(edges: seq<Edge>, n: Id) returns (at: seq<nat>)
    ensures InEdgeOrder(edges, n, at) && |Incoming(edges, n)| == |at|
    ensures forall k :: 0 <= k < |at| ==> at[k] < |edges| && Incoming(edges, n)[k] == edges[at[k]].source
  {
    if edges == [] {
      at := [];
    } else {
      var less, last := edges[..|edges| - 1], edges[|edges| - 1];
      var before := IncomingInEdgeOrder(less, n);
      OrderOfMore(less, last, n, before);
      IncomingAppend(less, last, n);
      assert edges == less + [last];
      at := before + if last.target == n then [|less|] else [];
    }
  }

  // What a node is shown of its parent p.
  predicate Shown(r: Run, m: map<Id, NodeResult>, p: Id, seen: Seen) {
    p in m &&
    match m[p]
    case Completed(o) => seen == Value(o)
    case Skipped => seen == if r.resumed && p in r.base then Null else Nothing
    case Failed(_) => seen == Nothing
  }

  predicate IsRouting(m: map<Id, NodeResult>, p: Id) {
    p in m && m[p].Completed? && !m[p].output.meta.Plain?
  }

  predicate LastRouting(m: map<Id, NodeResult>, ps: seq<Id>, k: int) {
    0 <= k < |ps| && IsRouting(m, ps[k]) && forall j :: k < j < |ps| ==> !IsRouting(m, ps[j])
  }

  // The last parent that routes is all the node sees; else the only parent, or all of them in the order of the edges.
  ghost predicate Given(r: Run, m: map<Id, NodeResult>, n: Id, input: Input) {
    var ps := Incoming(r.graph.edges, n);
    if exists p :: p in ps && IsRouting(m, p) then exists k :: LastRouting(m, ps, k) && input == One(Value(m[ps[k]].output))
    else if ps == [] then input == Trigger
    else if |ps| == 1 then input.One? && Shown(r, m, ps[0], input.seen)
    else input.Many? && |input.all| == |ps| && forall k :: 0 <= k < |ps| ==> Shown(r, m, ps[k], input.all[k])
  }

  // The position of the last routing parent, or -1.
  lemma {:induction false} RoutedByLast(r: Run, m: map<Id, NodeResult>, ps: seq<Id>, gathered: Input) returns (k: int)
    ensures if k == -1 then (forall p :: p in ps ==> !IsRouting(m, p)) && Routed(ps, OutputsOf(r, m), gathered) == gathered
            else LastRouting(m, ps, k) && Routed(ps, OutputsOf(r, m), gathered) == One(Value(m[ps[k]].output))
  {
    k := |ps| - 1;
    if ps != [] && !IsRouting(m, ps[k]) {
      k := RoutedByLast(r, m, ps[..k], gathered);
      assert forall p :: p in ps <==> p in ps[..|ps| - 1] || p == ps[|ps| - 1];
    }
  }

  lemma InputIsGiven(r: Run, m: map<Id, NodeResult>, n: Id)
    requires forall p :: p in Incoming(r.graph.edges, n) ==> p in m
    ensures Given(r, m, n, InputOf(r, m, n))
  {
    var ps, outs := Incoming(r.graph.edges, n), OutputsOf(r, m);
    var last := RoutedByLast(r, m, ps, Gathered(ps, outs));
    assert forall k :: 0 <= k < |ps| ==> ps[k] in ps && Shown(r, m, ps[k], Look(outs, ps[k]));
  }

  /* ----- The result of a node ----- */

  predicate SoftFailure(r: Run, m: map<Id, NodeResult>, p: Id) {
    p in m && p !in r.base && m[p].Failed? && !r.resumed && p in r.graph.nodes && r.graph.nodes[p].registered &&
    r.graph.nodes[p].continueOnError
  }

  // Every parent was skipped or failed softly; resume() never skips for that.
  ghost predicate CutOff(r: Run, m: map<Id, NodeResult>, n: Id) {
    !r.resumed && (exists p :: HasEdge(r.graph.edges, p, n)) &&
    forall p :: HasEdge(r.graph.edges, p, n) ==> p in m && (m[p].Skipped? || SoftFailure(r, m, p))
  }

  lemma CutOffIff(r: Run, m: map<Id, NodeResult>, n: Id)
    ensures SkippedByParents(r, m, n) <==> CutOff(r, m, n)
  {
    var ps := Incoming(r.graph.edges, n);
    forall p
      ensures p in ps <==> HasEdge(r.graph.edges, p, n)
    {
      IncomingIffEdge(r.graph.edges, p, n);
    }
    assert ps != [] ==> ps[0] in ps;
    assert forall p :: Dead(r, m, p) <==> p in m && (m[p].Skipped? || SoftFailure(r, m, p));
  }

  // Every recorded node has its parents recorded, and its result is what the graph says: skipped exactly if it was
  // turned away or cut off; failed if its type is unknown; else what its body makes of the input it is given.
  lemma ResultIs(r: Run, m: map<Id, NodeResult>, n: Id)
    requires Sound(r, m) && n in m && n !in r.base
    ensures n in r.graph.nodes && forall p :: HasEdge(r.graph.edges, p, n) ==> p in m
    ensures m[n].Skipped? <==> TurnedAway(r.graph.edges, m, n) || CutOff(r, m, n)
    ensures !m[n].Skipped? && !r.graph.nodes[n].registered ==> m[n] == NodeResult.Failed(UNKNOWN_TYPE)
    ensures !m[n].Skipped? && r.graph.nodes[n].registered ==>
              exists input :: Given(r, m, n, input) &&
                m[n] == match r.f(n, input) case Done(o) => NodeResult.Completed(o) case Error(e) => NodeResult.Failed(e)
  {
    assert Justified(r, m, n);
    RoutedAwayIff(r, m, n);
    CutOffIff(r, m, n);
    forall p
      ensures p in Incoming(r.graph.edges, n) <==> HasEdge(r.graph.edges, p, n)
    {
      IncomingIffEdge(r.graph.edges, p, n);
    }
    InputIsGiven(r, m, n);
    assert m[n] == Visit(r, m, n);
  }

  // A node on the taken branch of a condition is not skipped, unless another parent routes too.
  lemma TakenBranchRuns(r: Run, m: map<Id, NodeResult>, p: Id, n: Id, e: Edge)
    requires Sound(r, m) && n in m && n !in r.base && e in r.graph.edges && Leads(e, p, n)
    requires p in m && m[p].Completed? && m[p].output.meta.Condition? && Names(e, m[p].output.meta.branch)
    requires forall q :: HasEdge(r.graph.edges, q, n) && q != p ==> !IsRouting(m, q)
    ensures !m[n].Skipped?
  {
    ResultIs(r, m, n);
    assert HasEdge(r.graph.edges, p, n);
  }

  // So is one on the matched route of a switch.
  lemma MatchedRouteRuns(r: Run, m: map<Id, NodeResult>, p: Id, n: Id, e: Edge)
    requires Sound(r, m) && n in m && n !in r.base && e in r.graph.edges && Leads(e, p, n)
    requires p in m && m[p].Completed? && m[p].output.meta.Switch?
    requires m[p].output.meta.matched.None? || e.route == m[p].output.meta.matched
    requires forall q :: HasEdge(r.graph.edges, q, n) && q != p ==> !IsRouting(m, q)
    ensures !m[n].Skipped?
  {
    ResultIs(r, m, n);
    assert HasEdge(r.graph.edges, p, n);
  }

  // And one none of whose parents routes, if some parent completed.
  lemma LiveParentRuns(r: Run, m: map<Id, NodeResult>, p: Id, n: Id)
    requires Sound(r, m) && n in m && n !in r.base && HasEdge(r.graph.edges, p, n) && p in m && m[p].Completed?
    requires forall q :: HasEdge(r.graph.edges, q, n) ==> !IsRouting(m, q)
    ensures !m[n].Skipped?
  {
    ResultIs(r, m, n);
  }

  /* ----- How a run ends ----- */

  // A completed node does not wait; a failed one has an unknown type, or fails softly.
  predicate LetsPass(r: Run, m: map<Id, NodeResult>, n: Id)
    requires n in m
  {
    n in r.base ||
    match m[n]
    case Completed(o) => !o.waiting
    case Skipped => true
    case Failed(_) => (n in r.graph.nodes && !r.graph.nodes[n].registered) || SoftFailure(r, m, n)
  }

  lemma PassesIff(r: Run, m: map<Id, NodeResult>, n: Id)
    requires n in m
    ensures Passes(r, n, m[n]) <==> LetsPass(r, m, n)
  {
  }

  // A finished or cancelled run let every node pass; a paused one stands at the one node that waits, and a
  // failed one at the one that failed for good.
  lemma EndIs(r: Run, m: map<Id, NodeResult>, status: Status, max: nat, cancelSeen: bool)
    requires Ends(r, m, status, max, cancelSeen)
    ensures status == Finished || status == Cancelled ==> forall n :: n in m ==> LetsPass(r, m, n)
    ensures status == Cancelled ==> cancelSeen
    ensures status.Paused? ==>
              status.node in m && m[status.node].Completed? && m[status.node].output.waiting && status.node !in r.base &&
              forall n :: n in m && n != status.node ==> LetsPass(r, m, n)
    ensures status.Failing? && status.cause.NodeError? ==>
              var n, e := status.cause.node, status.cause.error;
              n in m && n !in r.base && m[n] == NodeResult.Failed(e) && !SoftFailure(r, m, n) &&
              (n in r.graph.nodes ==> r.graph.nodes[n].registered) && forall x :: x in m && x != n ==> LetsPass(r, m, x)
  {
    forall n | n in m
      ensures Passes(r, n, m[n]) <==> LetsPass(r, m, n)
    {
      PassesIff(r, m, n);
    }
  }

  // The nodes whose body was run.
  function BodiesRun(r: Run, m: map<Id, NodeResult>): set<Id> {
    set n | n in m && n !in r.base && n in r.graph.nodes &&
            (m[n].Completed? || (m[n].Failed? && r.graph.nodes[n].registered))
  }

  // A run takes at most `max` steps, where resume() counts the restored nodes as taken, and stops for the limit
  // only when they are used up.
  lemma StepsAre(r: Run, m: map<Id, NodeResult>, status: Status, max: nat, cancelSeen: bool)
    requires Ends(r, m, status, max, cancelSeen)
    ensures var taken := |BodiesRun(r, m)| + if r.resumed then |r.base| else 0;
            (BodiesRun(r, m) != {} ==> taken <= max) && (status == Failing(StepLimit) ==> taken >= max)
  {
    forall n
      ensures n in BodiesRun(r, m) <==> n in RanIn(r, m)
    {
      assert n in m && n !in r.base ==> Justified(r, m, n);
    }
    assert BodiesRun(r, m) == RanIn(r, m);
  }

  // In a finished run a node that is no starting point is recorded exactly if its parents are, and one of them was
  // visited in this run and is of a known type or was skipped: an unknown type leads nowhere.
  lemma RecordedIff(r: Run, m: map<Id, NodeResult>, n: Id)
    requires Sound(r, m) && Complete(r, m) && (forall x :: x in m ==> LetsPass(r, m, x))
    requires n !in r.base && n !in r.seeds
    ensures n in m <==>
            (forall p :: HasEdge(r.graph.edges, p, n) ==> p in m) &&
            exists p :: HasEdge(r.graph.edges, p, n) && p in m && p !in r.base &&
              !(m[p].Failed? && p in r.graph.nodes && !r.graph.nodes[p].registered)
  {
    forall p
      ensures p in Incoming(r.graph.edges, n) <==> HasEdge(r.graph.edges, p, n)
      ensures p in m ==> (Passes(r, p, m[p]) <==> LetsPass(r, m, p))
    {
      IncomingIffEdge(r.graph.edges, p, n);
    }
    assert n in m ==> Justified(r, m, n);
    assert n !in m ==> !(Ready(r, m, n) && Reached(r, m, n));
  }

  /* ----- Where a run starts ----- */

  // execute() starts at the nodes without an incoming edge; those without any edge that are no triggers are skipped.
  lemma StartIs(g: Graph, f: (Id, Input) -> NodeRun, n: Id)
    ensures var r := FreshRun(g, f);
            (n in r.base <==> n in g.nodes && !g.nodes[n].trigger && forall e :: e in g.edges ==> e.source != n && e.target != n) &&
            (n in r.base ==> r.base[n].Skipped?) && !r.resumed &&
            (n in r.seeds <==> n in g.nodes && n !in r.base && forall e :: e in g.edges ==> e.target != n)
  {
  }

  // resume() keeps the completed and skipped nodes; it starts at the children of the paused node, or everywhere.
  lemma ResumeStartIs(g: Graph, f: (Id, Input) -> NodeRun, results: map<Id, NodeResult>, pausedAt: Option<Id>, n: Id)
    ensures var r := ResumedRun(g, f, results, pausedAt);
            (n in r.base <==> n in results && !results[n].Failed?) && (n in r.base ==> r.base[n] == results[n]) && r.resumed &&
            (n in r.seeds <==> n !in r.base && if pausedAt.Some? then HasEdge(g.edges, pausedAt.value, n) else n in g.nodes)
  {
    if pausedAt.Some? {
      ChildrenIffEdge(g.edges, pausedAt.value, n);
    }
  }
}
