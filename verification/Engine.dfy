/** What a workflow run means: each node's result is fixed by its parents' results.

    The executor walks a queue in batches.  Here nothing is walked: `Sound` and `Complete` say which
    tables of node results are right, and `Meaning` computes the right result of one node by recursion
    over its parents. */
module Engine {
  import opened Helpers
  import opened Graphs

  // The routing part of an output.  A condition with no branch in its metadata is on "true".
  datatype Meta = Plain | Condition(branch: string) | Switch(matched: Option<int>)

  // `waiting` marks the output of a human-approval node.
  datatype Output = Output(meta: Meta, waiting: bool, payload: string)

  datatype NodeResult = Completed(output: Output) | Skipped | Failed(error: string)

  // What a node sees of one parent: the empty dictionary, None, or an output.
  datatype Seen = Nothing | Null | Value(output: Output)

  datatype Input = Trigger | One(seen: Seen) | Many(all: seq<Seen>)

  datatype NodeRun = Done(output: Output) | Error(error: string)

  datatype Node = Node(registered: bool, continueOnError: bool, trigger: bool)

  datatype Graph = Graph(nodes: map<Id, Node>, edges: seq<Edge>)

  // One run.  `base` holds the results that are settled before the first node is visited, `seeds` the
  // initial queue; `resumed` tells resume() from execute().
  datatype Run = Run(graph: Graph, f: (Id, Input) -> NodeRun, base: map<Id, NodeResult>, seeds: set<Id>, resumed: bool)

  const UNKNOWN_TYPE := "Unknown node type"

  /* ----- Branch routing ----- */

  const TRUE_TOKENS := ["true", "yes", "y", "pass", "passed", "met", "ok", "success", "1", "t", "then"]
  const FALSE_TOKENS := ["false", "no", "n", "fail", "failed", "not met", "notmet", "not_met",
                         "reject", "rejected", "0", "f", "else"]

  function Lower(s: string): string {
    if s == [] then []
    else [if 'A' <= s[0] <= 'Z' then (s[0] as int + 32) as char else s[0]] + Lower(s[1..])
  }

  predicate IsSpace(c: char) {
    c == ' ' || c == '\t' || c == '\n' || c == '\r'
  }

  function StripLeft(s: string): string {
    if s != [] && IsSpace(s[0]) then StripLeft(s[1..]) else s
  }

  function StripRight(s: string): string {
    if s != [] && IsSpace(s[|s| - 1]) then StripRight(s[..|s| - 1]) else s
  }

  function NormalizeBranchToken(value: Option<string>): Option<string> {
    if value.None? then None
    else
      var t := Lower(StripRight(StripLeft(value.value)));
      if t in TRUE_TOKENS then Some("true")
      else if t in FALSE_TOKENS then Some("false")
      else None
  }

  // The source handle decides; the edge label is asked only when the handle names no branch.
  function EdgeBranch(e: Edge): Option<string> {
    var b := NormalizeBranchToken(e.sourceHandle);
    if b.Some? then b else NormalizeBranchToken(e.caption)
  }

  function EdgesBetween(edges: seq<Edge>, p: Id, n: Id): (es: seq<Edge>) {
    if edges == [] then []
    else (if edges[0].source == p && edges[0].target == n then [edges[0]] else []) + EdgesBetween(edges[1..], p, n)
  }

  // Does the output of p route the run away from n?
  predicate Gates(edges: seq<Edge>, p: Id, n: Id, seen: Seen) {
    seen.Value? &&
    var es := EdgesBetween(edges, p, n);
    match seen.output.meta
    case Plain => false
    case Condition(branch) =>
      (exists e :: e in es && EdgeBranch(e).Some?) && (forall e :: e in es ==> EdgeBranch(e) != Some(branch))
    case Switch(matched) =>
      matched.Some? && forall e :: e in es ==> e.route != matched
  }

  predicate Routes(seen: Seen) {
    seen.Value? && !seen.output.meta.Plain?
  }

  function Look(outputs: map<Id, Seen>, p: Id): Seen {
    if p in outputs then outputs[p] else Nothing
  }

  predicate AnyGates(edges: seq<Edge>, ps: seq<Id>, n: Id, outputs: map<Id, Seen>) {
    exists p :: p in ps && Gates(edges, p, n, Look(outputs, p))
  }

  // The output of the last routing parent replaces the gathered input.
  function Routed(ps: seq<Id>, outputs: map<Id, Seen>, gathered: Input): Input {
    if ps == [] then gathered
    else
      var last := Look(outputs, ps[|ps| - 1]);
      if Routes(last) then One(last) else Routed(ps[..|ps| - 1], outputs, gathered)
  }

  function Gathered(ps: seq<Id>, outputs: map<Id, Seen>): Input {
    if |ps| == 0 then Trigger
    else if |ps| == 1 then One(Look(outputs, ps[0]))
    else Many(seq(|ps|, i requires 0 <= i < |ps| => Look(outputs, ps[i])))
  }

  /* ----- One node ----- */

  function SeenOf(r: Run, m: map<Id, NodeResult>, p: Id): Seen
    requires p in m
  {
    match m[p]
    case Completed(o) => Value(o)
    case Skipped => if r.resumed && p in r.base then Null else Nothing
    case Failed(_) => Nothing
  }

  function OutputsOf(r: Run, m: map<Id, NodeResult>): map<Id, Seen> {
    map p | p in m :: SeenOf(r, m, p)
  }

  // Failures that do not end the run.  resume() has no such failures.
  predicate FailsSoftly(r: Run, n: Id) {
    !r.resumed && n in r.graph.nodes && r.graph.nodes[n].registered && r.graph.nodes[n].continueOnError
  }

  predicate Unregistered(r: Run, n: Id) {
    n in r.graph.nodes && !r.graph.nodes[n].registered
  }

  // May children of n run, now that n has this result?
  predicate Passes(r: Run, n: Id, res: NodeResult) {
    n in r.base ||
    match res
    case Completed(o) => !o.waiting
    case Skipped => true
    case Failed(_) => Unregistered(r, n) || FailsSoftly(r, n)
  }

  // Does the visit that gave this result put the children on the queue?
  predicate Enqueues(r: Run, n: Id, res: NodeResult) {
    n !in r.base && Passes(r, n, res) && !(res.Failed? && Unregistered(r, n))
  }

  predicate Stops(r: Run, n: Id, res: NodeResult) {
    !Passes(r, n, res)
  }

  predicate Dead(r: Run, m: map<Id, NodeResult>, p: Id) {
    p in m && (m[p].Skipped? || (p !in r.base && m[p].Failed? && FailsSoftly(r, p)))
  }

  // Skipped because every parent is skipped or failed softly; resume() never does this.
  predicate SkippedByParents(r: Run, m: map<Id, NodeResult>, n: Id) {
    !r.resumed &&
    var ps := Incoming(r.graph.edges, n);
    ps != [] && forall p :: p in ps ==> Dead(r, m, p)
  }

  predicate RoutedAway(r: Run, m: map<Id, NodeResult>, n: Id) {
    AnyGates(r.graph.edges, Incoming(r.graph.edges, n), n, OutputsOf(r, m))
  }

  function InputOf(r: Run, m: map<Id, NodeResult>, n: Id): Input {
    var ps := Incoming(r.graph.edges, n);
    Routed(ps, OutputsOf(r, m), Gathered(ps, OutputsOf(r, m)))
  }

  // The result of visiting n when m holds the results so far.
  function Visit(r: Run, m: map<Id, NodeResult>, n: Id): NodeResult {
    if RoutedAway(r, m, n) || SkippedByParents(r, m, n) then Skipped
    else if Unregistered(r, n) then Failed(UNKNOWN_TYPE)
    else
      match r.f(n, InputOf(r, m, n))
      case Done(o) => Completed(o)
      case Error(e) => Failed(e)
  }

  ghost predicate Ready(r: Run, m: map<Id, NodeResult>, n: Id) {
    forall p :: p in Incoming(r.graph.edges, n) ==> p in m && Passes(r, p, m[p])
  }

  ghost predicate Reached(r: Run, m: map<Id, NodeResult>, n: Id) {
    n in r.seeds || exists p :: p in Incoming(r.graph.edges, n) && p in m && Enqueues(r, p, m[p])
  }

  /* ----- Whole tables ----- */

  ghost predicate Extends(m: map<Id, NodeResult>, m': map<Id, NodeResult>) {
    forall n :: n in m ==> n in m' && m'[n] == m[n]
  }

  ghost predicate Justified(r: Run, m: map<Id, NodeResult>, n: Id)
    requires n in m
  {
    n in r.graph.nodes && Ready(r, m, n) && Reached(r, m, n) && m[n] == Visit(r, m, n)
  }

  // Every result is either given or follows from the results of the parents.
  ghost predicate Sound(r: Run, m: map<Id, NodeResult>) {
    Extends(r.base, m) && forall n {:trigger Justified(r, m, n)} :: n in m && n !in r.base ==> Justified(r, m, n)
  }

  // Nothing is left to visit.
  ghost predicate Complete(r: Run, m: map<Id, NodeResult>) {
    forall n {:trigger Reached(r, m, n)} :: n !in m ==> !(Ready(r, m, n) && Reached(r, m, n))
  }

  ghost predicate NoStops(r: Run, m: map<Id, NodeResult>) {
    forall n :: n in m ==> Passes(r, n, m[n])
  }

  // The nodes whose body was run, as opposed to skipped, restored or of unknown type.
  function RanIn(r: Run, m: map<Id, NodeResult>): set<Id> {
    set n | n in m && n !in r.base && Ran(r, n, m[n])
  }

  predicate Ran(r: Run, n: Id, res: NodeResult) {
    res.Completed? || (res.Failed? && !Unregistered(r, n))
  }

  /* ----- A visit depends on the parents alone ----- */

  ghost predicate AgreeOn(m: map<Id, NodeResult>, m': map<Id, NodeResult>, ps: seq<Id>) {
    forall p :: p in ps ==> p in m && p in m' && m[p] == m'[p]
  }

  lemma {:induction false} RoutedDependsOnParents(ps: seq<Id>, a: map<Id, Seen>, b: map<Id, Seen>, g: Input)
    requires forall p :: p in ps ==> Look(a, p) == Look(b, p)
    ensures Routed(ps, a, g) == Routed(ps, b, g)
  {
    if ps != [] {
      assert ps[|ps| - 1] in ps;
      RoutedDependsOnParents(ps[..|ps| - 1], a, b, g);
    }
  }

  lemma GatheredDependsOnParents(ps: seq<Id>, a: map<Id, Seen>, b: map<Id, Seen>)
    requires forall p :: p in ps ==> Look(a, p) == Look(b, p)
    ensures Gathered(ps, a) == Gathered(ps, b)
  {
    if |ps| > 1 {
      assert forall i :: 0 <= i < |ps| ==> ps[i] in ps;
      assert Gathered(ps, a).all == Gathered(ps, b).all;
    } else if |ps| == 1 {
      assert ps[0] in ps;
    }
  }

  lemma VisitDependsOnParents(r: Run, m: map<Id, NodeResult>, m': map<Id, NodeResult>, n: Id)
    requires AgreeOn(m, m', Incoming(r.graph.edges, n))
    ensures Visit(r, m, n) == Visit(r, m', n)
    ensures Ready(r, m, n) == Ready(r, m', n) && Reached(r, m, n) == Reached(r, m', n)
  {
    var ps := Incoming(r.graph.edges, n);
    var a, b := OutputsOf(r, m), OutputsOf(r, m');
    assert forall p :: p in ps ==> Look(a, p) == Look(b, p);
    RoutedDependsOnParents(ps, a, b, Gathered(ps, a));
    GatheredDependsOnParents(ps, a, b);
    assert RoutedAway(r, m, n) == RoutedAway(r, m', n);
    assert forall p :: p in ps ==> Dead(r, m, p) == Dead(r, m', p);
  }

  /* ----- The recursive definition ----- */

  function RankOf(rank: map<Id, nat>, n: Id): nat {
    if n in rank then rank[n] else 0
  }

  lemma ParentsRankLower(edges: seq<Edge>, rank: map<Id, nat>, n: Id)
    requires Ranks(edges, rank)
    ensures forall p :: p in Incoming(edges, n) ==> RankOf(rank, p) < RankOf(rank, n)
  {
    forall p | p in Incoming(edges, n)
      ensures RankOf(rank, p) < RankOf(rank, n)
    {
      IncomingIffEdge(edges, p, n);
    }
  }

  // The result of n, or None when n is never visited.  Any ranking of the graph will do.
  ghost function Meaning(r: Run, rank: map<Id, nat>, n: Id): Option<NodeResult>
    requires Ranks(r.graph.edges, rank)
    decreases RankOf(rank, n)
  {
    if n in r.base then Some(r.base[n])
    else if n !in r.graph.nodes then None
    else
      ParentsRankLower(r.graph.edges, rank, n);
      var ps := Incoming(r.graph.edges, n);
      var m := map p | p in ps && Meaning(r, rank, p).Some? :: Meaning(r, rank, p).value;
      if Ready(r, m, n) && Reached(r, m, n) then Some(Visit(r, m, n)) else None
  }

  // A sound table, however far it got, records exactly what the recursive definition says.
  lemma {:induction false} SoundIsMeaning(r: Run, rank: map<Id, nat>, m: map<Id, NodeResult>, n: Id)
    requires Ranks(r.graph.edges, rank) && Sound(r, m) && n in m
    ensures Meaning(r, rank, n) == Some(m[n])
    decreases RankOf(rank, n)
  {
    if n !in r.base {
      assert Justified(r, m, n);
      ParentsRankLower(r.graph.edges, rank, n);
      var ps := Incoming(r.graph.edges, n);
      forall p | p in ps
        ensures Meaning(r, rank, p) == Some(m[p])
      {
        SoundIsMeaning(r, rank, m, p);
      }
      var pm := map p | p in ps && Meaning(r, rank, p).Some? :: Meaning(r, rank, p).value;
      VisitDependsOnParents(r, m, pm, n);
    }
  }

  // A sound table that is also complete leaves out only the nodes without a meaning.
  lemma {:induction false} CompleteIsMeaning(r: Run, rank: map<Id, nat>, m: map<Id, NodeResult>, n: Id)
    requires Ranks(r.graph.edges, rank) && Sound(r, m) && Complete(r, m)
    ensures Meaning(r, rank, n) == if n in m then Some(m[n]) else None
    decreases RankOf(rank, n)
  {
    if n in m {
      SoundIsMeaning(r, rank, m, n);
    } else if n in r.graph.nodes {
      ParentsRankLower(r.graph.edges, rank, n);
      var ps := Incoming(r.graph.edges, n);
      forall p | p in ps
        ensures Meaning(r, rank, p) == if p in m then Some(m[p]) else None
      {
        CompleteIsMeaning(r, rank, m, p);
      }
      var pm := map p | p in ps && Meaning(r, rank, p).Some? :: Meaning(r, rank, p).value;
      if Ready(r, pm, n) && Reached(r, pm, n) {
        VisitDependsOnParents(r, m, pm, n);
      }
    }
  }

  // The order of roots and batches cannot matter: two runs that finish have the same table.
  lemma Confluence(r: Run, m1: map<Id, NodeResult>, m2: map<Id, NodeResult>)
    requires Acyclic(r.graph.edges)
    requires Sound(r, m1) && Complete(r, m1)
    requires Sound(r, m2) && Complete(r, m2)
    ensures m1 == m2
  {
    AcyclicIffRanked(r.graph.edges);
    var rank :| Ranks(r.graph.edges, rank);
    forall n
      ensures n in m1 <==> n in m2
      ensures n in m1 && n in m2 ==> m1[n] == m2[n]
    {
      CompleteIsMeaning(r, rank, m1, n);
      CompleteIsMeaning(r, rank, m2, n);
    }
  }

  // Two runs stopped anywhere (failure, pause, cancel, step limit) never disagree on a node.
  lemma StoppedRunsAgree(r: Run, m1: map<Id, NodeResult>, m2: map<Id, NodeResult>, n: Id)
    requires Acyclic(r.graph.edges)
    requires Sound(r, m1) && Sound(r, m2) && n in m1 && n in m2
    ensures m1[n] == m2[n]
  {
    AcyclicIffRanked(r.graph.edges);
    var rank :| Ranks(r.graph.edges, rank);
    SoundIsMeaning(r, rank, m1, n);
    SoundIsMeaning(r, rank, m2, n);
  }

  // Recording one more visited node keeps a table sound.
  lemma SoundStep(r: Run, m: map<Id, NodeResult>, n: Id)
    requires Sound(r, m) && n !in m && n in r.graph.nodes && Ready(r, m, n) && Reached(r, m, n)
    ensures Sound(r, m[n := Visit(r, m, n)])
  {
    var m' := m[n := Visit(r, m, n)];
    forall x | x in m' && x !in r.base
      ensures Justified(r, m', x)
    {
      if x == n || Justified(r, m, x) {
        VisitDependsOnParents(r, m, m', x);
      }
    }
  }
}
