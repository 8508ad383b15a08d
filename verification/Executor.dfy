/** The batch breadth-first executor: `execute` and `resume` over one stored execution. */
module Executor {
  import opened Helpers
  import opened Graphs
  import opened Engine

  datatype Cause = NodeError(node: Id, error: string) | MissingNode(node: Id) | StepLimit | NoRootNode | Rejected

  datatype Status = Pending | Running | Finished | Failing(cause: Cause) | Paused(node: Id) | Resuming | Cancelled

  /* ----- What an ended run has established ----- */

  // The visits in order: nobody twice, nobody before a parent.
  ghost predicate Orderly(r: Run, m: map<Id, NodeResult>, trace: seq<Id>) {
    NoDuplicates(trace) &&
    (forall n :: n in trace <==> n in m && n !in r.base) &&
    (forall i :: 0 <= i < |trace| ==> ParentsBefore(r, trace, i))
  }

  ghost predicate ParentsBefore(r: Run, trace: seq<Id>, i: nat)
    requires i < |trace|
  {
    forall p :: p in Incoming(r.graph.edges, trace[i]) ==> p in r.base || p in trace[..i]
  }

  ghost predicate StepsWithin(r: Run, m: map<Id, NodeResult>, max: nat) {
    RanIn(r, m) == {} || |RanIn(r, m)| + RestoredSteps(r) <= max
  }

  // resume() counts the restored nodes as steps already taken.
  function RestoredSteps(r: Run): nat {
    if r.resumed then |r.base| else 0
  }

  ghost predicate Visitable(r: Run, m: map<Id, NodeResult>, n: Id) {
    n !in m && Ready(r, m, n) && Reached(r, m, n)
  }

  // A node whose body would be run next.
  ghost predicate WouldRun(r: Run, m: map<Id, NodeResult>, n: Id) {
    Visitable(r, m, n) && n in r.graph.nodes && Ran(r, n, Visit(r, m, n))
  }

  ghost predicate OnlyStop(r: Run, m: map<Id, NodeResult>, n: Id) {
    n in m && Stops(r, n, m[n]) && forall x :: x in m && x != n ==> Passes(r, x, m[x])
  }

  ghost predicate Progress(r: Run, m: map<Id, NodeResult>, max: nat) {
    Sound(r, m) && StepsWithin(r, m, max)
  }

  // Some poll of the cancel flag finds it raised.
  ghost predicate CancelSeen(cancel: nat -> bool) {
    exists k :: cancel(k)
  }

  // How a run can end, and what it then leaves behind.
  ghost predicate Ends(r: Run, m: map<Id, NodeResult>, status: Status, max: nat, cancelSeen: bool) {
    match status
    case Finished => Progress(r, m, max) && NoStops(r, m) && Complete(r, m)
    case Failing(cause) => Progress(r, m, max) && FailsFor(r, m, cause, max)
    case Paused(n) => Progress(r, m, max) && OnlyStop(r, m, n) && m[n].Completed?
    case Cancelled => Progress(r, m, max) && NoStops(r, m) && cancelSeen
    case _ => false
  }

  ghost predicate FailsFor(r: Run, m: map<Id, NodeResult>, cause: Cause, max: nat) {
    match cause
    case NodeError(n, e) => OnlyStop(r, m, n) && m[n] == NodeResult.Failed(e)
    case MissingNode(n) => NoStops(r, m) && n !in r.graph.nodes && Visitable(r, m, n)
    case StepLimit => NoStops(r, m) && |RanIn(r, m)| + RestoredSteps(r) >= max && exists n :: WouldRun(r, m, n)
    case _ => false
  }

  /* ----- The executor's own variables against the table ----- */

  function Get(m: map<Id, seq<Id>>, n: Id): seq<Id> {
    if n in m then m[n] else []
  }

  ghost predicate Indexes(edges: seq<Edge>, adjacency: map<Id, seq<Id>>, incoming: map<Id, seq<Id>>) {
    forall n :: Get(adjacency, n) == Children(edges, n) && Get(incoming, n) == Incoming(edges, n)
  }

  // The local variables of the loop.
  datatype Locals = Locals(executed: set<Id>, softFailed: set<Id>, outputs: map<Id, Seen>, steps: nat)

  // `executed` is every recorded node, apart from the orphans that execute() marks beforehand.
  ghost predicate Mirrors(r: Run, m: map<Id, NodeResult>, v: Locals) {
    (forall n :: n in v.executed <==> n in m && (r.resumed || n !in r.base)) &&
    (forall n :: n in v.softFailed <==> n in m && n !in r.base && m[n].Failed? && FailsSoftly(r, n)) &&
    (forall n :: Look(v.outputs, n) == if n in m then SeenOf(r, m, n) else Nothing)
  }

  // Nodes marked before execute() starts touch no edge.
  ghost predicate BaseIsolated(r: Run) {
    !r.resumed ==> forall n, x :: n in r.base && x in r.base ==> n !in Incoming(r.graph.edges, x) && n !in Endpoints(r.graph.edges)
  }

  // Everything reached and not yet visited is on the queue, and nothing else is.
  ghost predicate Frontier(r: Run, m: map<Id, NodeResult>, queue: seq<Id>) {
    (forall n :: n in queue ==> Reached(r, m, n)) &&
    (forall n :: Reached(r, m, n) && n !in m ==> n in queue)
  }

  ghost predicate WellStarted(r: Run) {
    BaseIsolated(r) &&
    (forall n :: n in r.seeds ==> n !in r.base) &&
    (forall n :: n in r.base ==> !r.base[n].Failed?)
  }

  lemma EndpointOfIncoming(edges: seq<Edge>, p: Id, n: Id)
    requires p in Incoming(edges, n)
    ensures p in Endpoints(edges) && n in Endpoints(edges)
  {
    IncomingIffEdge(edges, p, n);
  }

  lemma ReadyIffExecuted(r: Run, m: map<Id, NodeResult>, v: Locals, n: Id)
    requires WellStarted(r) && Mirrors(r, m, v) && NoStops(r, m)
    ensures Ready(r, m, n) <==> forall p :: p in Incoming(r.graph.edges, n) ==> p in v.executed
  {
    forall p | p in Incoming(r.graph.edges, n)
      ensures p in m <==> p in v.executed
    {
      EndpointOfIncoming(r.graph.edges, p, n);
    }
  }

  // After a visit that puts the children on the queue, the queue is again the frontier.
  lemma FrontierStep(r: Run, m: map<Id, NodeResult>, n: Id, res: NodeResult, queue: seq<Id>, queue': seq<Id>)
    requires n !in m
    requires Frontier(r, m, queue)
    requires forall x :: x in queue' ==> x in queue || (Enqueues(r, n, res) && x in Children(r.graph.edges, n))
    requires forall x :: x in queue && x != n ==> x in queue'
    requires Enqueues(r, n, res) ==> forall x :: x in Children(r.graph.edges, n) ==> x in m || x == n || x in queue'
    ensures Frontier(r, m[n := res], queue')
  {
    var m' := m[n := res];
    forall x
      ensures Reached(r, m', x) <==> Reached(r, m, x) || (Enqueues(r, n, res) && x in Children(r.graph.edges, n))
    {
      IncomingChildren(r.graph.edges, n, x);
      if Enqueues(r, n, res) && x in Children(r.graph.edges, n) {
        assert n in Incoming(r.graph.edges, x) && n in m' && m'[n] == res;
      }
    }
  }

  class WorkflowExecution {
    var status: Status
    var nodeResults: map<Id, NodeResult>
    var pausedAtNode: Option<Id>
    // The tables persisted in the middle of a run, oldest first.
    var checkpoints: seq<map<Id, NodeResult>>
    // The nodes visited by the current run, in order.
    ghost var trace: seq<Id>

    constructor ()
      ensures status == Pending && nodeResults == map[] && pausedAtNode == None && checkpoints == [] && trace == []
    {
      status, nodeResults, pausedAtNode, checkpoints, trace := Pending, map[], None, [], [];
    }
  }

  method BuildIndexes(edges: seq<Edge>) returns (adjacency: map<Id, seq<Id>>, incoming: map<Id, seq<Id>>)
    ensures Indexes(edges, adjacency, incoming)
  {
    adjacency, incoming := map[], map[];
    for i := 0 to |edges|
      invariant Indexes(edges[..i], adjacency, incoming)
    {
      var e := edges[i];
      assert edges[..i + 1] == edges[..i] + [e];
      IndexesStep(edges[..i], e, adjacency, incoming);
      adjacency := adjacency[e.source := Get(adjacency, e.source) + [e.target]];
      incoming := incoming[e.target := Get(incoming, e.target) + [e.source]];
    }
    assert edges[..|edges|] == edges;
  }

  lemma IndexesStep(edges: seq<Edge>, e: Edge, adjacency: map<Id, seq<Id>>, incoming: map<Id, seq<Id>>)
    requires Indexes(edges, adjacency, incoming)
    ensures Indexes(edges + [e], adjacency[e.source := Get(adjacency, e.source) + [e.target]],
                    incoming[e.target := Get(incoming, e.target) + [e.source]])
  {
    var a, b := adjacency[e.source := Get(adjacency, e.source) + [e.target]], incoming[e.target := Get(incoming, e.target) + [e.source]];
    forall n
      ensures Get(a, n) == Children(edges + [e], n) && Get(b, n) == Incoming(edges + [e], n)
    {
      ChildrenAppend(edges, e, n);
      IncomingAppend(edges, e, n);
      assert Get(adjacency, n) == Children(edges, n) && Get(incoming, n) == Incoming(edges, n);
    }
  }

  lemma Associate(a: seq<Id>, b: seq<Id>, c: seq<Id>)
    ensures a + (b + c) == a + b + c
  {
  }

  lemma {:induction false} ChildrenAppend(edges: seq<Edge>, e: Edge, n: Id)
    ensures Children(edges + [e], n) == Children(edges, n) + if e.source == n then [e.target] else []
  {
    var more := edges + [e];
    if edges == [] {
      assert more == [e] && more[1..] == [];
    } else {
      ChildrenAppend(edges[1..], e, n);
      assert more[0] == edges[0] && more[1..] == edges[1..] + [e];
      Associate(if edges[0].source == n then [edges[0].target] else [], Children(edges[1..], n), if e.source == n then [e.target] else []);
    }
  }

  lemma {:induction false} IncomingAppend(edges: seq<Edge>, e: Edge, n: Id)
    ensures Incoming(edges + [e], n) == Incoming(edges, n) + if e.target == n then [e.source] else []
  {
    var more := edges + [e];
    if edges == [] {
      assert more == [e] && more[1..] == [];
    } else {
      IncomingAppend(edges[1..], e, n);
      assert more[0] == edges[0] && more[1..] == edges[1..] + [e];
      Associate(if edges[0].target == n then [edges[0].source] else [], Incoming(edges[1..], n), if e.target == n then [e.source] else []);
    }
  }

  // One pass over the queue: collapse duplicates, drop executed nodes, keep what is not ready for later.
  method CollectBatch(queue: seq<Id>, executed: set<Id>, incoming: map<Id, seq<Id>>) returns (batch: seq<Id>, nextQueue: seq<Id>)
    ensures NoDuplicates(batch)
    ensures forall n :: n in batch <==> n in queue && n !in executed && forall p :: p in Get(incoming, n) ==> p in executed
    ensures forall n :: n in nextQueue <==> n in queue && n !in executed && n !in batch
  {
    batch, nextQueue := [], [];
    for i := 0 to |queue|
      invariant NoDuplicates(batch)
      invariant forall n :: n in batch <==> n in queue[..i] && n !in executed && forall p :: p in Get(incoming, n) ==> p in executed
      invariant forall n :: n in nextQueue <==> n in queue[..i] && n !in executed && n !in batch
    {
      var n := queue[i];
      assert forall x :: x in queue[..i + 1] <==> x in queue[..i] || x == n;
      if n !in executed && n !in batch {
        if forall p :: p in Get(incoming, n) ==> p in executed {
          batch := batch + [n];
        } else if n !in nextQueue {
          nextQueue := nextQueue + [n];
        }
      }
    }
    assert queue[..|queue|] == queue;
  }

  // The loop over the parents: does one of them route the run elsewhere, and what is the input?
  method GateParents(edges: seq<Edge>, n: Id, parents: seq<Id>, outputs: map<Id, Seen>) returns (skip: bool, input: Input)
    ensures skip == AnyGates(edges, parents, n, outputs)
    ensures input == Routed(parents, outputs, Gathered(parents, outputs))
  {
    skip, input := false, Gathered(parents, outputs);
    for i := 0 to |parents|
      invariant skip == AnyGates(edges, parents[..i], n, outputs)
      invariant input == Routed(parents[..i], outputs, Gathered(parents, outputs))
    {
      var p := parents[i];
      assert forall x :: x in parents[..i + 1] <==> x in parents[..i] || x == p;
      assert parents[..i + 1][..i] == parents[..i];
      if Gates(edges, p, n, Look(outputs, p)) {
        skip := true;
      }
      if Routes(Look(outputs, p)) {
        input := One(Look(outputs, p));
      }
    }
    assert parents[..|parents|] == parents;
  }

  method Enqueue(children: seq<Id>, executed: set<Id>, queue: seq<Id>) returns (queue': seq<Id>)
    ensures forall x :: x in queue' <==> x in queue || (x in children && x !in executed)
  {
    queue' := queue;
    for i := 0 to |children|
      invariant forall x :: x in queue' <==> x in queue || (x in children[..i] && x !in executed)
    {
      assert forall x :: x in children[..i + 1] <==> x in children[..i] || x == children[i];
      if children[i] !in executed && children[i] !in queue' {
        queue' := queue' + [children[i]];
      }
    }
    assert children[..|children|] == children;
  }

  lemma RanInStep(r: Run, m: map<Id, NodeResult>, n: Id, res: NodeResult)
    requires n !in m && n !in r.base
    ensures RanIn(r, m[n := res]) == RanIn(r, m) + if Ran(r, n, res) then {n} else {}
    ensures |RanIn(r, m[n := res])| == |RanIn(r, m)| + if Ran(r, n, res) then 1 else 0
  {
    assert RanIn(r, m[n := res]) == RanIn(r, m) + if Ran(r, n, res) then {n} else {};
  }

  lemma OrderlyStep(r: Run, m: map<Id, NodeResult>, trace: seq<Id>, n: Id, res: NodeResult)
    requires Orderly(r, m, trace) && n !in m && n !in r.base && Ready(r, m, n)
    ensures Orderly(r, m[n := res], trace + [n])
  {
    var t := trace + [n];
    forall i | 0 <= i < |t|
      ensures ParentsBefore(r, t, i)
    {
      if i < |trace| {
        assert ParentsBefore(r, trace, i) && t[..i] == trace[..i];
      } else {
        assert t[..i] == trace;
      }
    }
  }

  /* ----- Recording one visit ----- */

  function Record(r: Run, v: Locals, n: Id, res: NodeResult): Locals {
    Locals(v.executed + {n},
           if res.Failed? && FailsSoftly(r, n) then v.softFailed + {n} else v.softFailed,
           if res.Completed? then v.outputs[n := Value(res.output)] else v.outputs,
           if Ran(r, n, res) then v.steps + 1 else v.steps)
  }

  lemma MirrorsStep(r: Run, m: map<Id, NodeResult>, v: Locals, n: Id, res: NodeResult)
    requires Mirrors(r, m, v) && n !in m && n !in r.base
    ensures Mirrors(r, m[n := res], Record(r, v, n, res))
  {
    var m', v' := m[n := res], Record(r, v, n, res);
    assert forall x :: x in m && x != n ==> SeenOf(r, m', x) == SeenOf(r, m, x);
    assert forall x :: x != n ==> Look(v'.outputs, x) == Look(v.outputs, x);
    assert Look(v.outputs, n) == Nothing;
  }

  // What holds at every node boundary of a run that goes on.
  ghost predicate Boundary(r: Run, m: map<Id, NodeResult>, v: Locals, max: nat) {
    match v
    case Locals(_, _, _, steps) =>
      Progress(r, m, max) && NoStops(r, m) && Mirrors(r, m, v) && steps == |RanIn(r, m)| + RestoredSteps(r)
  }

  // The status that a visit with this result leaves behind.
  function StatusAfter(r: Run, n: Id, res: NodeResult): Status {
    if Passes(r, n, res) then Running
    else if res.Completed? then Paused(n)
    else if res.Failed? then Failing(NodeError(n, res.error))
    else Running
  }

  lemma BoundaryGoesOn(r: Run, m: map<Id, NodeResult>, v: Locals, max: nat, n: Id, res: NodeResult)
    requires Boundary(r, m, v, max) && Visitable(r, m, n) && n in r.graph.nodes
    requires res == Visit(r, m, n) && (Ran(r, n, res) ==> v.steps + 1 <= max)
    requires StatusAfter(r, n, res) == Running
    ensures Boundary(r, m[n := res], Record(r, v, n, res), max)
  {
    SoundStep(r, m, n);
    RanInStep(r, m, n, res);
    MirrorsStep(r, m, v, n, res);
  }

  lemma BoundaryEnds(r: Run, m: map<Id, NodeResult>, v: Locals, max: nat, n: Id, res: NodeResult, cancelSeen: bool)
    requires Boundary(r, m, v, max) && Visitable(r, m, n) && n in r.graph.nodes
    requires res == Visit(r, m, n) && (Ran(r, n, res) ==> v.steps + 1 <= max)
    requires StatusAfter(r, n, res) != Running
    ensures Ends(r, m[n := res], StatusAfter(r, n, res), max, cancelSeen)
  {
    SoundStep(r, m, n);
    RanInStep(r, m, n, res);
  }

  lemma BoundaryStep(r: Run, m: map<Id, NodeResult>, v: Locals, max: nat, n: Id, res: NodeResult, cancelSeen: bool)
    requires Boundary(r, m, v, max) && Visitable(r, m, n) && n in r.graph.nodes
    requires res == Visit(r, m, n) && (Ran(r, n, res) ==> v.steps + 1 <= max)
    ensures StatusAfter(r, n, res) == Running ==> Boundary(r, m[n := res], Record(r, v, n, res), max)
    ensures StatusAfter(r, n, res) != Running ==> Ends(r, m[n := res], StatusAfter(r, n, res), max, cancelSeen)
  {
    if StatusAfter(r, n, res) == Running {
      BoundaryGoesOn(r, m, v, max, n, res);
    } else {
      BoundaryEnds(r, m, v, max, n, res, cancelSeen);
    }
  }

  lemma BasePlus(r: Run, m: map<Id, NodeResult>)
    requires Extends(r.base, m)
    ensures r.base + m == m
  {
  }

  lemma BoundaryAtStart(r: Run, v: Locals, max: nat)
    requires Mirrors(r, r.base, v) && v.steps == RestoredSteps(r)
    requires forall n :: n in r.base ==> !r.base[n].Failed?
    ensures Boundary(r, r.base, v, max) && Orderly(r, r.base, [])
  {
    assert RanIn(r, r.base) == {};
  }

  lemma FrontierAtStart(r: Run, queue: seq<Id>)
    requires forall n :: n in queue <==> n in r.seeds
    ensures Frontier(r, r.base, queue)
  {
  }

  lemma FinishedEnds(r: Run, m: map<Id, NodeResult>, v: Locals, max: nat, cancelSeen: bool)
    requires Boundary(r, m, v, max) && Complete(r, m)
    ensures Ends(r, m, Finished, max, cancelSeen)
  {
  }

  lemma StoredAtStart(r: Run, start: Document)
    requires Extends(r.base, start.nodeResults) && Orderly(r, r.base, [])
    ensures Stored(r, r.base, start, start.nodeResults, [], start.checkpoints)
  {
    assert start.nodeResults + r.base == start.nodeResults;
  }

  lemma EarlyEnds(r: Run, m: map<Id, NodeResult>, v: Locals, max: nat, n: Id, cancelSeen: bool)
    requires Boundary(r, m, v, max) && Visitable(r, m, n)
    ensures cancelSeen ==> Ends(r, m, Cancelled, max, cancelSeen)
    ensures n !in r.graph.nodes ==> Ends(r, m, Failing(MissingNode(n)), max, cancelSeen)
    ensures n in r.graph.nodes && v.steps >= max && Ran(r, n, Visit(r, m, n)) ==>
              Ends(r, m, Failing(StepLimit), max, cancelSeen)
  {
    if n in r.graph.nodes && Ran(r, n, Visit(r, m, n)) {
      assert WouldRun(r, m, n);
    }
  }

  lemma VisitFromVariables(r: Run, m: map<Id, NodeResult>, v: Locals, n: Id)
    requires Mirrors(r, m, v)
    ensures var ps := Incoming(r.graph.edges, n);
            AnyGates(r.graph.edges, ps, n, v.outputs) == RoutedAway(r, m, n) &&
            Routed(ps, v.outputs, Gathered(ps, v.outputs)) == InputOf(r, m, n)
  {
    var ps := Incoming(r.graph.edges, n);
    GatheredDependsOnParents(ps, v.outputs, OutputsOf(r, m));
    RoutedDependsOnParents(ps, v.outputs, OutputsOf(r, m), Gathered(ps, v.outputs));
    assert forall p :: Look(v.outputs, p) == Look(OutputsOf(r, m), p);
  }

  // Skip, reject or run one node.  None is the step limit.
  method VisitNode(r: Run, ghost m: map<Id, NodeResult>, n: Id, parents: seq<Id>, results: map<Id, NodeResult>,
                   v: Locals, maxSteps: nat)
    returns (res: Option<NodeResult>)
    requires WellStarted(r) && Mirrors(r, m, v)
    requires parents == Incoming(r.graph.edges, n) && n in r.graph.nodes
    requires Ready(r, m, n) && (!r.resumed ==> results == m)
    ensures res.Some? ==> res.value == Visit(r, m, n) && (Ran(r, n, res.value) ==> v.steps + 1 <= maxSteps)
    ensures res.None? ==> v.steps >= maxSteps && Ran(r, n, Visit(r, m, n))
  {
    VisitFromVariables(r, m, v, n);
    var skip, input := GateParents(r.graph.edges, n, parents, v.outputs);
    if !skip && !r.resumed && parents != [] {
      skip := forall p :: p in parents ==> p in v.softFailed || (p in results && results[p].Skipped?);
      assert skip == SkippedByParents(r, m, n);
    }
    if skip {
      return Some(NodeResult.Skipped);
    }
    if !r.graph.nodes[n].registered {
      return Some(NodeResult.Failed(UNKNOWN_TYPE));
    }
    if v.steps + 1 > maxSteps {
      return None;
    }
    match r.f(n, input)
    case Done(o) => return Some(NodeResult.Completed(o));
    case Error(e) => return Some(NodeResult.Failed(e));
  }

  /* ----- The loop ----- */

  ghost predicate GoodCheckpoint(r: Run, m: map<Id, NodeResult>, c: map<Id, NodeResult>) {
    Sound(r, c) && NoStops(r, c) && Extends(c, m)
  }

  // The document as the run found it.
  datatype Document = Document(nodeResults: map<Id, NodeResult>, checkpoints: seq<map<Id, NodeResult>>)

  // The document against the table: the results, the order of visits, the checkpoints added.
  ghost predicate Stored(r: Run, m: map<Id, NodeResult>, start: Document, nodeResults: map<Id, NodeResult>,
                         trace: seq<Id>, checkpoints: seq<map<Id, NodeResult>>) {
    match start
    case Document(results, before) =>
      nodeResults == results + m && Orderly(r, m, trace) &&
      |before| <= |checkpoints| && checkpoints[..|before|] == before &&
      forall i :: |before| <= i < |checkpoints| ==> GoodCheckpoint(r, m, checkpoints[i])
  }

  lemma StoredStep(r: Run, m: map<Id, NodeResult>, start: Document, nodeResults: map<Id, NodeResult>,
                   trace: seq<Id>, checkpoints: seq<map<Id, NodeResult>>,
                   n: Id, res: NodeResult)
    requires Stored(r, m, start, nodeResults, trace, checkpoints)
    requires n !in m && n !in r.base && Ready(r, m, n)
    ensures Stored(r, m[n := res], start, nodeResults[n := res], trace + [n], checkpoints)
    ensures GoodCheckpoint(r, m[n := res], nodeResults[n := res]) ==>
              Stored(r, m[n := res], start, nodeResults[n := res], trace + [n], checkpoints + [nodeResults[n := res]])
  {
    OrderlyStep(r, m, trace, n, res);
    var m' := m[n := res];
    forall i | |start.checkpoints| <= i < |checkpoints|
      ensures GoodCheckpoint(r, m', checkpoints[i])
    {
      assert GoodCheckpoint(r, m, checkpoints[i]);
    }
  }

  // A checkpoint follows a node that completed and does not wait.
  predicate Saves(m: map<Id, NodeResult>, n: Id) {
    n in m && m[n].Completed? && !m[n].output.waiting
  }

  // The table after these visits.
  function Upto(base: map<Id, NodeResult>, m: map<Id, NodeResult>, trace: seq<Id>): map<Id, NodeResult> {
    base + map n | n in trace && n in m :: m[n]
  }

  // The checkpoints of a run: one for each visit that is to be saved and at which one is due.
  function Saved(base: map<Id, NodeResult>, m: map<Id, NodeResult>, trace: seq<Id>, due: nat -> bool): seq<map<Id, NodeResult>> {
    if trace == [] then []
    else
      var last := |trace| - 1;
      Saved(base, m, trace[..last], due) + if due(last) && Saves(m, trace[last]) then [Upto(base, m, trace)] else []
  }

  // No visit was started after a cancel, and the checkpoints are those that were due; resume() makes none.
  ghost predicate Timely(r: Run, m: map<Id, NodeResult>, trace: seq<Id>, cancel: nat -> bool, due: nat -> bool,
                         before: seq<map<Id, NodeResult>>, checkpoints: seq<map<Id, NodeResult>>) {
    (forall i :: 0 <= i < |trace| ==> !cancel(i)) &&
    checkpoints == before + if r.resumed then [] else Saved(r.base, m, trace, due)
  }

  // All that the loop keeps about the document.
  ghost predicate Documented(r: Run, m: map<Id, NodeResult>, start: Document, nodeResults: map<Id, NodeResult>,
                             trace: seq<Id>, checkpoints: seq<map<Id, NodeResult>>, cancel: nat -> bool, due: nat -> bool) {
    Stored(r, m, start, nodeResults, trace, checkpoints) && Timely(r, m, trace, cancel, due, start.checkpoints, checkpoints)
  }

  lemma {:induction false} SavedBefore(base: map<Id, NodeResult>, m: map<Id, NodeResult>, trace: seq<Id>, due: nat -> bool, n: Id, res: NodeResult)
    requires n !in trace
    ensures Saved(base, m[n := res], trace, due) == Saved(base, m, trace, due)
  {
    if trace != [] {
      var last := |trace| - 1;
      SavedBefore(base, m, trace[..last], due, n, res);
      assert trace[last] in trace;
      assert Upto(base, m[n := res], trace) == Upto(base, m, trace);
    }
  }

  lemma TimelyStep(r: Run, m: map<Id, NodeResult>, trace: seq<Id>, cancel: nat -> bool, due: nat -> bool,
                   before: seq<map<Id, NodeResult>>, checkpoints: seq<map<Id, NodeResult>>, n: Id, res: NodeResult)
    requires Timely(r, m, trace, cancel, due, before, checkpoints) && !cancel(|trace|)
    requires Orderly(r, m, trace) && Extends(r.base, m) && n !in m
    ensures var saved := !r.resumed && due(|trace|) && res.Completed? && !res.output.waiting;
            Timely(r, m[n := res], trace + [n], cancel, due, before, checkpoints + if saved then [m[n := res]] else [])
  {
    if !r.resumed {
      SavedStep(r, m, trace, due, n, res);
      var last := if due(|trace|) && res.Completed? && !res.output.waiting then [m[n := res]] else [];
      assert before + (Saved(r.base, m, trace, due) + last) == before + Saved(r.base, m, trace, due) + last;
    }
  }

  lemma SavedStep(r: Run, m: map<Id, NodeResult>, trace: seq<Id>, due: nat -> bool, n: Id, res: NodeResult)
    requires Orderly(r, m, trace) && Extends(r.base, m) && n !in m
    ensures Saved(r.base, m[n := res], trace + [n], due) ==
            Saved(r.base, m, trace, due) + if due(|trace|) && res.Completed? && !res.output.waiting then [m[n := res]] else []
  {
    SavedBefore(r.base, m, trace, due, n, res);
    SavedAfter(r.base, m[n := res], trace, due, n);
    UptoAll(r, m[n := res], trace + [n]);
  }

  lemma SavedAfter(base: map<Id, NodeResult>, m: map<Id, NodeResult>, trace: seq<Id>, due: nat -> bool, n: Id)
    ensures Saved(base, m, trace + [n], due) ==
            Saved(base, m, trace, due) + if due(|trace|) && Saves(m, n) then [Upto(base, m, trace + [n])] else []
  {
    assert (trace + [n])[..|trace|] == trace;
  }

  lemma UptoAll(r: Run, m: map<Id, NodeResult>, trace: seq<Id>)
    requires Extends(r.base, m) && forall n :: n in trace <==> n in m && n !in r.base
    ensures Upto(r.base, m, trace) == m
  {
  }

  // Record the result of one visit; put the children on the queue, or end the run.
  method Settle(exec: WorkflowExecution, r: Run, n: Id, res: NodeResult, children: seq<Id>, executed: set<Id>,
                queue: seq<Id>, checkpointDue: bool)
    returns (queue': seq<Id>)
    requires n in r.graph.nodes && n !in r.base && exec.status == Running
    modifies exec
    ensures exec.nodeResults == old(exec.nodeResults)[n := res]
    ensures exec.trace == old(exec.trace) + [n]
    ensures exec.checkpoints == old(exec.checkpoints) +
            if !r.resumed && checkpointDue && res.Completed? && !res.output.waiting then [exec.nodeResults] else []
    ensures exec.status == StatusAfter(r, n, res)
    ensures exec.pausedAtNode == if exec.status.Paused? then Some(n) else old(exec.pausedAtNode)
    ensures Passes(r, n, res) ==>
              forall x :: x in queue' <==> x in queue || (Enqueues(r, n, res) && x in children && x !in executed)
  {
    queue' := queue;
    exec.nodeResults := exec.nodeResults[n := res];
    exec.trace := exec.trace + [n];
    match res
    case Completed(o) =>
      if o.waiting {
        exec.status, exec.pausedAtNode := Paused(n), Some(n);
        return;
      }
      queue' := Enqueue(children, executed, queue);
      if checkpointDue && !r.resumed {
        exec.checkpoints := exec.checkpoints + [exec.nodeResults];
      }
    case Skipped =>
      queue' := Enqueue(children, executed, queue);
    case Failed(e) =>
      if r.graph.nodes[n].registered {
        if FailsSoftly(r, n) {
          queue' := Enqueue(children, executed, queue);
        } else {
          exec.status := Failing(NodeError(n, e));
          return;
        }
      }
  }

  lemma StoredIsTable(r: Run, m: map<Id, NodeResult>, start: Document, nodeResults: map<Id, NodeResult>,
                      trace: seq<Id>, checkpoints: seq<map<Id, NodeResult>>)
    requires Stored(r, m, start, nodeResults, trace, checkpoints) && Extends(r.base, m)
    ensures Orderly(r, m, trace) && (start.nodeResults == r.base ==> nodeResults == m)
  {
    BasePlus(r, m);
  }

  // The queue after the visit of n: its children are put on it, unless they are executed.
  ghost predicate Requeued(r: Run, m: map<Id, NodeResult>, n: Id, res: NodeResult, executed: set<Id>, queue: seq<Id>, queue': seq<Id>) {
    (forall x :: x in executed ==> x in m || x == n) &&
    forall x :: x in queue' <==> x in queue || (Enqueues(r, n, res) && x in Children(r.graph.edges, n) && x !in executed)
  }

  // One node of a batch: poll for a cancel, visit, settle.
  method RunNode(exec: WorkflowExecution, r: Run, ghost m: map<Id, NodeResult>, n: Id,
                 adjacency: map<Id, seq<Id>>, incoming: map<Id, seq<Id>>, v: Locals, queue: seq<Id>,
                 maxSteps: nat, polls: nat, cancel: nat -> bool, checkpointDue: nat -> bool,
                 ghost cancelSeen: bool, ghost start: Document)
    returns (ghost m': map<Id, NodeResult>, v': Locals, queue': seq<Id>)
    requires WellStarted(r) && Boundary(r, m, v, maxSteps) && Visitable(r, m, n)
    requires Get(adjacency, n) == Children(r.graph.edges, n) && Get(incoming, n) == Incoming(r.graph.edges, n)
    requires Documented(r, m, start, exec.nodeResults, exec.trace, exec.checkpoints, cancel, checkpointDue)
    requires !r.resumed ==> start.nodeResults == r.base
    requires exec.status == Running && (forall k :: cancel(k) ==> cancelSeen) && polls == |exec.trace|
    modifies exec
    ensures exec.status == Cancelled ==> cancel(|exec.trace|)
    ensures exec.status == Running ==> |exec.trace| == polls + 1
    ensures Documented(r, m', start, exec.nodeResults, exec.trace, exec.checkpoints, cancel, checkpointDue)
    ensures exec.status == Running || Ends(r, m', exec.status, maxSteps, cancelSeen)
    ensures exec.pausedAtNode == if exec.status.Paused? then Some(exec.status.node) else old(exec.pausedAtNode)
    ensures exec.status == Running ==>
              Boundary(r, m', v', maxSteps) && m' == m[n := Visit(r, m, n)] && Requeued(r, m, n, m'[n], v'.executed, queue, queue')
  {
    m', v', queue' := m, v, queue;
    EarlyEnds(r, m, v, maxSteps, n, cancelSeen);
    if cancel(polls) {
      exec.status := Cancelled;
      return;
    }
    if n !in r.graph.nodes {
      exec.status := Failing(MissingNode(n));
      return;
    }
    BasePlus(r, m);
    var visited := VisitNode(r, m, n, Get(incoming, n), exec.nodeResults, v, maxSteps);
    if visited.None? {
      exec.status := Failing(StepLimit);
      return;
    }
    var res := visited.value;
    BoundaryStep(r, m, v, maxSteps, n, res, cancelSeen);
    StoredStep(r, m, start, exec.nodeResults, exec.trace, exec.checkpoints, n, res);
    StoredIsTable(r, m, start, exec.nodeResults, exec.trace, exec.checkpoints);
    TimelyStep(r, m, exec.trace, cancel, checkpointDue, start.checkpoints, exec.checkpoints, n, res);
    m' := m[n := res];
    v' := Record(r, v, n, res);
    queue' := Settle(exec, r, n, res, Get(adjacency, n), v'.executed, queue, checkpointDue(polls));
  }

  // The rest of the batch can still be visited, and batch and queue together are still the frontier.
  lemma BatchStep(r: Run, m: map<Id, NodeResult>, batch: seq<Id>, i: nat, res: NodeResult, executed: set<Id>,
                  queue: seq<Id>, queue': seq<Id>)
    requires i < |batch| && NoDuplicates(batch)
    requires forall j :: i <= j < |batch| ==> Visitable(r, m, batch[j])
    requires Frontier(r, m, batch[i..] + queue)
    requires Requeued(r, m, batch[i], res, executed, queue, queue')
    ensures forall j :: i + 1 <= j < |batch| ==> Visitable(r, m[batch[i] := res], batch[j])
    ensures Frontier(r, m[batch[i] := res], batch[i + 1..] + queue')
  {
    var n := batch[i];
    assert batch[i..] == [n] + batch[i + 1..];
    FrontierStep(r, m, n, res, batch[i..] + queue, batch[i + 1..] + queue');
    forall j | i + 1 <= j < |batch|
      ensures Visitable(r, m[n := res], batch[j])
    {
      assert Visitable(r, m, batch[j]) && batch[j] != n;
    }
  }

  lemma ReachedIsVertex(r: Run, m: map<Id, NodeResult>, n: Id)
    requires Reached(r, m, n)
    ensures n in r.seeds + Endpoints(r.graph.edges)
  {
    if n !in r.seeds {
      var p :| p in Incoming(r.graph.edges, n) && p in m && Enqueues(r, p, m[p]);
      EndpointOfIncoming(r.graph.edges, p, n);
    }
  }

  // The batch is exactly the part of the frontier that is ready; an empty batch means there is nothing left.
  lemma BatchIsVisitable(r: Run, m: map<Id, NodeResult>, v: Locals, queue: seq<Id>, incoming: map<Id, seq<Id>>,
                         batch: seq<Id>, nextQueue: seq<Id>)
    requires WellStarted(r) && Mirrors(r, m, v) && NoStops(r, m) && Extends(r.base, m) && Frontier(r, m, queue)
    requires forall n :: Get(incoming, n) == Incoming(r.graph.edges, n)
    requires forall n :: n in batch <==> n in queue && n !in v.executed && forall p :: p in Get(incoming, n) ==> p in v.executed
    requires forall n :: n in nextQueue <==> n in queue && n !in v.executed && n !in batch
    ensures forall n :: n in batch ==> Visitable(r, m, n)
    ensures Frontier(r, m, batch + nextQueue)
    ensures batch == [] ==> Complete(r, m)
  {
    forall n | n in queue
      ensures n in v.executed <==> n in m
    {
      if n in r.base && !r.resumed {
        ReachedIsVertex(r, m, n);
      }
    }
    forall n | n in queue
      ensures n in batch <==> Visitable(r, m, n)
    {
      ReadyIffExecuted(r, m, v, n);
    }
  }

  method RunBatch(exec: WorkflowExecution, r: Run, ghost m0: map<Id, NodeResult>, batch: seq<Id>,
                  adjacency: map<Id, seq<Id>>, incoming: map<Id, seq<Id>>, v0: Locals, queue0: seq<Id>, polls0: nat,
                  maxSteps: nat, cancel: nat -> bool, checkpointDue: nat -> bool,
                  ghost cancelSeen: bool, ghost start: Document)
    returns (ghost m: map<Id, NodeResult>, v: Locals, queue: seq<Id>, polls: nat)
    requires WellStarted(r) && Boundary(r, m0, v0, maxSteps)
    requires NoDuplicates(batch) && forall j :: 0 <= j < |batch| ==> Visitable(r, m0, batch[j])
    requires Frontier(r, m0, batch + queue0)
    requires Indexes(r.graph.edges, adjacency, incoming)
    requires Documented(r, m0, start, exec.nodeResults, exec.trace, exec.checkpoints, cancel, checkpointDue)
    requires !r.resumed ==> start.nodeResults == r.base
    requires exec.status == Running && forall k :: cancel(k) ==> cancelSeen
    requires polls0 == |exec.trace|
    modifies exec
    ensures Documented(r, m, start, exec.nodeResults, exec.trace, exec.checkpoints, cancel, checkpointDue)
    ensures exec.status == Cancelled ==> cancel(|exec.trace|)
    ensures exec.status == Running ==> polls == |exec.trace|
    ensures exec.status == Running || Ends(r, m, exec.status, maxSteps, cancelSeen)
    ensures exec.pausedAtNode == if exec.status.Paused? then Some(exec.status.node) else old(exec.pausedAtNode)
    ensures exec.status == Running ==>
              Boundary(r, m, v, maxSteps) && Frontier(r, m, queue) && m0.Keys <= m.Keys && (batch == [] ==> m == m0) &&
              forall n :: n in batch ==> n in m
  {
    m, v, queue, polls := m0, v0, queue0, polls0;
    assert batch[0..] == batch;
    for i := 0 to |batch|
      invariant Boundary(r, m, v, maxSteps)
      invariant forall j :: i <= j < |batch| ==> Visitable(r, m, batch[j])
      invariant Frontier(r, m, batch[i..] + queue)
      invariant Documented(r, m, start, exec.nodeResults, exec.trace, exec.checkpoints, cancel, checkpointDue)
      invariant exec.status == Running && exec.pausedAtNode == old(exec.pausedAtNode)
      invariant polls == |exec.trace|
      invariant m0.Keys <= m.Keys && (i == 0 ==> m == m0) && forall j :: 0 <= j < i ==> batch[j] in m
    {
      ghost var was, queueWas := m, queue;
      m, v, queue := RunNode(exec, r, m, batch[i], adjacency, incoming, v, queue, maxSteps, polls, cancel,
                             checkpointDue, cancelSeen, start);
      polls := polls + 1;
      if exec.status != Running {
        return;
      }
      BatchStep(r, was, batch, i, m[batch[i]], v.executed, queueWas, queue);
    }
    BatchDone(r, m, batch, queue);
  }

  lemma BatchDone(r: Run, m: map<Id, NodeResult>, batch: seq<Id>, queue: seq<Id>)
    requires Frontier(r, m, batch[|batch|..] + queue) && forall j :: 0 <= j < |batch| ==> batch[j] in m
    ensures Frontier(r, m, queue) && forall n :: n in batch ==> n in m
  {
    assert batch[|batch|..] + queue == queue;
  }

  // One round: collect a batch and run it.  With an empty batch the run is stuck, which means done.
  method RunRound(exec: WorkflowExecution, r: Run, ghost m0: map<Id, NodeResult>,
                  adjacency: map<Id, seq<Id>>, incoming: map<Id, seq<Id>>, v0: Locals, queue0: seq<Id>, polls0: nat,
                  maxSteps: nat, cancel: nat -> bool, checkpointDue: nat -> bool, ghost cancelSeen: bool, ghost start: Document)
    returns (ghost m: map<Id, NodeResult>, v: Locals, queue: seq<Id>, polls: nat, stuck: bool)
    requires WellStarted(r) && Boundary(r, m0, v0, maxSteps) && Frontier(r, m0, queue0)
    requires Indexes(r.graph.edges, adjacency, incoming)
    requires Documented(r, m0, start, exec.nodeResults, exec.trace, exec.checkpoints, cancel, checkpointDue)
    requires !r.resumed ==> start.nodeResults == r.base
    requires exec.status == Running && forall k :: cancel(k) ==> cancelSeen
    requires polls0 == |exec.trace|
    modifies exec
    ensures Documented(r, m, start, exec.nodeResults, exec.trace, exec.checkpoints, cancel, checkpointDue)
    ensures exec.status == Cancelled ==> cancel(|exec.trace|)
    ensures exec.status == Running ==> polls == |exec.trace|
    ensures exec.status == Running || Ends(r, m, exec.status, maxSteps, cancelSeen)
    ensures exec.pausedAtNode == if exec.status.Paused? then Some(exec.status.node) else old(exec.pausedAtNode)
    ensures exec.status == Running ==> Boundary(r, m, v, maxSteps) && Frontier(r, m, queue) && (stuck ==> Complete(r, m))
    ensures exec.status == Running && !stuck ==>
              r.seeds + Endpoints(r.graph.edges) - m.Keys < r.seeds + Endpoints(r.graph.edges) - m0.Keys
  {
    var batch, nextQueue := CollectBatch(queue0, v0.executed, incoming);
    BatchIsVisitable(r, m0, v0, queue0, incoming, batch, nextQueue);
    stuck := batch == [];
    m, v, queue, polls := RunBatch(exec, r, m0, batch, adjacency, incoming, v0, nextQueue, polls0, maxSteps, cancel,
                                   checkpointDue, cancelSeen, start);
    if batch != [] {
      ReachedIsVertex(r, m0, batch[0]);
      assert batch[0] in r.seeds + Endpoints(r.graph.edges) - m0.Keys;
    }
  }

  method RunLoop(exec: WorkflowExecution, r: Run, queue0: seq<Id>, v0: Locals,
                 maxSteps: nat, cancel: nat -> bool, checkpointDue: nat -> bool)
    returns (ghost m: map<Id, NodeResult>)
    requires WellStarted(r) && Mirrors(r, r.base, v0) && v0.steps == RestoredSteps(r)
    requires forall n :: n in queue0 <==> n in r.seeds
    requires Extends(r.base, exec.nodeResults) && (!r.resumed ==> exec.nodeResults == r.base)
    requires exec.trace == [] && exec.status == Running
    modifies exec
    ensures Ends(r, m, exec.status, maxSteps, CancelSeen(cancel))
    ensures Stored(r, m, old(Document(exec.nodeResults, exec.checkpoints)), exec.nodeResults, exec.trace, exec.checkpoints)
    ensures Timely(r, m, exec.trace, cancel, checkpointDue, old(exec.checkpoints), exec.checkpoints)
    ensures exec.status == Cancelled ==> cancel(|exec.trace|)
    ensures exec.pausedAtNode == if exec.status.Paused? then Some(exec.status.node) else old(exec.pausedAtNode)
  {
    ghost var start, cancelSeen := Document(exec.nodeResults, exec.checkpoints), CancelSeen(cancel);
    var adjacency, incoming := BuildIndexes(r.graph.edges);
    BoundaryAtStart(r, v0, maxSteps);
    FrontierAtStart(r, queue0);
    StoredAtStart(r, start);
    m := RunRounds(exec, r, queue0, v0, adjacency, incoming, maxSteps, cancel, checkpointDue, cancelSeen, start);
  }

  // Round after round, until the queue is empty, a round is stuck, or the run ends.
  method RunRounds(exec: WorkflowExecution, r: Run, queue0: seq<Id>, v0: Locals,
                   adjacency: map<Id, seq<Id>>, incoming: map<Id, seq<Id>>, maxSteps: nat,
                   cancel: nat -> bool, checkpointDue: nat -> bool, ghost cancelSeen: bool, ghost start: Document)
    returns (ghost m: map<Id, NodeResult>)
    requires WellStarted(r) && Indexes(r.graph.edges, adjacency, incoming)
    requires Boundary(r, r.base, v0, maxSteps) && Frontier(r, r.base, queue0)
    requires Documented(r, r.base, start, exec.nodeResults, exec.trace, exec.checkpoints, cancel, checkpointDue)
    requires !r.resumed ==> start.nodeResults == r.base
    requires exec.status == Running && exec.trace == [] && forall k :: cancel(k) ==> cancelSeen
    modifies exec
    ensures Ends(r, m, exec.status, maxSteps, cancelSeen)
    ensures Documented(r, m, start, exec.nodeResults, exec.trace, exec.checkpoints, cancel, checkpointDue)
    ensures exec.status == Cancelled ==> cancel(|exec.trace|)
    ensures exec.pausedAtNode == if exec.status.Paused? then Some(exec.status.node) else old(exec.pausedAtNode)
  {
    m := r.base;
    var queue, v, polls := queue0, v0, 0;
    while queue != []
      invariant Boundary(r, m, v, maxSteps)
      invariant Frontier(r, m, queue)
      invariant Documented(r, m, start, exec.nodeResults, exec.trace, exec.checkpoints, cancel, checkpointDue)
      invariant exec.status == Running && exec.pausedAtNode == old(exec.pausedAtNode)
      invariant polls == |exec.trace|
      decreases r.seeds + Endpoints(r.graph.edges) - m.Keys
    {
      var stuck;
      m, v, queue, polls, stuck := RunRound(exec, r, m, adjacency, incoming, v, queue, polls, maxSteps, cancel,
                                            checkpointDue, cancelSeen, start);
      if exec.status != Running {
        return;
      }
      if stuck {
        break;
      }
    }
    FinishedEnds(r, m, v, maxSteps, cancelSeen);
    exec.status := Finished;
  }

  /* ----- execute ----- */

  // Nodes without an incoming edge.
  function Roots(g: Graph): set<Id> {
    set n | n in g.nodes && forall e :: e in g.edges ==> e.target != n
  }

  // Roots without any edge that are not triggers; they are marked skipped and never run.
  function Orphans(g: Graph): set<Id> {
    set n | n in g.nodes && n !in Endpoints(g.edges) && !g.nodes[n].trigger
  }

  function FreshRun(g: Graph, f: (Id, Input) -> NodeRun): Run {
    Run(g, f, map n | n in Orphans(g) :: NodeResult.Skipped, Roots(g) - Orphans(g), false)
  }

  lemma FreshIsWellStarted(g: Graph, f: (Id, Input) -> NodeRun)
    ensures WellStarted(FreshRun(g, f))
    ensures Mirrors(FreshRun(g, f), FreshRun(g, f).base, Locals({}, {}, map[], 0))
  {
    var r := FreshRun(g, f);
    forall n, x | n in r.base && x in r.base
      ensures n !in Incoming(g.edges, x)
    {
      if n in Incoming(g.edges, x) {
        EndpointOfIncoming(g.edges, n, x);
      }
    }
  }

  // The elements of a set, in any order.
  method Listed(s: set<Id>) returns (q: seq<Id>)
    ensures forall n :: n in q <==> n in s
  {
    q := [];
    var rest := s;
    while rest != {}
      invariant rest <= s && forall n :: n in q <==> n in s - rest
    {
      var n :| n in rest;
      q, rest := q + [n], rest - {n};
    }
  }

  method Execute(exec: WorkflowExecution, g: Graph, f: (Id, Input) -> NodeRun, maxSteps: nat,
                 cancel: nat -> bool, checkpointDue: nat -> bool)
    returns (ghost m: map<Id, NodeResult>)
    requires exec.status == Pending && exec.nodeResults == map[] && exec.pausedAtNode == None
    requires exec.checkpoints == [] && exec.trace == []
    modifies exec
    ensures exec.nodeResults == m && Orderly(FreshRun(g, f), m, exec.trace)
    ensures if FreshRun(g, f).seeds == {} then exec.status == Failing(NoRootNode) && m == FreshRun(g, f).base
            else Ends(FreshRun(g, f), m, exec.status, maxSteps, CancelSeen(cancel))
    ensures exec.pausedAtNode == if exec.status.Paused? then Some(exec.status.node) else None
    ensures forall c :: c in exec.checkpoints ==> GoodCheckpoint(FreshRun(g, f), m, c)
    ensures exec.checkpoints == Saved(FreshRun(g, f).base, m, exec.trace, checkpointDue)
    ensures (forall i :: 0 <= i < |exec.trace| ==> !cancel(i)) && (exec.status == Cancelled ==> cancel(|exec.trace|))
  {
    exec.status := Running;
    var targets := set e | e in g.edges :: e.target;
    var connected := targets + set e | e in g.edges :: e.source;
    var roots := g.nodes.Keys - targets;
    var orphans := set n | n in roots && n !in connected && !g.nodes[n].trigger;
    roots := roots - orphans;
    exec.nodeResults := map n | n in orphans :: NodeResult.Skipped;
    var r := FreshRun(g, f);
    assert orphans == Orphans(g) && roots == r.seeds;
    assert exec.nodeResults == r.base;
    FreshIsWellStarted(g, f);
    if roots == {} {
      exec.status := Failing(NoRootNode);
      m := r.base;
      return;
    }
    var queue := Listed(roots);
    m := RunLoop(exec, r, queue, Locals({}, {}, map[], 0), maxSteps, cancel, checkpointDue);
    EndsIsSound(r, m, exec.status, maxSteps, CancelSeen(cancel));
    BasePlus(r, m);
  }

  lemma EndsIsSound(r: Run, m: map<Id, NodeResult>, status: Status, max: nat, cancelSeen: bool)
    requires Ends(r, m, status, max, cancelSeen)
    ensures Sound(r, m)
  {
  }

  /* ----- resume ----- */

  // What a stored document restores: completed and skipped nodes.  Failed ones are forgotten.
  function Restored(results: map<Id, NodeResult>): map<Id, NodeResult> {
    map n | n in results && !results[n].Failed? :: results[n]
  }

  // After an approval the run goes on at the children of the paused node; after a crash, anywhere.
  function ResumedRun(g: Graph, f: (Id, Input) -> NodeRun, results: map<Id, NodeResult>, pausedAt: Option<Id>): Run {
    var base := Restored(results);
    var seeds := match pausedAt
      case Some(p) => set c | c in Children(g.edges, p) && c !in base
      case None => g.nodes.Keys - base.Keys;
    Run(g, f, base, seeds, true)
  }

  // The executor's own variables after restoring these results.
  function RestoredLocals(results: map<Id, NodeResult>): Locals {
    var executed := set n | n in results && !results[n].Failed?;
    var outputs := map n | n in executed :: if results[n].Completed? then Value(results[n].output) else Null;
    Locals(executed, {}, outputs, |executed|)
  }

  lemma ResumedIsWellStarted(g: Graph, f: (Id, Input) -> NodeRun, results: map<Id, NodeResult>, pausedAt: Option<Id>)
    ensures var r, v := ResumedRun(g, f, results, pausedAt), RestoredLocals(results);
            WellStarted(r) && Mirrors(r, r.base, v) && v.steps == RestoredSteps(r) && v.executed == r.base.Keys
  {
    assert RestoredLocals(results).executed == Restored(results).Keys;
  }

  method SeedQueue(g: Graph, executed: set<Id>, pausedAt: Option<Id>) returns (queue: seq<Id>)
    ensures forall n :: n in queue <==> n !in executed && if pausedAt.Some? then n in Children(g.edges, pausedAt.value) else n in g.nodes
  {
    if pausedAt.Some? {
      queue := Enqueue(Children(g.edges, pausedAt.value), executed, []);
    } else {
      queue := Listed(g.nodes.Keys - executed);
    }
  }

  method Resume(exec: WorkflowExecution, g: Graph, f: (Id, Input) -> NodeRun, maxSteps: nat, approved: bool,
                cancel: nat -> bool)
    returns (accepted: bool, ghost r: Run, ghost m: map<Id, NodeResult>)
    modifies exec
    ensures accepted == (old(exec.status).Paused? || old(exec.status) == Resuming)
    ensures !accepted ==> unchanged(exec)
    ensures accepted && !approved ==>
              exec.status == Failing(Rejected) && exec.nodeResults == old(exec.nodeResults)
    ensures r == ResumedRun(g, f, old(exec.nodeResults), old(exec.pausedAtNode))
    ensures accepted && approved ==> Ends(r, m, exec.status, maxSteps, CancelSeen(cancel))
    ensures accepted && approved ==>
              Orderly(r, m, exec.trace) && exec.nodeResults == old(exec.nodeResults) + m &&
              exec.pausedAtNode == if exec.status.Paused? then Some(exec.status.node) else None
    ensures accepted && approved ==>
              (forall i :: 0 <= i < |exec.trace| ==> !cancel(i)) && (exec.status == Cancelled ==> cancel(|exec.trace|))
    ensures exec.checkpoints == old(exec.checkpoints)
  {
    var run := ResumedRun(g, f, exec.nodeResults, exec.pausedAtNode);
    r, m := run, map[];
    accepted := exec.status.Paused? || exec.status == Resuming;
    if !accepted {
      return;
    }
    if !approved {
      exec.status := Failing(Rejected);
      return;
    }
    r, m := GoOn(exec, g, f, maxSteps, cancel);
  }

  // Restore the stored results, and run on from there.
  method GoOn(exec: WorkflowExecution, g: Graph, f: (Id, Input) -> NodeRun, maxSteps: nat, cancel: nat -> bool)
    returns (ghost r: Run, ghost m: map<Id, NodeResult>)
    modifies exec
    ensures r == ResumedRun(g, f, old(exec.nodeResults), old(exec.pausedAtNode))
    ensures Ends(r, m, exec.status, maxSteps, CancelSeen(cancel))
    ensures Orderly(r, m, exec.trace) && exec.nodeResults == old(exec.nodeResults) + m
    ensures exec.pausedAtNode == if exec.status.Paused? then Some(exec.status.node) else None
    ensures (forall i :: 0 <= i < |exec.trace| ==> !cancel(i)) && (exec.status == Cancelled ==> cancel(|exec.trace|))
    ensures exec.checkpoints == old(exec.checkpoints)
  {
    var run := ResumedRun(g, f, exec.nodeResults, exec.pausedAtNode);
    r := run;
    var v := RestoredLocals(exec.nodeResults);
    ResumedIsWellStarted(g, f, exec.nodeResults, exec.pausedAtNode);
    var queue := SeedQueue(g, v.executed, exec.pausedAtNode);
    exec.status, exec.pausedAtNode := Running, None;
    exec.trace := [];
    m := RunLoop(exec, run, queue, v, maxSteps, cancel, _ => false);
  }
}
