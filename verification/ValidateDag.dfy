/** Structural validation of a workflow graph, with Kahn's algorithm as the cycle check. */
module ValidateDag {
  import opened Graphs

  datatype GraphError = UnknownSource(id: Id) | UnknownTarget(id: Id) | HasCycle | OrphanNodes(ids: set<Id>)

  /* ----- What a valid graph is ----- */

  ghost predicate EndpointsExist(ids: set<Id>, edges: seq<Edge>) {
    forall e :: e in edges ==> e.source in ids && e.target in ids
  }

  ghost predicate NobodyIsolated(ids: set<Id>, edges: seq<Edge>) {
    |ids| > 1 ==> forall n {:trigger n in Endpoints(edges)} :: n in ids ==> n in Endpoints(edges)
  }

  ghost predicate ValidGraph(ids: set<Id>, edges: seq<Edge>) {
    EndpointsExist(ids, edges) && Acyclic(edges) && NobodyIsolated(ids, edges)
  }

  /* ----- In-degrees ----- */

  // Edges into c whose source is not in `done`.
  function Waiting(edges: seq<Edge>, done: set<Id>, c: Id): nat {
    if edges == [] then 0
    else (if edges[0].target == c && edges[0].source !in done then 1 else 0) + Waiting(edges[1..], done, c)
  }

  function Occurrences(s: seq<Id>, c: Id): nat {
    if s == [] then 0 else (if s[0] == c then 1 else 0) + Occurrences(s[1..], c)
  }

  lemma {:induction false} WaitingAfter(edges: seq<Edge>, done: set<Id>, n: Id, c: Id)
    requires n !in done
    ensures Waiting(edges, done, c) == Waiting(edges, done + {n}, c) + Occurrences(Children(edges, n), c)
  {
    if edges != [] {
      WaitingAfter(edges[1..], done, n, c);
      var rest := Children(edges[1..], n);
      assert Children(edges, n) == (if edges[0].source == n then [edges[0].target] else []) + rest;
      if edges[0].source == n {
        assert ([edges[0].target] + rest)[1..] == rest;
      } else {
        assert [] + rest == rest;
      }
    }
  }

  lemma {:induction false} WaitingIffUnfinishedParent(edges: seq<Edge>, done: set<Id>, c: Id)
    ensures Waiting(edges, done, c) > 0 <==> exists p :: p !in done && HasEdge(edges, p, c)
  {
    if edges != [] {
      WaitingIffUnfinishedParent(edges[1..], done, c);
      assert edges == [edges[0]] + edges[1..];
      forall p
        ensures HasEdge(edges, p, c) <==> (edges[0].source == p && edges[0].target == c) || HasEdge(edges[1..], p, c)
      {
      }
    }
  }

  lemma {:induction false} WaitingAppend(edges: seq<Edge>, e: Edge, c: Id)
    ensures Waiting(edges + [e], {}, c) == Waiting(edges, {}, c) + if e.target == c then 1 else 0
  {
    if edges == [] {
      assert [e][1..] == [];
    } else {
      assert (edges + [e])[1..] == edges[1..] + [e];
      WaitingAppend(edges[1..], e, c);
    }
  }

  function Degree(inDegree: map<Id, int>, c: Id): int {
    if c in inDegree then inDegree[c] else 0
  }

  /* ----- The check ----- */

  // The nodes Kahn's algorithm has taken off the queue, the queue, and the remaining in-degrees.
  // A node is on the queue or done exactly when no unfinished edge leads to it; an unknown endpoint
  // takes part like any other node, unless nothing leads to it.
  ghost predicate Peeling(ids: set<Id>, edges: seq<Edge>, done: set<Id>, queue: seq<Id>, inDegree: map<Id, int>) {
    NoDuplicates(queue) &&
    (forall c :: c in queue ==> c !in done) &&
    (forall c :: Degree(inDegree, c) == Waiting(edges, done, c)) &&
    (forall c :: c in done || c in queue <==> Waiting(edges, done, c) == 0 && Peelable(ids, edges, c))
  }

  predicate Peelable(ids: set<Id>, edges: seq<Edge>, c: Id) {
    c in ids || exists e :: e in edges && e.target == c
  }

  // Half-way through the children of n: those in `left` have not been visited yet.
  ghost predicate PeelingChildren(edges: seq<Edge>, all: set<Id>, done: set<Id>, left: seq<Id>, queue: seq<Id>,
                                  inDegree: map<Id, int>) {
    NoDuplicates(queue) &&
    (forall c :: c in queue ==> c !in done) &&
    (forall c :: Degree(inDegree, c) == Waiting(edges, done, c) + Occurrences(left, c)) &&
    (forall c :: c in done || c in queue <==> Degree(inDegree, c) == 0 && c in all)
  }

  lemma StartChildren(ids: set<Id>, edges: seq<Edge>, all: set<Id>, done: set<Id>, n: Id, queue: seq<Id>, inDegree: map<Id, int>)
    requires forall c :: c in all <==> Peelable(ids, edges, c)
    requires Peeling(ids, edges, done, [n] + queue, inDegree)
    ensures PeelingChildren(edges, all, done + {n}, Children(edges, n), queue, inDegree)
  {
    TailHasNoDuplicates(n, queue);
    assert n in [n] + queue;
    forall c
      ensures Degree(inDegree, c) == Waiting(edges, done + {n}, c) + Occurrences(Children(edges, n), c)
    {
      WaitingAfter(edges, done, n, c);
    }
    forall c
      ensures c in done + {n} || c in queue <==> Degree(inDegree, c) == 0 && c in all
    {
      assert c in done || c in [n] + queue <==> Waiting(edges, done, c) == 0 && Peelable(ids, edges, c);
    }
  }

  // One child: its degree drops, and it is queued when the last edge is gone.
  method VisitChild(edges: seq<Edge>, ghost all: set<Id>, ghost done: set<Id>, children: seq<Id>, i: nat,
                    queue0: seq<Id>, inDegree0: map<Id, int>)
    returns (queue: seq<Id>, inDegree: map<Id, int>)
    requires i < |children| && children[i] in all
    requires PeelingChildren(edges, all, done, children[i..], queue0, inDegree0)
    ensures PeelingChildren(edges, all, done, children[i + 1..], queue, inDegree)
  {
    queue := queue0;
    var child := children[i];
    assert children[i..] == [child] + children[i + 1..];
    assert Degree(inDegree0, child) == Waiting(edges, done, child) + Occurrences(children[i..], child) > 0;
    inDegree := inDegree0[child := Degree(inDegree0, child) - 1];
    assert forall c :: c != child ==> Degree(inDegree, c) == Degree(inDegree0, c);
    if inDegree[child] == 0 {
      queue := queue + [child];
    }
  }

  method VisitChildren(ids: set<Id>, edges: seq<Edge>, ghost done: set<Id>, n: Id, queue0: seq<Id>, inDegree0: map<Id, int>)
    returns (queue: seq<Id>, inDegree: map<Id, int>)
    requires Peeling(ids, edges, done, [n] + queue0, inDegree0)
    ensures Peeling(ids, edges, done + {n}, queue, inDegree)
  {
    ghost var all := ids + set e | e in edges :: e.target;
    queue, inDegree := queue0, inDegree0;
    var children := Children(edges, n);
    StartChildren(ids, edges, all, done, n, queue0, inDegree0);
    assert children[0..] == children;
    for i := 0 to |children|
      invariant PeelingChildren(edges, all, done + {n}, children[i..], queue, inDegree)
    {
      ChildIsPeelable(ids, edges, n, children[i]);
      queue, inDegree := VisitChild(edges, all, done + {n}, children, i, queue, inDegree);
    }
    assert children[|children|..] == [];
  }

  lemma ChildIsPeelable(ids: set<Id>, edges: seq<Edge>, n: Id, c: Id)
    requires c in Children(edges, n)
    ensures Peelable(ids, edges, c)
  {
    ChildrenIffEdge(edges, n, c);
  }

  method CountInDegrees(ids: set<Id>, edges: seq<Edge>) returns (inDegree: map<Id, int>)
    ensures forall c :: Degree(inDegree, c) == Waiting(edges, {}, c)
  {
    inDegree := map n | n in ids :: 0;
    for i := 0 to |edges|
      invariant forall c :: Degree(inDegree, c) == Waiting(edges[..i], {}, c)
    {
      assert edges[..i + 1] == edges[..i] + [edges[i]];
      forall c
        ensures Waiting(edges[..i + 1], {}, c) == Waiting(edges[..i], {}, c) + if edges[i].target == c then 1 else 0
      {
        WaitingAppend(edges[..i], edges[i], c);
      }
      ghost var was := inDegree;
      inDegree := inDegree[edges[i].target := Degree(inDegree, edges[i].target) + 1];
      assert forall c :: Degree(inDegree, c) == Degree(was, c) + if edges[i].target == c then 1 else 0;
    }
    assert edges[..|edges|] == edges;
  }

  // `rank` numbers the finished nodes in the order in which they were finished.
  ghost predicate FinishedInOrder(edges: seq<Edge>, done: set<Id>, rank: map<Id, nat>) {
    rank.Keys == done &&
    (forall n :: n in done ==> rank[n] < |done|) &&
    (forall e :: e in edges && e.target in done ==> e.source in done && rank[e.source] < rank[e.target])
  }

  lemma FinishOne(edges: seq<Edge>, done: set<Id>, rank: map<Id, nat>, n: Id)
    requires FinishedInOrder(edges, done, rank) && n !in done && Waiting(edges, done, n) == 0
    ensures FinishedInOrder(edges, done + {n}, rank[n := |done|])
  {
    WaitingIffUnfinishedParent(edges, done, n);
    forall e | e in edges && e.target == n
      ensures e.source in done
    {
      assert HasEdge(edges, e.source, n);
    }
  }

  // When the queue runs empty, the finished nodes are all of them exactly if there is no cycle.
  lemma PeeledIffAcyclic(ids: set<Id>, edges: seq<Edge>, done: set<Id>, inDegree: map<Id, int>, rank: map<Id, nat>)
    requires EndpointsExist(ids, edges)
    requires Peeling(ids, edges, done, [], inDegree) && FinishedInOrder(edges, done, rank)
    ensures |done| < |ids| <==> !Acyclic(edges)
  {
    forall c | c in done
      ensures c in ids
    {
      assert Peelable(ids, edges, c);
    }
    if ids == done {
      assert Ranks(edges, rank);
      RankedIsAcyclic(edges, rank);
    } else {
      var left := ids - done;
      assert left != {} && |ids| == |done| + |left| by {
        assert ids == done + left;
      }
      forall v | v in left
        ensures HasPredecessorIn(edges, left, v)
      {
        assert v !in done && Peelable(ids, edges, v);
        WaitingIffUnfinishedParent(edges, done, v);
        var p :| p !in done && HasEdge(edges, p, v);
        assert p in left;
      }
      PredecessorClosedHasCycle(edges, left);
    }
  }

  method InitialQueue(ids: set<Id>, edges: seq<Edge>, inDegree: map<Id, int>) returns (queue: seq<Id>)
    requires forall c :: Degree(inDegree, c) == Waiting(edges, {}, c)
    ensures Peeling(ids, edges, {}, queue, inDegree)
  {
    queue := [];
    var starts := set n | n in ids && Degree(inDegree, n) == 0;
    var rest := starts;
    while rest != {}
      invariant rest <= starts && NoDuplicates(queue) && forall n :: n in queue <==> n in starts - rest
    {
      var n :| n in rest;
      assert n !in queue;
      queue, rest := queue + [n], rest - {n};
    }
    forall c
      ensures c in queue <==> Waiting(edges, {}, c) == 0 && Peelable(ids, edges, c)
    {
      WaitingIffUnfinishedParent(edges, {}, c);
      if e :| e in edges && e.target == c {
        assert HasEdge(edges, e.source, c);
      }
    }
  }

  method CountPeeled(ids: set<Id>, edges: seq<Edge>) returns (visited: nat)
    ensures EndpointsExist(ids, edges) ==> (visited < |ids| <==> !Acyclic(edges))
  {
    var inDegree := CountInDegrees(ids, edges);
    var queue := InitialQueue(ids, edges, inDegree);
    visited := 0;
    ghost var done: set<Id>, rank: map<Id, nat> := {}, map[];
    ghost var vertices := ids + Endpoints(edges);
    while queue != []
      invariant Peeling(ids, edges, done, queue, inDegree)
      invariant FinishedInOrder(edges, done, rank) && visited == |done|
      decreases vertices - done
    {
      var n := queue[0];
      assert queue == [n] + queue[1..];
      assert n in queue;
      FinishOne(edges, done, rank, n);
      ghost var was := done;
      queue, inDegree := VisitChildren(ids, edges, done, n, queue[1..], inDegree);
      done, rank := done + {n}, rank[n := |done|];
      visited := visited + 1;
      assert n in vertices - was && n !in vertices - done;
    }
    if EndpointsExist(ids, edges) {
      PeeledIffAcyclic(ids, edges, done, inDegree, rank);
    }
  }

  function IdSet(nodes: seq<Id>): set<Id> {
    set n | n in nodes
  }

  lemma OrphansAreIsolated(ids: set<Id>, edges: seq<Edge>)
    ensures NobodyIsolated(ids, edges) <==> |ids| <= 1 || ids - Endpoints(edges) == {}
  {
    if ids - Endpoints(edges) == {} {
      forall n | n in ids
        ensures n in Endpoints(edges)
      {
        assert n !in ids - Endpoints(edges);
      }
    } else {
      var n :| n in ids - Endpoints(edges);
    }
  }

  // The nodes at no end of any edge.
  ghost function Untouched(ids: set<Id>, edges: seq<Edge>): set<Id> {
    set n | n in ids && forall e :: e in edges ==> e.source != n && e.target != n
  }

  lemma UntouchedAreNoEndpoints(ids: set<Id>, edges: seq<Edge>)
    ensures Untouched(ids, edges) == ids - Endpoints(edges)
  {
  }

  method CheckEndpoints(ids: set<Id>, edges: seq<Edge>) returns (errors: seq<GraphError>)
    ensures errors == [] <==> EndpointsExist(ids, edges)
    ensures forall x :: x in errors ==> x.UnknownSource? || x.UnknownTarget?
    ensures forall n :: UnknownSource(n) in errors <==> n !in ids && exists e :: e in edges && e.source == n
    ensures forall n :: UnknownTarget(n) in errors <==> n !in ids && exists e :: e in edges && e.target == n
  {
    errors := [];
    for i := 0 to |edges|
      invariant errors == [] <==> EndpointsExist(ids, edges[..i])
      invariant forall x :: x in errors ==> x.UnknownSource? || x.UnknownTarget?
      invariant forall n :: UnknownSource(n) in errors <==> n !in ids && exists e :: e in edges[..i] && e.source == n
      invariant forall n :: UnknownTarget(n) in errors <==> n !in ids && exists e :: e in edges[..i] && e.target == n
    {
      var e := edges[i];
      assert edges[..i + 1] == edges[..i] + [e];
      if e.source !in ids {
        errors := errors + [UnknownSource(e.source)];
      }
      if e.target !in ids {
        errors := errors + [UnknownTarget(e.target)];
      }
    }
    assert edges[..|edges|] == edges;
  }

  // The errors found, in order of discovery; none means the graph is valid.
  method Validate(nodes: seq<Id>, edges: seq<Edge>) returns (errors: seq<GraphError>)
    ensures nodes == [] ==> errors == []
    ensures nodes != [] ==> (errors == [] <==> ValidGraph(IdSet(nodes), edges))
    ensures forall n :: UnknownSource(n) in errors <==> nodes != [] && n !in nodes && exists e :: e in edges && e.source == n
    ensures forall n :: UnknownTarget(n) in errors <==> nodes != [] && n !in nodes && exists e :: e in edges && e.target == n
    ensures nodes != [] && EndpointsExist(IdSet(nodes), edges) ==> (HasCycle in errors <==> !Acyclic(edges))
    ensures forall ids :: OrphanNodes(ids) in errors <==> |IdSet(nodes)| > 1 && ids != {} && ids == Untouched(IdSet(nodes), edges)
  {
    if nodes == [] {
      return [];
    }
    var ids := IdSet(nodes);
    errors := CheckEndpoints(ids, edges);
    OrphansAreIsolated(ids, edges);
    UntouchedAreNoEndpoints(ids, edges);
    var visited := CountPeeled(ids, edges);
    if visited < |ids| {
      errors := errors + [HasCycle];
    }
    if |ids| > 1 {
      var orphans := ids - Endpoints(edges);
      if orphans != {} {
        errors := errors + [OrphanNodes(orphans)];
      }
    }
  }
}
