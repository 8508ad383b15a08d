/** Directed multigraphs given by a list of edges, and what "acyclic" means for them. */
module Graphs {
  import opened Helpers

  type Id = string

  // `sourceHandle` and `caption` (the edge label) carry branch names.  `route` is the number that the source handle
  // denotes for a switch ("out-3" is 3, no handle is 0), or None when it denotes no number.
  datatype Edge = Edge(source: Id, target: Id, sourceHandle: Option<string>, caption: Option<string>, route: Option<int>)

  ghost predicate NoDuplicates<T(!new)>(s: seq<T>) {
    forall i, j :: 0 <= i < j < |s| ==> s[i] != s[j]
  }

  lemma TailHasNoDuplicates<T(!new)>(x: T, s: seq<T>)
    requires NoDuplicates([x] + s)
    ensures NoDuplicates(s) && x !in s
  {
    var t := [x] + s;
    forall i, j | 0 <= i < j < |s|
      ensures s[i] != s[j]
    {
      assert t[i + 1] == s[i] && t[j + 1] == s[j];
    }
    forall i | 0 <= i < |s|
      ensures s[i] != x
    {
      assert t[0] == x && t[i + 1] == s[i];
    }
  }

  // The sources of the edges into n, in edge order, one entry per parallel edge.
  function Incoming(edges: seq<Edge>, n: Id): (ps: seq<Id>) {
    if edges == [] then []
    else (if edges[0].target == n then [edges[0].source] else []) + Incoming(edges[1..], n)
  }

  // The targets of the edges out of n, in edge order, one entry per parallel edge.
  function Children(edges: seq<Edge>, n: Id): (cs: seq<Id>) {
    if edges == [] then []
    else (if edges[0].source == n then [edges[0].target] else []) + Children(edges[1..], n)
  }

  ghost predicate HasEdge(edges: seq<Edge>, a: Id, b: Id) {
    exists e :: e in edges && e.source == a && e.target == b
  }

  lemma {:induction false} IncomingIffEdge(edges: seq<Edge>, a: Id, b: Id)
    ensures a in Incoming(edges, b) <==> HasEdge(edges, a, b)
  {
    if edges == [] {
    } else {
      IncomingIffEdge(edges[1..], a, b);
      assert edges == [edges[0]] + edges[1..];
      assert HasEdge(edges, a, b) <==> (edges[0].source == a && edges[0].target == b) || HasEdge(edges[1..], a, b);
    }
  }

  lemma {:induction false} ChildrenIffEdge(edges: seq<Edge>, a: Id, b: Id)
    ensures b in Children(edges, a) <==> HasEdge(edges, a, b)
  {
    if edges == [] {
    } else {
      ChildrenIffEdge(edges[1..], a, b);
      assert edges == [edges[0]] + edges[1..];
      assert HasEdge(edges, a, b) <==> (edges[0].source == a && edges[0].target == b) || HasEdge(edges[1..], a, b);
    }
  }

  lemma IncomingChildren(edges: seq<Edge>, a: Id, b: Id)
    ensures a in Incoming(edges, b) <==> b in Children(edges, a)
  {
    IncomingIffEdge(edges, a, b);
    ChildrenIffEdge(edges, a, b);
  }

  // Every id an edge mentions.
  function Endpoints(edges: seq<Edge>): (s: set<Id>) {
    (set e | e in edges :: e.source) + (set e | e in edges :: e.target)
  }

  // A walk follows edges; it has at least one node.
  ghost predicate Walk(edges: seq<Edge>, w: seq<Id>) {
    |w| >= 1 && forall i :: 0 <= i < |w| - 1 ==> Hop(edges, w, i)
  }

  ghost predicate Hop(edges: seq<Edge>, w: seq<Id>, i: nat)
    requires i + 1 < |w|
  {
    HasEdge(edges, w[i], w[i + 1])
  }

  lemma WalkSlice(edges: seq<Edge>, w: seq<Id>, i: nat, j: nat)
    requires Walk(edges, w) && i < j <= |w|
    ensures Walk(edges, w[i..j])
  {
    forall k: nat | k < j - i - 1
      ensures Hop(edges, w[i..j], k)
    {
      assert Hop(edges, w, i + k);
    }
  }

  ghost predicate Cycle(edges: seq<Edge>, w: seq<Id>) {
    Walk(edges, w) && |w| >= 2 && w[0] == w[|w| - 1]
  }

  ghost predicate Acyclic(edges: seq<Edge>) {
    forall w :: !Cycle(edges, w)
  }

  // A ranking grows along every edge.
  ghost predicate Ranks(edges: seq<Edge>, rank: map<Id, nat>) {
    forall e :: e in edges ==> e.source in rank && e.target in rank && rank[e.source] < rank[e.target]
  }

  lemma {:induction false} RankGrowsAlongWalk(edges: seq<Edge>, rank: map<Id, nat>, w: seq<Id>)
    requires Ranks(edges, rank) && Walk(edges, w) && |w| >= 2
    ensures w[0] in rank && w[|w| - 1] in rank && rank[w[0]] < rank[w[|w| - 1]]
  {
    assert Hop(edges, w, |w| - 2);
    if |w| > 2 {
      WalkSlice(edges, w, 0, |w| - 1);
      RankGrowsAlongWalk(edges, rank, w[0..|w| - 1]);
    }
  }

  lemma RankedIsAcyclic(edges: seq<Edge>, rank: map<Id, nat>)
    requires Ranks(edges, rank)
    ensures Acyclic(edges)
  {
    forall w | Cycle(edges, w)
      ensures false
    {
      RankGrowsAlongWalk(edges, rank, w);
    }
  }

  lemma {:induction false} Pigeonhole(s: seq<Id>, u: set<Id>)
    requires forall x :: x in s ==> x in u
    requires |s| > |u|
    ensures exists i, j :: 0 <= i < j < |s| && s[i] == s[j]
  {
    var x := s[|s| - 1];
    var t := s[..|s| - 1];
    if x in t {
      var i :| 0 <= i < |t| && t[i] == x;
      assert s[i] == s[|s| - 1];
    } else {
      assert forall y :: y in t ==> y in u - {x};
      Pigeonhole(t, u - {x});
      var i, j :| 0 <= i < j < |t| && t[i] == t[j];
      assert s[i] == s[j];
    }
  }

  ghost predicate HasPredecessorIn(edges: seq<Edge>, u: set<Id>, v: Id) {
    exists p :: p in u && HasEdge(edges, p, v)
  }

  // A walk of any length inside a set whose members all have a predecessor in the set.
  lemma {:induction false} BackwardWalk(edges: seq<Edge>, u: set<Id>, k: nat) returns (w: seq<Id>)
    requires u != {}
    requires forall v :: v in u ==> HasPredecessorIn(edges, u, v)
    ensures Walk(edges, w) && |w| == k + 1 && forall x :: x in w ==> x in u
  {
    if k == 0 {
      var v :| v in u;
      w := [v];
    } else {
      var t := BackwardWalk(edges, u, k - 1);
      assert HasPredecessorIn(edges, u, t[0]);
      var p :| p in u && HasEdge(edges, p, t[0]);
      w := [p] + t;
      forall i: nat | i < |w| - 1
        ensures Hop(edges, w, i)
      {
        if i > 0 {
          assert Hop(edges, t, i - 1);
        }
      }
    }
  }

  // A finite set in which everybody has a predecessor contains a cycle.
  lemma PredecessorClosedHasCycle(edges: seq<Edge>, u: set<Id>)
    requires u != {}
    requires forall v :: v in u ==> HasPredecessorIn(edges, u, v)
    ensures !Acyclic(edges)
  {
    var w := BackwardWalk(edges, u, |u|);
    Pigeonhole(w, u);
    var i, j :| 0 <= i < j < |w| && w[i] == w[j];
    WalkSlice(edges, w, i, j + 1);
    assert Cycle(edges, w[i..j + 1]);
  }

  // An acyclic edge list can be ranked on any finite set of nodes closed under its edges.
  lemma {:induction false} RankSubset(edges: seq<Edge>, u: set<Id>) returns (rank: map<Id, nat>)
    requires Acyclic(edges)
    ensures rank.Keys == u
    ensures forall e :: e in edges && e.source in u && e.target in u ==> rank[e.source] < rank[e.target]
  {
    if u == {} {
      rank := map[];
    } else {
      if forall v :: v in u ==> HasPredecessorIn(edges, u, v) {
        PredecessorClosedHasCycle(edges, u);
      }
      var v :| v in u && !HasPredecessorIn(edges, u, v);
      var rest := RankSubset(edges, u - {v});
      rank := map x | x in u :: if x == v then 0 else rest[x] + 1;
      forall e | e in edges && e.source in u && e.target in u
        ensures rank[e.source] < rank[e.target]
      {
        assert HasEdge(edges, e.source, e.target);
      }
    }
  }

  // Having no cyclic walk and being rankable are the same thing.
  lemma AcyclicIffRanked(edges: seq<Edge>)
    ensures Acyclic(edges) <==> exists rank :: Ranks(edges, rank)
  {
    if Acyclic(edges) {
      var rank := RankSubset(edges, Endpoints(edges));
      assert Ranks(edges, rank);
    }
    if rank :| Ranks(edges, rank) {
      RankedIsAcyclic(edges, rank);
    }
  }
}
