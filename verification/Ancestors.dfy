/** The breadth-first search for the ancestors of a node, over any finite graph, cyclic or not. */
module Ancestors {
  import opened Graphs

  function Parents(incoming: map<Id, seq<Id>>, n: Id): seq<Id> {
    if n in incoming then incoming[n] else []
  }

  // There are k >= 1 edges to walk backwards from `node` to n.
  ghost predicate Ancestor(incoming: map<Id, seq<Id>>, node: Id, n: Id, k: nat)
    decreases k
  {
    if k == 0 then false
    else if k == 1 then n in Parents(incoming, node)
    else exists q :: Ancestor(incoming, node, q, k - 1) && n in Parents(incoming, q)
  }

  ghost predicate IsAncestor(incoming: map<Id, seq<Id>>, node: Id, n: Id) {
    exists k :: Ancestor(incoming, node, n, k)
  }

  ghost predicate Distance(incoming: map<Id, seq<Id>>, node: Id, n: Id, k: nat) {
    Ancestor(incoming, node, n, k) && forall j: nat :: j < k ==> !Ancestor(incoming, node, n, j)
  }

  ghost predicate NearestFirst(incoming: map<Id, seq<Id>>, node: Id, s: seq<Id>) {
    forall i, j, k, l :: 0 <= i < j < |s| && Distance(incoming, node, s[i], k) && Distance(incoming, node, s[j], l) ==> k <= l
  }

  function Sources(incoming: map<Id, seq<Id>>): set<Id> {
    set n, i | n in incoming && 0 <= i < |incoming[n]| :: incoming[n][i]
  }

  lemma ParentIsSource(incoming: map<Id, seq<Id>>, n: Id, p: Id)
    requires p in Parents(incoming, n)
    ensures p in Sources(incoming)
  {
    var i :| 0 <= i < |incoming[n]| && incoming[n][i] == p;
  }

  // `seen` lists the visited nodes in the order of discovery; the first `processed` of them are off the queue.
  ghost predicate Exploring(incoming: map<Id, seq<Id>>, node: Id, seen: seq<Id>, processed: nat, depth: map<Id, nat>) {
    processed <= |seen| && ByDepth(seen, depth) &&
    (forall n :: n in seen <==> n in depth) &&
    (forall n :: n in depth ==> n in Sources(incoming) && Ancestor(incoming, node, n, depth[n]))
  }

  // Everybody discovered so far is at most one step further away than the head of the queue.
  ghost predicate Shallow(seen: seq<Id>, depth: map<Id, nat>, d: nat) {
    forall n :: n in seen ==> n in depth && depth[n] <= d
  }

  ghost predicate Expanded(incoming: map<Id, seq<Id>>, q: Id, depth: map<Id, nat>, d: nat) {
    forall p :: p in Parents(incoming, q) ==> p in depth && depth[p] <= d
  }

  // Nodes that are all in the table, without duplicates and by depth.
  ghost predicate ByDepth(seen: seq<Id>, depth: map<Id, nat>) {
    NoDuplicates(seen) && (forall n :: n in seen ==> n in depth) &&
    forall i, j :: 0 <= i < j < |seen| ==> depth[seen[i]] <= depth[seen[j]]
  }

  lemma DeepestLast(seen: seq<Id>, depth: map<Id, nat>, p: Id, d: nat)
    requires ByDepth(seen, depth) && Shallow(seen, depth, d) && p !in depth
    ensures ByDepth(seen + [p], depth[p := d])
  {
    var seen', depth' := seen + [p], depth[p := d];
    assert forall i :: 0 <= i < |seen| ==> seen[i] in seen;
    forall i, j | 0 <= i < j < |seen'|
      ensures seen'[i] != seen'[j] && depth'[seen'[i]] <= depth'[seen'[j]]
    {
      assert seen'[i] == seen[i] && (j < |seen| ==> seen'[j] == seen[j]);
    }
  }

  lemma DiscoverOne(incoming: map<Id, seq<Id>>, node: Id, seen: seq<Id>, processed: nat, depth: map<Id, nat>, p: Id, d: nat)
    requires Exploring(incoming, node, seen, processed, depth) && Shallow(seen, depth, d)
    requires p !in depth && p in Sources(incoming) && Ancestor(incoming, node, p, d)
    ensures Exploring(incoming, node, seen + [p], processed, depth[p := d]) && Shallow(seen + [p], depth[p := d], d)
  {
    DeepestLast(seen, depth, p, d);
    assert forall n :: n in seen + [p] <==> n in seen || n == p;
    forall n | n in depth[p := d]
      ensures n in Sources(incoming) && Ancestor(incoming, node, n, depth[p := d][n])
    {
      assert n != p ==> Ancestor(incoming, node, n, depth[n]);
    }
  }

  // Discover the parents of one node; all new ones are at depth d.
  method Discover(incoming: map<Id, seq<Id>>, node: Id, q: Id, ghost seen0: seq<Id>, ghost processed: nat,
                  visited0: set<Id>, queue0: seq<Id>, ghost depth0: map<Id, nat>, ghost d: nat)
    returns (ghost seen: seq<Id>, visited: set<Id>, queue: seq<Id>, ghost depth: map<Id, nat>)
    requires Exploring(incoming, node, seen0, processed, depth0) && Shallow(seen0, depth0, d)
    requires queue0 == seen0[processed..] && visited0 == depth0.Keys
    requires forall p :: p in Parents(incoming, q) ==> Ancestor(incoming, node, p, d)
    ensures Exploring(incoming, node, seen, processed, depth) && Shallow(seen, depth, d)
    ensures queue == seen[processed..] && visited == depth.Keys
    ensures |seen0| <= |seen| && seen[..|seen0|] == seen0
    ensures forall n :: n in depth0 ==> n in depth && depth[n] == depth0[n]
    ensures Expanded(incoming, q, depth, d)
  {
    seen, visited, queue, depth := seen0, visited0, queue0, depth0;
    var ps := Parents(incoming, q);
    for i := 0 to |ps|
      invariant Exploring(incoming, node, seen, processed, depth) && Shallow(seen, depth, d)
      invariant queue == seen[processed..] && visited == depth.Keys
      invariant |seen0| <= |seen| && seen[..|seen0|] == seen0
      invariant forall n :: n in depth0 ==> n in depth && depth[n] == depth0[n]
      invariant forall j :: 0 <= j < i ==> ps[j] in depth && depth[ps[j]] <= d
    {
      var p := ps[i];
      ParentIsSource(incoming, q, p);
      if p !in visited {
        DiscoverOne(incoming, node, seen, processed, depth, p, d);
        queue, visited := queue + [p], visited + {p};
        seen, depth := seen + [p], depth[p := d];
      } else {
        assert p in seen;
      }
      assert p in depth && depth[p] <= d;
    }
  }

  lemma SeenFits(incoming: map<Id, seq<Id>>, node: Id, seen: seq<Id>, processed: nat, depth: map<Id, nat>)
    requires Exploring(incoming, node, seen, processed, depth)
    ensures |seen| <= |Sources(incoming)|
  {
    if |seen| > |Sources(incoming)| {
      Pigeonhole(seen, Sources(incoming));
    }
  }

  lemma {:induction false} DepthIsShortest(incoming: map<Id, seq<Id>>, node: Id, depth: map<Id, nat>, n: Id, k: nat)
    requires Expanded(incoming, node, depth, 1)
    requires forall q :: q in depth ==> Expanded(incoming, q, depth, depth[q] + 1)
    requires Ancestor(incoming, node, n, k)
    ensures n in depth && depth[n] <= k
    decreases k
  {
    if k > 1 {
      var q :| Ancestor(incoming, node, q, k - 1) && n in Parents(incoming, q);
      DepthIsShortest(incoming, node, depth, q, k - 1);
      assert Expanded(incoming, q, depth, depth[q] + 1);
    }
  }

  // The state of the search when the first `processed` nodes have had their parents discovered.
  ghost predicate Searching(incoming: map<Id, seq<Id>>, node: Id, seen: seq<Id>, processed: nat, depth: map<Id, nat>) {
    Exploring(incoming, node, seen, processed, depth) && Expanded(incoming, node, depth, 1) &&
    (processed < |seen| ==> Shallow(seen, depth, depth[seen[processed]] + 1)) &&
    (forall i :: 0 <= i < processed ==> Expanded(incoming, seen[i], depth, depth[seen[i]] + 1))
  }

  lemma PrefixKept(was: seq<Id>, now: seq<Id>, k: nat)
    requires k <= |was| <= |now| && now[..|was|] == was
    ensures now == was[..k] + now[k..]
  {
    assert now[..k] == now[..|was|][..k];
  }

  lemma NextProcessed(incoming: map<Id, seq<Id>>, node: Id, seen0: seq<Id>, processed: nat, depth0: map<Id, nat>,
                      seen: seq<Id>, depth: map<Id, nat>)
    requires Searching(incoming, node, seen0, processed, depth0) && processed < |seen0|
    requires Exploring(incoming, node, seen, processed + 1, depth)
    requires Shallow(seen, depth, depth0[seen0[processed]] + 1)
    requires |seen0| <= |seen| && seen[..|seen0|] == seen0
    requires forall n :: n in depth0 ==> n in depth && depth[n] == depth0[n]
    requires Expanded(incoming, seen0[processed], depth, depth0[seen0[processed]] + 1)
    ensures Searching(incoming, node, seen, processed + 1, depth)
  {
    forall i | 0 <= i < |seen0|
      ensures seen[i] == seen0[i] && depth[seen[i]] == depth0[seen0[i]]
    {
      assert seen[..|seen0|][i] == seen0[i] && seen0[i] in seen0;
    }
    forall i | 0 <= i < processed + 1
      ensures Expanded(incoming, seen[i], depth, depth[seen[i]] + 1)
    {
      assert seen[i] == seen0[i];
      if i < processed {
        assert Expanded(incoming, seen0[i], depth0, depth0[seen0[i]] + 1);
      }
    }
    if processed + 1 < |seen| {
      assert depth[seen[processed]] <= depth[seen[processed + 1]];
    }
  }

  // What the queue-driven search has found when the queue is empty.
  lemma SearchIsExact(incoming: map<Id, seq<Id>>, node: Id, seen: seq<Id>, depth: map<Id, nat>)
    requires Exploring(incoming, node, seen, |seen|, depth) && Expanded(incoming, node, depth, 1)
    requires forall q :: q in depth ==> Expanded(incoming, q, depth, depth[q] + 1)
    ensures forall n :: n in seen <==> IsAncestor(incoming, node, n)
    ensures NearestFirst(incoming, node, seen)
  {
    forall n, k | Ancestor(incoming, node, n, k)
      ensures n in depth && depth[n] <= k
    {
      DepthIsShortest(incoming, node, depth, n, k);
    }
    forall n | IsAncestor(incoming, node, n)
      ensures n in seen
    {
      var k :| Ancestor(incoming, node, n, k);
      assert n in depth;
    }
    forall n | n in seen
      ensures IsAncestor(incoming, node, n)
    {
      assert Ancestor(incoming, node, n, depth[n]);
    }
    forall n, k | n in seen && Distance(incoming, node, n, k)
      ensures k == depth[n]
    {
      assert Ancestor(incoming, node, n, depth[n]);
    }
    forall i, j, k, l | 0 <= i < j < |seen| && Distance(incoming, node, seen[i], k) && Distance(incoming, node, seen[j], l)
      ensures k <= l
    {
      assert seen[i] in seen && seen[j] in seen;
    }
  }

  lemma SearchEnds(incoming: map<Id, seq<Id>>, node: Id, seen: seq<Id>, depth: map<Id, nat>)
    requires Searching(incoming, node, seen, |seen|, depth)
    ensures forall n :: n in seen <==> IsAncestor(incoming, node, n)
    ensures NearestFirst(incoming, node, seen) && NoDuplicates(seen)
  {
    forall q | q in depth
      ensures Expanded(incoming, q, depth, depth[q] + 1)
    {
      assert q in seen;
    }
    SearchIsExact(incoming, node, seen, depth);
  }

  lemma OneFurther(incoming: map<Id, seq<Id>>, node: Id, q: Id, d: nat)
    requires Ancestor(incoming, node, q, d)
    ensures forall p :: p in Parents(incoming, q) ==> Ancestor(incoming, node, p, d + 1)
  {
  }

  // Take the head off the queue and discover its parents.
  method Process(incoming: map<Id, seq<Id>>, node: Id, ghost seen0: seq<Id>, ghost processed: nat,
                 visited0: set<Id>, queue0: seq<Id>, ghost depth0: map<Id, nat>)
    returns (ghost seen: seq<Id>, visited: set<Id>, queue: seq<Id>, ghost depth: map<Id, nat>)
    requires Searching(incoming, node, seen0, processed, depth0) && processed < |seen0|
    requires queue0 == seen0[processed..] && visited0 == depth0.Keys
    ensures Searching(incoming, node, seen, processed + 1, depth)
    ensures queue == seen[processed + 1..] && visited == depth.Keys
    ensures |seen0| <= |seen| && seen[..|seen0|] == seen0
  {
    var current := queue0[0];
    assert current == seen0[processed] && current in seen0;
    OneFurther(incoming, node, current, depth0[current]);
    seen, visited, queue, depth := Discover(incoming, node, current, seen0, processed + 1, visited0, queue0[1..], depth0,
                                            depth0[current] + 1);
    NextProcessed(incoming, node, seen0, processed, depth0, seen, depth);
  }

  // What the search keeps: the nodes taken off the queue are the result, and the rest of those seen is queued.
  ghost predicate AtHead(incoming: map<Id, seq<Id>>, node: Id, seen: seq<Id>, depth: map<Id, nat>,
                         result: seq<Id>, queue: seq<Id>, visited: set<Id>) {
    Searching(incoming, node, seen, |result|, depth) && seen == result + queue && visited == depth.Keys
  }

  lemma HeadTaken(incoming: map<Id, seq<Id>>, node: Id, seen: seq<Id>, depth: map<Id, nat>,
                  result: seq<Id>, queue: seq<Id>, visited: set<Id>)
    requires AtHead(incoming, node, seen, depth, result, queue, visited) && queue != []
    ensures |result| < |seen| <= |Sources(incoming)| && queue == seen[|result|..] && result + [queue[0]] == seen[..|result| + 1]
  {
    SeenFits(incoming, node, seen, |result|, depth);
  }

  // Off the queue, into the result, and its parents onto the queue.
  method Advance(incoming: map<Id, seq<Id>>, node: Id, ghost seen0: seq<Id>, ghost depth0: map<Id, nat>,
                 result0: seq<Id>, queue0: seq<Id>, visited0: set<Id>)
    returns (ghost seen: seq<Id>, ghost depth: map<Id, nat>, result: seq<Id>, queue: seq<Id>, visited: set<Id>)
    requires AtHead(incoming, node, seen0, depth0, result0, queue0, visited0) && queue0 != []
    ensures AtHead(incoming, node, seen, depth, result, queue, visited)
    ensures |result| == |result0| + 1 <= |Sources(incoming)|
  {
    HeadTaken(incoming, node, seen0, depth0, result0, queue0, visited0);
    result := result0 + [queue0[0]];
    seen, visited, queue, depth := Process(incoming, node, seen0, |result0|, visited0, queue0, depth0);
    PrefixKept(seen0, seen, |result0| + 1);
  }

  // Exactly the nodes with a path to `node`, once each, in order of distance.
  method AllAncestors(incoming: map<Id, seq<Id>>, node: Id) returns (result: seq<Id>)
    ensures NoDuplicates(result)
    ensures forall n :: n in result <==> IsAncestor(incoming, node, n)
    ensures NearestFirst(incoming, node, result)
  {
    var visited: set<Id>, queue: seq<Id>;
    ghost var seen: seq<Id>, depth: map<Id, nat>;
    seen, visited, queue, depth := Discover(incoming, node, node, [], 0, {}, [], map[], 1);
    result := [];
    while queue != []
      invariant AtHead(incoming, node, seen, depth, result, queue, visited)
      decreases |Sources(incoming)| - |result|
    {
      seen, depth, result, queue, visited := Advance(incoming, node, seen, depth, result, queue, visited);
    }
    assert seen == result;
    SearchEnds(incoming, node, seen, depth);
  }
}
