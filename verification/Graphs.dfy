/**
 The two worklist checks the Delivery ART validator composes, and what they decide.

 An edge list may name nodes outside the node set, repeat an edge, or hold a self-loop.
 `Walk` is the reference notion both checks are proved exact against.
 */
module Graphs {
  type Id = string

  datatype Edge = Edge(source: Id, target: Id)

  // ----- walks

  /** Consecutive nodes of a walk are joined by an edge; a walk has at least one edge. */
  ghost predicate IsWalk(edges: seq<Edge>, walk: seq<Id>) {
    && |walk| >= 2
    && forall i :: 0 <= i < |walk| - 1 ==> Edge(walk[i], walk[i + 1]) in edges
  }

  ghost predicate WalkBetween(edges: seq<Edge>, walk: seq<Id>, start: Id, target: Id) {
    IsWalk(edges, walk) && walk[0] == start && walk[|walk| - 1] == target
  }

  /** A non-empty walk leads from `start` to `target`. */
  ghost predicate Reaches(edges: seq<Edge>, start: Id, target: Id) {
    exists walk: seq<Id> :: WalkBetween(edges, walk, start, target)
  }

  ghost predicate HasCycle(edges: seq<Edge>) {
    exists v: Id :: Reaches(edges, v, v)
  }

  /** The edges with both ends among `nodes`, in their original order. */
  function Inside(nodes: set<Id>, edges: seq<Edge>): (inside: seq<Edge>)
    ensures forall e :: e in inside <==> e in edges && e.source in nodes && e.target in nodes
  {
    if edges == [] then [] else
      var rest := Inside(nodes, edges[..|edges| - 1]);
      var last := edges[|edges| - 1];
      if last.source in nodes && last.target in nodes then rest + [last] else rest
  }

  lemma OneEdgeReaches(edges: seq<Edge>, e: Edge)
    requires e in edges
    ensures Reaches(edges, e.source, e.target)
  {
    assert WalkBetween(edges, [e.source, e.target], e.source, e.target);
  }

  lemma ReachesTransitive(edges: seq<Edge>, a: Id, b: Id, c: Id)
    requires Reaches(edges, a, b) && Reaches(edges, b, c)
    ensures Reaches(edges, a, c)
  {
    var left :| WalkBetween(edges, left, a, b);
    var right :| WalkBetween(edges, right, b, c);
    var walk := left + right[1..];
    forall i | 0 <= i < |walk| - 1
      ensures Edge(walk[i], walk[i + 1]) in edges
    {
      if i < |left| - 1 {
        assert walk[i] == left[i] && walk[i + 1] == left[i + 1];
      } else {
        var j := i - (|left| - 1);
        assert walk[i] == right[j] && walk[i + 1] == right[j + 1];
      }
    }
    assert WalkBetween(edges, walk, a, c);
  }

  lemma ReachesMonotone(small: seq<Edge>, large: seq<Edge>, a: Id, b: Id)
    requires forall e :: e in small ==> e in large
    requires Reaches(small, a, b)
    ensures Reaches(large, a, b)
  {
    var walk :| WalkBetween(small, walk, a, b);
    assert WalkBetween(large, walk, a, b);
  }

  // ----- linear orders

  /** `order` lists every node exactly once. */
  ghost predicate Lists(nodes: set<Id>, order: seq<Id>) {
    && (forall v :: v in nodes <==> v in order)
    && forall i, j :: 0 <= i < j < |order| ==> order[i] != order[j]
  }

  ghost predicate Precedes(order: seq<Id>, a: Id, b: Id) {
    exists i, j :: 0 <= i < j < |order| && order[i] == a && order[j] == b
  }

  ghost predicate Respects(order: seq<Id>, edges: seq<Edge>) {
    forall e :: e in edges ==> Precedes(order, e.source, e.target)
  }

  ghost predicate TopologicalOrder(nodes: set<Id>, edges: seq<Edge>, order: seq<Id>) {
    Lists(nodes, order) && Respects(order, edges)
  }

  lemma PrecedesTransitive(nodes: set<Id>, order: seq<Id>, a: Id, b: Id, c: Id)
    requires Lists(nodes, order) && Precedes(order, a, b) && Precedes(order, b, c)
    ensures Precedes(order, a, c)
  {
    var i, j :| 0 <= i < j < |order| && order[i] == a && order[j] == b;
    var k, l :| 0 <= k < l < |order| && order[k] == b && order[l] == c;
    assert j == k;
  }

  lemma PrecedesIrreflexive(nodes: set<Id>, order: seq<Id>, a: Id)
    requires Lists(nodes, order)
    ensures !Precedes(order, a, a)
  {
  }

  /** An order that respects every edge respects every walk. */
  lemma {:induction false} WalkRespectsOrder(nodes: set<Id>, edges: seq<Edge>, order: seq<Id>, walk: seq<Id>)
    requires Lists(nodes, order) && Respects(order, edges) && IsWalk(edges, walk)
    ensures Precedes(order, walk[0], walk[|walk| - 1])
    decreases |walk|
  {
    var n := |walk|;
    assert Precedes(order, Edge(walk[n - 2], walk[n - 1]).source, Edge(walk[n - 2], walk[n - 1]).target);
    if n > 2 {
      WalkRespectsOrder(nodes, edges, order, walk[..n - 1]);
      PrecedesTransitive(nodes, order, walk[0], walk[n - 2], walk[n - 1]);
    }
  }

  lemma ReachesRespectsOrder(nodes: set<Id>, edges: seq<Edge>, order: seq<Id>, a: Id, b: Id)
    requires Lists(nodes, order) && Respects(order, edges) && Reaches(edges, a, b)
    ensures Precedes(order, a, b)
  {
    var walk :| WalkBetween(edges, walk, a, b);
    WalkRespectsOrder(nodes, edges, order, walk);
  }

  lemma OrderedIsAcyclic(nodes: set<Id>, edges: seq<Edge>, order: seq<Id>)
    requires TopologicalOrder(nodes, edges, order)
    ensures !HasCycle(edges)
  {
    if v :| Reaches(edges, v, v) {
      ReachesRespectsOrder(nodes, edges, order, v, v);
      PrecedesIrreflexive(nodes, order, v);
    }
  }

  // ----- a finite graph without sources has a cycle

  ghost predicate HasPredecessorIn(edges: seq<Edge>, within: set<Id>, v: Id) {
    exists u :: u in within && Edge(u, v) in edges
  }

  /** `count` steps backwards inside `within`, ending at `last`. */
  lemma {:induction false} BackwardWalk(edges: seq<Edge>, within: set<Id>, last: Id, count: nat) returns (walk: seq<Id>)
    requires last in within
    requires forall v :: v in within ==> HasPredecessorIn(edges, within, v)
    ensures |walk| == count + 1 && forall i :: 0 <= i < |walk| ==> walk[i] in within
    ensures forall i :: 0 <= i < |walk| - 1 ==> Edge(walk[i], walk[i + 1]) in edges
    decreases count
  {
    if count == 0 {
      walk := [last];
    } else {
      var rest := BackwardWalk(edges, within, last, count - 1);
      assert rest[0] in within;
      var u :| u in within && Edge(u, rest[0]) in edges;
      walk := [u] + rest;
    }
  }

  /** A sequence longer than the set it draws from repeats an element. */
  lemma {:induction false} Pigeonhole(within: set<Id>, s: seq<Id>)
    requires |s| > |within| && forall i :: 0 <= i < |s| ==> s[i] in within
    ensures exists i, j :: 0 <= i < j < |s| && s[i] == s[j]
    decreases |s|
  {
    var last := s[|s| - 1];
    var front := s[..|s| - 1];
    if last in front {
      var i :| 0 <= i < |front| && front[i] == last;
      assert s[i] == s[|s| - 1];
    } else {
      forall i | 0 <= i < |front|
        ensures front[i] in within - {last}
      {
        assert front[i] == s[i];
      }
      Pigeonhole(within - {last}, front);
      var i, j :| 0 <= i < j < |front| && front[i] == front[j];
      assert s[i] == s[j];
    }
  }

  lemma SourcelessHasCycle(edges: seq<Edge>, within: set<Id>)
    requires within != {}
    requires forall v :: v in within ==> HasPredecessorIn(edges, within, v)
    ensures HasCycle(edges)
  {
    var last :| last in within;
    var walk := BackwardWalk(edges, within, last, |within|);
    Pigeonhole(within, walk);
    var i, j :| 0 <= i < j < |walk| && walk[i] == walk[j];
    var cycle := walk[i..j + 1];
    forall k | 0 <= k < |cycle| - 1
      ensures Edge(cycle[k], cycle[k + 1]) in edges
    {
      assert cycle[k] == walk[i + k] && cycle[k + 1] == walk[i + k + 1];
    }
    assert WalkBetween(edges, cycle, walk[i], walk[i]);
    assert Reaches(edges, walk[i], walk[i]);
  }

  /** An acyclic finite graph has a linear order that respects every edge. */
  lemma {:induction false} AcyclicHasOrder(nodes: set<Id>, edges: seq<Edge>) returns (order: seq<Id>)
    requires forall e :: e in edges ==> e.source in nodes && e.target in nodes
    requires !HasCycle(edges)
    ensures TopologicalOrder(nodes, edges, order)
    decreases |nodes|
  {
    if nodes == {} {
      order := [];
    } else {
      if forall v :: v in nodes ==> HasPredecessorIn(edges, nodes, v) {
        SourcelessHasCycle(edges, nodes);
      }
      var first :| first in nodes && !HasPredecessorIn(edges, nodes, first);
      var rest := nodes - {first};
      var inner := Inside(rest, edges);
      if v :| Reaches(inner, v, v) {
        ReachesMonotone(inner, edges, v, v);
      }
      var tail := AcyclicHasOrder(rest, inner);
      order := [first] + tail;
      PrependFirst(nodes, edges, first, tail, order);
    }
  }

  lemma PrependFirst(nodes: set<Id>, edges: seq<Edge>, first: Id, tail: seq<Id>, order: seq<Id>)
    requires forall e :: e in edges ==> e.source in nodes && e.target in nodes
    requires first in nodes && !HasPredecessorIn(edges, nodes, first)
    requires TopologicalOrder(nodes - {first}, Inside(nodes - {first}, edges), tail)
    requires order == [first] + tail
    ensures TopologicalOrder(nodes, edges, order)
  {
    forall e | e in edges
      ensures Precedes(order, e.source, e.target)
    {
      assert e.target != first;
      if e.source == first {
        assert e.target in tail;
        var j :| 0 <= j < |tail| && tail[j] == e.target;
        assert order[0] == first && order[j + 1] == e.target;
      } else {
        assert e in Inside(nodes - {first}, edges);
        var i, j :| 0 <= i < j < |tail| && tail[i] == e.source && tail[j] == e.target;
        assert order[i + 1] == e.source && order[j + 1] == e.target;
      }
    }
  }

  // ----- degree counting for the topological worklist

  /** The targets of the edges leaving `u`, in order, with repetitions. */
  function Targets(edges: seq<Edge>, u: Id): (targets: seq<Id>) {
    if edges == [] then [] else
      var rest := Targets(edges[..|edges| - 1], u);
      var last := edges[|edges| - 1];
      if last.source == u then rest + [last.target] else rest
  }

  /** How many edges into `v` leave a node outside `done`. */
  function InDegree(edges: seq<Edge>, done: set<Id>, v: Id): (n: nat) {
    if edges == [] then 0 else
      var rest := InDegree(edges[..|edges| - 1], done, v);
      var last := edges[|edges| - 1];
      if last.target == v && last.source !in done then rest + 1 else rest
  }

  lemma {:induction false} TargetsMembers(edges: seq<Edge>, u: Id, v: Id)
    ensures v in Targets(edges, u) <==> Edge(u, v) in edges
    decreases |edges|
  {
    if edges != [] {
      TargetsMembers(edges[..|edges| - 1], u, v);
      assert edges == edges[..|edges| - 1] + [edges[|edges| - 1]];
    }
  }

  lemma {:induction false} InDegreeZero(edges: seq<Edge>, done: set<Id>, v: Id)
    ensures InDegree(edges, done, v) == 0 <==> forall e :: e in edges && e.target == v ==> e.source in done
    decreases |edges|
  {
    if edges != [] {
      InDegreeZero(edges[..|edges| - 1], done, v);
      assert edges == edges[..|edges| - 1] + [edges[|edges| - 1]];
    }
  }

  /** Finishing `u` lowers each in-degree by the number of edges from `u`. */
  lemma {:induction false} FinishNode(edges: seq<Edge>, done: set<Id>, u: Id, v: Id)
    requires u !in done
    ensures InDegree(edges, done, v) == InDegree(edges, done + {u}, v) + multiset(Targets(edges, u))[v]
    decreases |edges|
  {
    if edges != [] {
      FinishNode(edges[..|edges| - 1], done, u, v);
    }
  }

  lemma InsideSnoc(nodes: set<Id>, edges: seq<Edge>, i: nat)
    requires i < |edges|
    ensures Inside(nodes, edges[..i + 1]) ==
            Inside(nodes, edges[..i])
            + (if edges[i].source in nodes && edges[i].target in nodes then [edges[i]] else [])
  {
    assert edges[..i + 1][..i] == edges[..i];
  }

  lemma SnocTargets(edges: seq<Edge>, e: Edge, u: Id)
    ensures Targets(edges + [e], u) == Targets(edges, u) + (if e.source == u then [e.target] else [])
  {
    assert (edges + [e])[..|edges|] == edges;
  }

  lemma SnocInDegree(edges: seq<Edge>, e: Edge, done: set<Id>, v: Id)
    ensures InDegree(edges + [e], done, v) ==
            InDegree(edges, done, v) + (if e.target == v && e.source !in done then 1 else 0)
  {
    assert (edges + [e])[..|edges|] == edges;
  }

  /** What one more edge adds to the lists and degrees of the edges before it. */
  lemma SnocInside(nodes: set<Id>, edges: seq<Edge>, i: nat, v: Id)
    requires i < |edges|
    ensures Targets(Inside(nodes, edges[..i + 1]), v) == Targets(Inside(nodes, edges[..i]), v) +
            (if edges[i].source in nodes && edges[i].target in nodes && edges[i].source == v then [edges[i].target]
             else [])
    ensures InDegree(Inside(nodes, edges[..i + 1]), {}, v) == InDegree(Inside(nodes, edges[..i]), {}, v) +
            (if edges[i].source in nodes && edges[i].target in nodes && edges[i].target == v then 1 else 0)
  {
    var before, after, e := Inside(nodes, edges[..i]), Inside(nodes, edges[..i + 1]), edges[i];
    InsideSnoc(nodes, edges, i);
    if e.source in nodes && e.target in nodes {
      assert after == before + [e];
      SnocTargets(before, e, v);
      SnocInDegree(before, e, {}, v);
    } else {
      assert after == before;
    }
  }

  ghost predicate DegreesOf(nodes: set<Id>, edges: seq<Edge>, adjacency: map<Id, seq<Id>>, indegree: map<Id, nat>) {
    && adjacency.Keys == nodes && indegree.Keys == nodes
    && (forall v :: v in nodes ==> adjacency[v] == Targets(Inside(nodes, edges), v))
    && (forall v :: v in nodes ==> indegree[v] == InDegree(Inside(nodes, edges), {}, v))
  }

  lemma NextTargets(nodes: set<Id>, edges: seq<Edge>, i: nat, adjacency: map<Id, seq<Id>>, indegree: map<Id, nat>,
                    v: Id)
    requires i < |edges| && DegreesOf(nodes, edges[..i], adjacency, indegree) && v in nodes
    ensures Targets(Inside(nodes, edges[..i + 1]), v) == adjacency[v] +
            (if edges[i].target in nodes && edges[i].source == v then [edges[i].target] else [])
    ensures InDegree(Inside(nodes, edges[..i + 1]), {}, v) == indegree[v] +
            (if edges[i].source in nodes && edges[i].target == v then 1 else 0)
  {
    SnocInside(nodes, edges, i, v);
    assert adjacency[v] == Targets(Inside(nodes, edges[..i]), v);
  }

  lemma NextEdge(nodes: set<Id>, edges: seq<Edge>, i: nat, adjacency: map<Id, seq<Id>>, indegree: map<Id, nat>,
                 nextAdjacency: map<Id, seq<Id>>, nextIndegree: map<Id, nat>)
    requires i < |edges| && DegreesOf(nodes, edges[..i], adjacency, indegree)
    requires nextAdjacency.Keys == nodes && nextIndegree.Keys == nodes
    requires forall v :: v in nodes ==>
               nextAdjacency[v] == adjacency[v]
               + if edges[i].target in nodes && edges[i].source == v then [edges[i].target] else []
    requires forall v :: v in nodes ==>
               nextIndegree[v] == indegree[v] + if edges[i].source in nodes && edges[i].target == v then 1 else 0
    ensures DegreesOf(nodes, edges[..i + 1], nextAdjacency, nextIndegree)
  {
    forall v | v in nodes
      ensures nextAdjacency[v] == Targets(Inside(nodes, edges[..i + 1]), v)
      ensures nextIndegree[v] == InDegree(Inside(nodes, edges[..i + 1]), {}, v)
    {
      NextTargets(nodes, edges, i, adjacency, indegree, v);
    }
  }

  /** Adjacency lists and in-degrees of the edges inside `nodes`. */
  method BuildDegrees(nodes: set<Id>, edges: seq<Edge>)
    returns (adjacency: map<Id, seq<Id>>, indegree: map<Id, nat>)
    ensures DegreesOf(nodes, edges, adjacency, indegree)
  {
    adjacency := map v | v in nodes :: [];
    indegree := map v | v in nodes :: 0;
    assert Inside(nodes, edges[..0]) == [];
    for i := 0 to |edges|
      invariant DegreesOf(nodes, edges[..i], adjacency, indegree)
    {
      var e := edges[i];
      ghost var adjacency0, indegree0 := adjacency, indegree;
      if e.source in nodes && e.target in nodes {
        adjacency := adjacency[e.source := adjacency[e.source] + [e.target]];
        indegree := indegree[e.target := indegree[e.target] + 1];
      }
      NextEdge(nodes, edges, i, adjacency0, indegree0, adjacency, indegree);
    }
    assert edges[..|edges|] == edges;
  }

  /** The nodes whose in-degree is zero, each once. */
  method InitialReady(nodes: set<Id>, indegree: map<Id, nat>) returns (ready: seq<Id>)
    requires indegree.Keys == nodes
    ensures forall v :: v in ready <==> v in nodes && indegree[v] == 0
    ensures forall i, j :: 0 <= i < j < |ready| ==> ready[i] != ready[j]
  {
    ready := [];
    var pending := nodes;
    while pending != {}
      invariant pending <= nodes
      invariant forall v :: v in ready <==> v in nodes - pending && indegree[v] == 0
      invariant forall i, j :: 0 <= i < j < |ready| ==> ready[i] != ready[j]
      decreases pending
    {
      var v :| v in pending;
      pending := pending - {v};
      if indegree[v] == 0 {
        ready := ready + [v];
      }
    }
  }

  /** The worklist state between two pops: exactly the unfinished nodes without open prerequisites are ready. */
  ghost predicate ReadyState(nodes: set<Id>, inner: seq<Edge>, done: set<Id>, indegree: map<Id, nat>, ready: seq<Id>) {
    && done <= nodes
    && indegree.Keys == nodes
    && (forall v :: v in nodes ==> indegree[v] == InDegree(inner, done, v))
    && (forall v :: v in done ==> InDegree(inner, done, v) == 0)
    && (forall v :: v in ready <==> v in nodes - done && indegree[v] == 0)
    && forall i, j :: 0 <= i < j < |ready| ==> ready[i] != ready[j]
  }

  /** Taking the last ready node off the worklist leaves the other ready ones. */
  lemma PopLast(nodes: set<Id>, inner: seq<Edge>, done: set<Id>, indegree: map<Id, nat>, rest: seq<Id>, node: Id)
    requires ReadyState(nodes, inner, done, indegree, rest + [node])
    ensures node in nodes - done && indegree[node] == 0
    ensures forall v :: v in rest <==> v in nodes - done - {node} && indegree[v] == 0
    ensures forall i, j :: 0 <= i < j < |rest| ==> rest[i] != rest[j]
  {
    var ready := rest + [node];
    assert ready[|rest|] == node && node in ready;
    assert forall i :: 0 <= i < |rest| ==> ready[i] == rest[i];
    forall v
      ensures v in rest <==> v in nodes - done - {node} && indegree[v] == 0
    {
      assert v in ready <==> v in rest || v == node;
    }
  }

  /** A node with an edge from an unfinished one is not finished, and not the ready node itself. */
  lemma OpenTarget(inner: seq<Edge>, done: set<Id>, node: Id, target: Id)
    requires Edge(node, target) in inner && node !in done
    ensures InDegree(inner, done, target) != 0
  {
    InDegreeZero(inner, done, target);
  }

  /** Lowers the in-degree of every listed target and appends those that reach zero. */
  method Release(targets: seq<Id>, indegree0: map<Id, nat>, ready0: seq<Id>)
    returns (indegree: map<Id, nat>, ready: seq<Id>)
    requires forall v :: v in targets ==> v in indegree0
    requires forall v :: v in indegree0 ==> multiset(targets)[v] <= indegree0[v]
    requires forall v :: v in ready0 ==> v in indegree0 && indegree0[v] == 0
    requires forall i, j :: 0 <= i < j < |ready0| ==> ready0[i] != ready0[j]
    ensures indegree.Keys == indegree0.Keys
    ensures forall v :: v in indegree0 ==> indegree[v] + multiset(targets)[v] == indegree0[v]
    ensures forall v :: v in ready <==> v in ready0 || (v in targets && indegree[v] == 0)
    ensures forall i, j :: 0 <= i < j < |ready| ==> ready[i] != ready[j]
  {
    indegree, ready := indegree0, ready0;
    for k := 0 to |targets|
      invariant indegree.Keys == indegree0.Keys
      invariant forall v :: v in indegree0 ==> indegree[v] + multiset(targets[..k])[v] == indegree0[v]
      invariant forall v :: v in ready <==> v in ready0 || (v in targets[..k] && indegree[v] == 0)
      invariant forall i, j :: 0 <= i < j < |ready| ==> ready[i] != ready[j]
    {
      var target := targets[k];
      assert targets[..k + 1] == targets[..k] + [target];
      assert targets == targets[..k + 1] + targets[k + 1..];
      assert multiset(targets) == multiset(targets[..k + 1]) + multiset(targets[k + 1..]);
      assert multiset(targets[..k + 1])[target] <= indegree0[target];
      indegree := indegree[target := indegree[target] - 1];
      if indegree[target] == 0 {
        ready := ready + [target];
      }
    }
    assert targets[..|targets|] == targets;
  }

  /** What one pop does to the worklist state, given the released degrees. */
  lemma ReleasedState(nodes: set<Id>, inner: seq<Edge>, done: set<Id>, node: Id, rest: seq<Id>,
                      indegree0: map<Id, nat>, indegree: map<Id, nat>, ready: seq<Id>)
    requires forall e :: e in inner ==> e.source in nodes && e.target in nodes
    requires ReadyState(nodes, inner, done, indegree0, rest + [node])
    requires indegree.Keys == nodes
    requires forall v :: v in nodes ==> indegree[v] + multiset(Targets(inner, node))[v] == indegree0[v]
    requires forall v :: v in Targets(inner, node) ==> v in nodes
    requires forall v :: v in ready <==> v in rest || (v in Targets(inner, node) && indegree[v] == 0)
    requires forall i, j :: 0 <= i < j < |ready| ==> ready[i] != ready[j]
    ensures ReadyState(nodes, inner, done + {node}, indegree, ready)
  {
    PopLast(nodes, inner, done, indegree0, rest, node);
    var after := done + {node};
    forall v | v in nodes
      ensures indegree[v] == InDegree(inner, after, v)
      ensures v in after ==> InDegree(inner, after, v) == 0
      ensures v in ready <==> v in nodes - after && indegree[v] == 0
    {
      FinishNode(inner, done, node, v);
      TargetsMembers(inner, node, v);
      if v in Targets(inner, node) {
        OpenTarget(inner, done, node, v);
      }
    }
    forall v | v in ready
      ensures v in nodes
    {
      TargetsMembers(inner, node, v);
    }
  }

  /** No in-degree can fall below zero. */
  lemma EnoughDegree(nodes: set<Id>, inner: seq<Edge>, done: set<Id>, node: Id, rest: seq<Id>, indegree: map<Id, nat>)
    requires forall e :: e in inner ==> e.source in nodes && e.target in nodes
    requires ReadyState(nodes, inner, done, indegree, rest + [node])
    ensures forall v :: v in Targets(inner, node) ==> v in nodes
    ensures forall v :: v in nodes ==> multiset(Targets(inner, node))[v] <= indegree[v]
    ensures forall v :: v in rest ==> v in nodes && indegree[v] == 0
    ensures forall i, j :: 0 <= i < j < |rest| ==> rest[i] != rest[j]
  {
    PopLast(nodes, inner, done, indegree, rest, node);
    forall v
      ensures v in Targets(inner, node) ==> v in nodes
      ensures v in nodes ==> multiset(Targets(inner, node))[v] <= indegree[v]
    {
      TargetsMembers(inner, node, v);
      FinishNode(inner, done, node, v);
    }
  }

  /** True exactly when the edges inside the node set contain no cycle. */
  method GraphIsAcyclic(nodes: set<Id>, edges: seq<Edge>) returns (acyclic: bool)
    ensures acyclic <==> !HasCycle(Inside(nodes, edges))
  {
    var adjacency, indegree := BuildDegrees(nodes, edges);
    var ready := InitialReady(nodes, indegree);
    var visited := 0;
    ghost var inner, order, done := Inside(nodes, edges), [], {};
    StartState(nodes, inner, indegree, ready);
    while ready != []
      invariant ReadyState(nodes, inner, done, indegree, ready)
      invariant Lists(done, order) && visited == |done|
      invariant Respects(order, Inside(done, inner))
      decreases nodes - done
    {
      var node, rest := ready[|ready| - 1], ready[..|ready| - 1];
      assert ready == rest + [node];
      StepState(nodes, inner, done, indegree, order, rest, node);
      EnoughDegree(nodes, inner, done, node, rest, indegree);
      visited := visited + 1;
      ghost var indegree0 := indegree;
      indegree, ready := Release(adjacency[node], indegree, rest);
      ReleasedState(nodes, inner, done, node, rest, indegree0, indegree, ready);
      order, done := order + [node], done + {node};
    }
    acyclic := visited == |nodes|;
    Verdict(nodes, inner, done, indegree, order);
  }

  lemma StartState(nodes: set<Id>, inner: seq<Edge>, indegree: map<Id, nat>, ready: seq<Id>)
    requires indegree.Keys == nodes
    requires forall v :: v in nodes ==> indegree[v] == InDegree(inner, {}, v)
    requires forall v :: v in ready <==> v in nodes && indegree[v] == 0
    requires forall i, j :: 0 <= i < j < |ready| ==> ready[i] != ready[j]
    ensures ReadyState(nodes, inner, {}, indegree, ready)
    ensures Lists({}, []) && Respects([], Inside({}, inner))
  {
  }

  /** One more finished node keeps the worklist's account of the finished ones. */
  lemma StepState(nodes: set<Id>, inner: seq<Edge>, done: set<Id>, indegree: map<Id, nat>, order: seq<Id>,
                  rest: seq<Id>, node: Id)
    requires forall e :: e in inner ==> e.source in nodes && e.target in nodes
    requires ReadyState(nodes, inner, done, indegree, rest + [node])
    requires Lists(done, order) && Respects(order, Inside(done, inner))
    ensures node in nodes - done
    ensures Lists(done + {node}, order + [node])
    ensures Respects(order + [node], Inside(done + {node}, inner))
    ensures |done + {node}| == |done| + 1
  {
    PopLast(nodes, inner, done, indegree, rest, node);
    AppendLast(done, inner, order, node);
  }

  /** With nothing left ready, all nodes are finished exactly when there is no cycle. */
  lemma Verdict(nodes: set<Id>, inner: seq<Edge>, done: set<Id>, indegree: map<Id, nat>, order: seq<Id>)
    requires forall e :: e in inner ==> e.source in nodes && e.target in nodes
    requires ReadyState(nodes, inner, done, indegree, [])
    requires Lists(done, order) && Respects(order, Inside(done, inner))
    ensures |done| == |nodes| <==> !HasCycle(inner)
  {
    if done == nodes {
      assert Respects(order, inner);
      OrderedIsAcyclic(nodes, inner, order);
    } else {
      SubsetSmaller(done, nodes);
      var stuck := nodes - done;
      forall v | v in stuck
        ensures HasPredecessorIn(inner, stuck, v)
      {
        assert v !in [];
        assert indegree[v] != 0;
        InDegreeZero(inner, done, v);
      }
      assert exists v :: v in stuck;
      SourcelessHasCycle(inner, stuck);
    }
  }

  lemma AppendLast(done: set<Id>, inner: seq<Edge>, order: seq<Id>, node: Id)
    requires Lists(done, order) && Respects(order, Inside(done, inner)) && node !in done
    requires forall v :: v in done ==> InDegree(inner, done, v) == 0
    requires InDegree(inner, done, node) == 0
    ensures Lists(done + {node}, order + [node])
    ensures Respects(order + [node], Inside(done + {node}, inner))
  {
    var longer := order + [node];
    forall v | v in done + {node}
      ensures forall e :: e in inner && e.target == v ==> e.source in done
    {
      InDegreeZero(inner, done, v);
    }
    forall e | e in Inside(done + {node}, inner)
      ensures Precedes(longer, e.source, e.target)
    {
      if e.target == node {
        var i :| 0 <= i < |order| && order[i] == e.source;
        assert longer[i] == e.source && longer[|order|] == node;
      } else {
        assert e in Inside(done, inner);
        var i, j :| 0 <= i < j < |order| && order[i] == e.source && order[j] == e.target;
        assert longer[i] == e.source && longer[j] == e.target;
      }
    }
  }

  lemma SubsetSmaller(small: set<Id>, large: set<Id>)
    requires small < large
    ensures |small| < |large|
  {
    assert large == small + (large - small);
  }

  /** The adjacency lists of every node that has an outgoing edge. */
  method BuildAdjacency(edges: seq<Edge>) returns (adjacency: map<Id, seq<Id>>)
    ensures forall u :: (if u in adjacency then adjacency[u] else []) == Targets(edges, u)
  {
    adjacency := map[];
    for i := 0 to |edges|
      invariant forall u :: (if u in adjacency then adjacency[u] else []) == Targets(edges[..i], u)
    {
      var e := edges[i];
      assert edges[..i + 1] == edges[..i] + [e];
      forall u {
        SnocTargets(edges[..i], e, u);
      }
      var known := if e.source in adjacency then adjacency[e.source] else [];
      adjacency := adjacency[e.source := known + [e.target]];
    }
    assert edges[..|edges|] == edges;
  }

  /** Whatever a walk from `start` meets is visited, when visited nodes have only visited successors. */
  lemma {:induction false} ClosedUnderWalks(edges: seq<Edge>, start: Id, closed: set<Id>, walk: seq<Id>)
    requires forall v :: Edge(start, v) in edges ==> v in closed
    requires forall u, v :: u in closed && Edge(u, v) in edges ==> v in closed
    requires IsWalk(edges, walk) && walk[0] == start
    ensures walk[|walk| - 1] in closed
    decreases |walk|
  {
    var n := |walk|;
    assert Edge(walk[n - 2], walk[n - 1]) in edges;
    if n > 2 {
      ClosedUnderWalks(edges, start, closed, walk[..n - 1]);
    }
  }

  /** True exactly when a non-empty walk leads from `start` to `target`. */
  method GraphHasPath(edges: seq<Edge>, start: Id, target: Id) returns (found: bool)
    ensures found <==> Reaches(edges, start, target)
  {
    var adjacency := BuildAdjacency(edges);
    var pending := if start in adjacency then adjacency[start] else [];
    var visited: set<Id> := {};
    ghost var everyTarget := set e | e in edges :: e.target;
    assert pending == Targets(edges, start);
    forall v
      ensures Edge(start, v) in edges <==> v in pending
    {
      TargetsMembers(edges, start, v);
    }
    forall v | v in pending
      ensures Reaches(edges, start, v)
    {
      OneEdgeReaches(edges, Edge(start, v));
    }
    while pending != []
      invariant forall v :: v in pending ==> Reaches(edges, start, v) && v in everyTarget
      invariant target !in visited && visited <= everyTarget
      invariant forall v :: Edge(start, v) in edges ==> v in visited || v in pending
      invariant forall u, v :: u in visited && Edge(u, v) in edges ==> v in visited || v in pending
      decreases everyTarget - visited, |pending|
    {
      var current := pending[|pending| - 1];
      var rest := pending[..|pending| - 1];
      assert current in pending && pending == rest + [current];
      assert forall v :: v in pending ==> v == current || v in rest;
      pending := rest;
      if current == target {
        return true;
      }
      if current !in visited {
        visited := visited + {current};
        var more := if current in adjacency then adjacency[current] else [];
        assert more == Targets(edges, current);
        forall v
          ensures Edge(current, v) in edges <==> v in more
        {
          TargetsMembers(edges, current, v);
        }
        forall v | v in more
          ensures Reaches(edges, start, v) && v in everyTarget
        {
          assert Edge(current, v) in edges;
          OneEdgeReaches(edges, Edge(current, v));
          ReachesTransitive(edges, start, current, v);
        }
        pending := pending + more;
      }
    }
    if Reaches(edges, start, target) {
      var walk :| WalkBetween(edges, walk, start, target);
      ClosedUnderWalks(edges, start, visited, walk);
    }
    return false;
  }
}
