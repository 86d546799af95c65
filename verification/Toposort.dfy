/** Kahn's algorithm over the stored events and edges (mdrj/storage.py `toposort`). */
module Toposort {
  import opened Prelude
  import opened Dag
  import opened Sorting

  function Elems(s: seq<Id>): set<Id> {
    set x | x in s
  }

  lemma {:induction false} DistinctCard(s: seq<Id>)
    requires Distinct(s)
    ensures |Elems(s)| == |s|
  {
    if s != [] {
      assert s == [s[0]] + s[1..];
      DistinctCard(s[1..]);
      assert Elems(s) == {s[0]} + Elems(s[1..]);
    }
  }

  type Edges = set<(Id, Id)>

  /** The stored parents of `c` that are themselves stored. */
  function Preds(ids: set<Id>, edges: Edges, c: Id): set<Id> {
    set p | p in ids && (p, c) in edges
  }

  ghost predicate EdgesOf(d: Graph, edges: Edges) {
    forall p, c :: (p, c) in edges <==> c in d && p in Parents(d[c])
  }

  /** A linear extension: every stored event once, each after all its stored parents. */
  ghost predicate Linear(d: Graph, order: seq<Id>) {
    && Distinct(order) && Elems(order) == d.Keys
    && forall i, p :: 0 <= i < |order| && p in Parents(d[order[i]]) && p in d ==> p in order[..i]
  }

  /** A closed walk along parent links between stored events. */
  ghost predicate Cycle(d: Graph, walk: seq<Id>) {
    && |walk| >= 2 && walk[0] == walk[|walk| - 1]
    && Walk(d, walk)
  }

  ghost predicate Walk(d: Graph, walk: seq<Id>) {
    && (forall i :: 0 <= i < |walk| ==> walk[i] in d)
    && (forall i :: 0 <= i < |walk| - 1 ==> walk[i + 1] in Parents(d[walk[i]]))
  }

  // ---- Linear extensions exclude cycles ----

  lemma LinearAcyclic(d: Graph, order: seq<Id>)
    requires Linear(d, order)
    ensures Acyclic(d)
  {
    var rank := map x | x in d :: Position(order, x);
    forall x, p | x in d && p in Parents(d[x]) && p in d ensures rank[p] < rank[x] {
      var i := Position(order, x);
      assert p in order[..i];
      var j :| 0 <= j < i && order[j] == p;
    }
    assert Ranked(d, rank);
  }

  function Position(order: seq<Id>, x: Id): (i: nat)
    requires x in order
    ensures i < |order| && order[i] == x
  {
    if order[0] == x then 0 else 1 + Position(order[1..], x)
  }

  lemma {:induction false} RankFalls(d: Graph, rank: map<Id, nat>, walk: seq<Id>, k: nat)
    requires Ranked(d, rank) && Walk(d, walk) && 0 < k < |walk|
    ensures rank[walk[k]] < rank[walk[0]]
  {
    if k > 1 { RankFalls(d, rank, walk, k - 1); }
    assert walk[k - 1 + 1] in Parents(d[walk[k - 1]]);
  }

  lemma AcyclicNoCycle(d: Graph, walk: seq<Id>)
    requires Acyclic(d)
    ensures !Cycle(d, walk)
  {
    if Cycle(d, walk) { RankFalls(d, Rank(d), walk, |walk| - 1); }
  }

  // ---- A nonempty set in which everyone waits for a member holds a cycle ----

  ghost predicate Stuck(d: Graph, waiting: set<Id>) {
    waiting <= d.Keys && forall c :: c in waiting ==> Parents(d[c]) * waiting != {}
  }

  lemma {:induction false} WalkFrom(d: Graph, waiting: set<Id>, start: Id, n: nat) returns (walk: seq<Id>)
    requires Stuck(d, waiting) && start in waiting
    ensures |walk| == n + 1 && Walk(d, walk) && Elems(walk) <= waiting && walk[0] == start
    decreases n
  {
    if n == 0 {
      walk := [start];
    } else {
      var p :| p in Parents(d[start]) * waiting;
      var rest := WalkFrom(d, waiting, p, n - 1);
      walk := [start] + rest;
      assert forall i :: 0 < i < |walk| ==> walk[i] == rest[i - 1];
    }
  }

  lemma StuckCycle(d: Graph, waiting: set<Id>) returns (walk: seq<Id>)
    requires Stuck(d, waiting) && waiting != {}
    ensures Cycle(d, walk)
  {
    var start :| start in waiting;
    var long := WalkFrom(d, waiting, start, |waiting|);
    if Distinct(long) {
      DistinctCard(long);
      SubsetCard(Elems(long), waiting);
    }
    var i, j :| 0 <= i < j < |long| && long[i] == long[j];
    walk := long[i..j + 1];
    WalkPart(d, long, i, j + 1);
  }

  lemma WalkPart(d: Graph, long: seq<Id>, i: nat, j: nat)
    requires Walk(d, long) && i <= j <= |long|
    ensures Walk(d, long[i..j])
  {
    var walk := long[i..j];
    assert forall k :: 0 <= k < |walk| ==> walk[k] == long[i + k];
    forall k | 0 <= k < |walk| - 1 ensures walk[k + 1] in Parents(d[walk[k]]) {
      assert long[i + k + 1] in Parents(d[long[i + k]]);
    }
  }

  // ---- The algorithm ----

  type Children = map<Id, seq<Id>>
  type Degrees = map<Id, nat>

  lemma DistinctConcat(a: seq<Id>, b: seq<Id>)
    requires Distinct(a) && Distinct(b) && Elems(a) !! Elems(b)
    ensures Distinct(a + b) && Elems(a + b) == Elems(a) + Elems(b)
  {
    forall i, j | 0 <= i < j < |a + b| ensures (a + b)[i] != (a + b)[j] {
      assert (a + b)[i] == if i < |a| then a[i] else b[i - |a|];
      assert (a + b)[j] == if j < |a| then a[j] else b[j - |a|];
      assert i < |a| ==> a[i] in Elems(a);
      assert j >= |a| ==> b[j - |a|] in Elems(b);
    }
  }

  lemma DistinctAppend(a: seq<Id>, x: Id)
    requires Distinct(a) && x !in a
    ensures Distinct(a + [x]) && Elems(a + [x]) == Elems(a) + {x}
  {
    DistinctConcat(a, [x]);
  }

  lemma DistinctTail(s: seq<Id>)
    requires Distinct(s) && s != []
    ensures Distinct(s[1..]) && Elems(s[1..]) == Elems(s) - {s[0]}
  {
    assert s == [s[0]] + s[1..];
  }

  /** The adjacency list of `p` holds its stored children, once each. */
  ghost predicate ListedFor(ids: set<Id>, edges: Edges, graph: Children, p: Id) {
    p in graph && Distinct(graph[p]) && forall c :: c in graph[p] <==> c in ids && (p, c) in edges
  }

  /** `c` still waits for as many stored parents as its degree says. */
  ghost predicate Counted(ids: set<Id>, edges: Edges, done: set<Id>, indegree: Degrees, c: Id) {
    c in indegree && indegree[c] == |Preds(ids, edges, c) - done|
  }

  ghost predicate Listing(ids: set<Id>, edges: Edges, graph: Children, indegree: Degrees) {
    && graph.Keys == ids && indegree.Keys == ids
    && (forall p {:trigger ListedFor(ids, edges, graph, p)} :: p in ids ==> ListedFor(ids, edges, graph, p))
    && (forall c {:trigger Counted(ids, edges, {}, indegree, c)} :: c in ids ==> Counted(ids, edges, {}, indegree, c))
  }

  lemma CountedStep(ids: set<Id>, edges: Edges, indegree: Degrees, p: Id, c: Id, x: Id)
    requires Counted(ids, edges, {}, indegree, x) && (p, c) !in edges && p in ids && c in indegree
    ensures Counted(ids, edges + {(p, c)}, {}, indegree[c := indegree[c] + 1], x)
  {
    var before, after := Preds(ids, edges, x) - {}, Preds(ids, edges + {(p, c)}, x) - {};
    assert after == before + if x == c then {p} else {};
  }

  lemma AllListedStep(ids: set<Id>, edges: Edges, graph: Children, p: Id, c: Id)
    requires forall x {:trigger ListedFor(ids, edges, graph, x)} :: x in ids ==> ListedFor(ids, edges, graph, x)
    requires (p, c) !in edges && p in ids && c in ids && p in graph
    ensures var graph' := graph[p := graph[p] + [c]];
      forall x {:trigger ListedFor(ids, edges + {(p, c)}, graph', x)} :: x in ids ==>
        ListedFor(ids, edges + {(p, c)}, graph', x)
  {
    forall x | x in ids ensures ListedFor(ids, edges + {(p, c)}, graph[p := graph[p] + [c]], x) {
      assert ListedFor(ids, edges, graph, x);
    }
  }

  lemma AllCountedStep(ids: set<Id>, edges: Edges, indegree: Degrees, p: Id, c: Id)
    requires forall x {:trigger Counted(ids, edges, {}, indegree, x)} :: x in ids ==>
      Counted(ids, edges, {}, indegree, x)
    requires (p, c) !in edges && p in ids && c in ids && c in indegree
    ensures var indegree' := indegree[c := indegree[c] + 1];
      forall x {:trigger Counted(ids, edges + {(p, c)}, {}, indegree', x)} :: x in ids ==>
        Counted(ids, edges + {(p, c)}, {}, indegree', x)
  {
    forall x | x in ids ensures Counted(ids, edges + {(p, c)}, {}, indegree[c := indegree[c] + 1], x) {
      assert Counted(ids, edges, {}, indegree, x);
      CountedStep(ids, edges, indegree, p, c, x);
    }
  }

  lemma ListingStep(ids: set<Id>, edges: Edges, graph: Children, indegree: Degrees, p: Id, c: Id)
    requires Listing(ids, edges, graph, indegree) && (p, c) !in edges && p in ids && c in ids
    ensures Listing(ids, edges + {(p, c)}, graph[p := graph[p] + [c]], indegree[c := indegree[c] + 1])
  {
    AllListedStep(ids, edges, graph, p, c);
    AllCountedStep(ids, edges, indegree, p, c);
  }

  /** An edge to an absent event is ignored. */
  lemma ListingSkip(ids: set<Id>, edges: Edges, graph: Children, indegree: Degrees, p: Id, c: Id)
    requires Listing(ids, edges, graph, indegree) && (p !in ids || c !in ids)
    ensures Listing(ids, edges + {(p, c)}, graph, indegree)
  {
    forall x | x in ids ensures ListedFor(ids, edges + {(p, c)}, graph, x) {
      assert ListedFor(ids, edges, graph, x);
    }
    forall x | x in ids ensures Counted(ids, edges + {(p, c)}, {}, indegree, x) {
      assert Counted(ids, edges, {}, indegree, x);
      assert Preds(ids, edges + {(p, c)}, x) == Preds(ids, edges, x);
    }
  }

  method ListChildren(ids: set<Id>, edges: Edges) returns (graph: Children, indegree: Degrees)
    ensures Listing(ids, edges, graph, indegree)
  {
    graph := map x | x in ids :: [];
    indegree := map x | x in ids :: 0;
    var rest := edges;
    ghost var done: Edges := {};
    while rest != {}
      invariant done !! rest && done + rest == edges
      invariant Listing(ids, done, graph, indegree)
      decreases rest
    {
      var edge :| edge in rest;
      rest := rest - {edge};
      graph, indegree := ListEdge(ids, graph, indegree, edge.0, edge.1, done);
      assert (edge.0, edge.1) == edge;
      done := done + {edge};
    }
    assert done == edges;
  }

  method ListEdge(ids: set<Id>, graph: Children, indegree: Degrees, p: Id, c: Id, ghost done: Edges)
      returns (graph': Children, indegree': Degrees)
    requires Listing(ids, done, graph, indegree) && (p, c) !in done
    ensures Listing(ids, done + {(p, c)}, graph', indegree')
  {
    if p in ids && c in ids {
      ListingStep(ids, done, graph, indegree, p, c);
      graph' := graph[p := graph[p] + [c]];
      indegree' := indegree[c := indegree[c] + 1];
    } else {
      ListingSkip(ids, done, graph, indegree, p, c);
      graph', indegree' := graph, indegree;
    }
  }

  /** Exactly the finished and the queued events wait for nothing. */
  ghost predicate Frontier(done: set<Id>, queued: set<Id>, indegree: Degrees) {
    forall c {:trigger indegree[c]} :: c in indegree ==> (c in done || c in queued <==> indegree[c] == 0)
  }

  /** What is settled after `order` has been emitted and `queue` is waiting. */
  ghost predicate KahnState(ids: set<Id>, edges: Edges, order: seq<Id>, queue: seq<Id>, indegree: Degrees) {
    && indegree.Keys == ids && Distinct(order) && Distinct(queue) && Elems(order) !! Elems(queue)
    && Elems(order) + Elems(queue) <= ids
    && (forall c {:trigger Counted(ids, edges, Elems(order), indegree, c)} :: c in ids ==>
        Counted(ids, edges, Elems(order), indegree, c))
    && Frontier(Elems(order), Elems(queue), indegree)
    && ParentsFirst(ids, edges, order)
  }

  ghost predicate ParentsFirst(ids: set<Id>, edges: Edges, order: seq<Id>) {
    forall i {:trigger order[i]} :: 0 <= i < |order| ==> Preds(ids, edges, order[i]) <= Elems(order[..i])
  }

  method Roots(ids: set<Id>, edges: Edges, indegree: Degrees) returns (queue: seq<Id>)
    requires indegree.Keys == ids
    requires forall c {:trigger Counted(ids, edges, {}, indegree, c)} :: c in ids ==>
      Counted(ids, edges, {}, indegree, c)
    ensures KahnState(ids, edges, [], queue, indegree)
  {
    queue := [];
    var rest := ids;
    while rest != {}
      invariant rest <= ids && Distinct(queue)
      invariant forall c :: c in queue <==> c in ids - rest && indegree[c] == 0
      decreases rest
    {
      var c :| c in rest;
      rest := rest - {c};
      if indegree[c] == 0 { queue := queue + [c]; }
    }
    assert Elems([]) == {};
  }

  /** Count one finished parent off each child, queueing the children that waited for nothing else. */
  method Release(children: seq<Id>, indegree: Degrees, queue: seq<Id>)
      returns (indegree': Degrees, queue': seq<Id>, ghost freed: seq<Id>)
    requires Distinct(children) && forall c :: c in children ==> c in indegree && indegree[c] > 0
    ensures Released(children, indegree, indegree', freed)
    ensures queue' == queue + freed
  {
    indegree', queue', freed := indegree, queue, [];
    for i := 0 to |children|
      invariant Released(children[..i], indegree, indegree', freed)
      invariant queue' == queue + freed
    {
      var child := children[i];
      assert children[..i + 1] == children[..i] + [child];
      assert child !in children[..i];
      indegree' := indegree'[child := indegree'[child] - 1];
      if indegree'[child] == 0 {
        DistinctAppend(freed, child);
        queue' := queue' + [child];
        freed := freed + [child];
      }
    }
    assert children[..|children|] == children;
  }

  ghost predicate Released(children: seq<Id>, indegree: Degrees, indegree': Degrees, freed: seq<Id>) {
    && indegree'.Keys == indegree.Keys
    && (forall c {:trigger indegree'[c]} :: c in indegree ==>
        indegree'[c] + (if c in children then 1 else 0) == indegree[c])
    && Distinct(freed)
    && forall c {:trigger c in freed} :: c in freed <==> c in children && c in indegree && indegree[c] == 1
  }

  lemma StillWaiting(waiting: set<Id>, done: set<Id>, node: Id)
    requires node !in done
    ensures |waiting - (done + {node})| == |waiting - done| - if node in waiting then 1 else 0
  {
    assert waiting - done == (waiting - (done + {node})) + if node in waiting then {node} else {};
  }

  lemma NoneLeft(a: set<Id>, b: set<Id>)
    ensures |a - b| == 0 <==> a <= b
  {
    if a <= b { assert a - b == {}; }
    forall x | x in a && x !in b ensures |a - b| != 0 { assert x in a - b; }
  }

  lemma CountDown(ids: set<Id>, edges: Edges, done: set<Id>, node: Id, children: seq<Id>,
                  indegree: Degrees, indegree': Degrees, freed: seq<Id>, c: Id)
    requires Counted(ids, edges, done, indegree, c) && node in ids && node !in done && c in ids
    requires c in children <==> (node, c) in edges
    requires Released(children, indegree, indegree', freed)
    ensures Counted(ids, edges, done + {node}, indegree', c)
  {
    StillWaiting(Preds(ids, edges, c), done, node);
  }

  lemma AllCountDown(ids: set<Id>, edges: Edges, done: set<Id>, node: Id, children: seq<Id>,
                     indegree: Degrees, indegree': Degrees, freed: seq<Id>)
    requires forall c {:trigger Counted(ids, edges, done, indegree, c)} :: c in ids ==>
      Counted(ids, edges, done, indegree, c)
    requires node in ids && node !in done && Released(children, indegree, indegree', freed)
    requires forall c :: c in children <==> c in ids && (node, c) in edges
    ensures forall c {:trigger Counted(ids, edges, done + {node}, indegree', c)} :: c in ids ==>
      Counted(ids, edges, done + {node}, indegree', c)
  {
    forall c | c in ids ensures Counted(ids, edges, done + {node}, indegree', c) {
      assert Counted(ids, edges, done, indegree, c);
      CountDown(ids, edges, done, node, children, indegree, indegree', freed, c);
    }
  }

  lemma OrderStep(ids: set<Id>, edges: Edges, order: seq<Id>, node: Id)
    requires ParentsFirst(ids, edges, order) && Preds(ids, edges, node) <= Elems(order)
    ensures ParentsFirst(ids, edges, order + [node])
  {
    var order' := order + [node];
    forall i | 0 <= i < |order'| ensures Preds(ids, edges, order'[i]) <= Elems(order'[..i]) {
      if i < |order| { assert order'[..i] == order[..i]; } else { assert order'[..i] == order; }
    }
  }

  lemma FrontierStep(done: set<Id>, queued: set<Id>, node: Id, children: seq<Id>, indegree: Degrees,
                     indegree': Degrees, freed: seq<Id>)
    requires Frontier(done, queued, indegree) && node in queued && done !! queued
    requires Released(children, indegree, indegree', freed)
    requires forall c :: c in children ==> c in indegree && indegree[c] > 0
    ensures Frontier(done + {node}, queued - {node} + Elems(freed), indegree')
    ensures Elems(freed) !! done + queued
  {
    forall c | c in freed ensures c !in done + queued { assert indegree[c] == 1; }
  }

  /** Children of an event that has not been emitted still wait for it. */
  lemma ChildrenWait(ids: set<Id>, edges: Edges, done: set<Id>, indegree: Degrees, node: Id, c: Id)
    requires Counted(ids, edges, done, indegree, c) && node in ids && node !in done && (node, c) in edges
    ensures indegree[c] > 0
  {
    NoneLeft(Preds(ids, edges, c), done);
    assert node in Preds(ids, edges, c);
  }

  lemma ReleaseStep(ids: set<Id>, edges: Edges, order: seq<Id>, queue: seq<Id>, indegree: Degrees, node: Id,
                    children: seq<Id>, indegree': Degrees, freed: seq<Id>)
    requires queue != [] && node == queue[0] && KahnState(ids, edges, order, queue, indegree)
    requires forall c :: c in children <==> c in ids && (node, c) in edges
    requires forall c :: c in children ==> c in indegree && indegree[c] > 0
    requires Released(children, indegree, indegree', freed)
    ensures KahnState(ids, edges, order + [node], queue[1..] + freed, indegree')
  {
    assert node in Elems(queue);
    DistinctAppend(order, node);
    DistinctTail(queue);
    FrontierStep(Elems(order), Elems(queue), node, children, indegree, indegree', freed);
    DistinctConcat(queue[1..], freed);
    assert Counted(ids, edges, Elems(order), indegree, node);
    NoneLeft(Preds(ids, edges, node), Elems(order));
    OrderStep(ids, edges, order, node);
    AllCountDown(ids, edges, Elems(order), node, children, indegree, indegree', freed);
  }

  /** `toposort`: an order of all stored events, or `None` where the source raises "cycle detected in DAG". */
  method Sorted(d: Graph, edges: Edges) returns (order: Option<seq<Id>>)
    requires EdgesOf(d, edges)
    ensures order.Some? ==> Linear(d, order.value)
    ensures order.Some? <==> Acyclic(d)
    ensures order.None? <==> exists walk :: Cycle(d, walk)
  {
    var ids := d.Keys;
    var graph, indegree := ListChildren(ids, edges);
    var queue := Roots(ids, edges, indegree);
    var out: seq<Id> := [];
    while queue != []
      invariant KahnState(ids, edges, out, queue, indegree)
      decreases ids - Elems(out)
    {
      indegree, queue, out := EmitNext(ids, edges, graph, indegree, queue, out);
    }
    Finished(d, edges, out, indegree);
    if |out| != |ids| {
      order := None;
    } else {
      order := Some(out);
    }
  }

  /** One turn of the loop: emit the head of the queue. */
  method EmitNext(ids: set<Id>, ghost edges: Edges, graph: Children, indegree: Degrees, queue: seq<Id>, out: seq<Id>)
      returns (indegree': Degrees, queue': seq<Id>, out': seq<Id>)
    requires queue != [] && KahnState(ids, edges, out, queue, indegree)
    requires graph.Keys == ids
    requires forall p {:trigger ListedFor(ids, edges, graph, p)} :: p in ids ==> ListedFor(ids, edges, graph, p)
    ensures KahnState(ids, edges, out', queue', indegree')
    ensures ids - Elems(out') < ids - Elems(out)
  {
    var node := queue[0];
    assert node in Elems(queue);
    assert ListedFor(ids, edges, graph, node);
    var children := graph[node];
    forall c | c in children ensures c in indegree && indegree[c] > 0 {
      assert Counted(ids, edges, Elems(out), indegree, c);
      ChildrenWait(ids, edges, Elems(out), indegree, node, c);
    }
    ghost var freed;
    indegree', queue', freed := Release(children, indegree, queue[1..]);
    ReleaseStep(ids, edges, out, queue, indegree, node, children, indegree', freed);
    out' := out + [node];
    DistinctAppend(out, node);
    assert node in ids - Elems(out);
  }

  lemma Finished(d: Graph, edges: Edges, order: seq<Id>, indegree: Degrees)
    requires EdgesOf(d, edges) && KahnState(d.Keys, edges, order, [], indegree)
    ensures |order| == |d.Keys| ==> Linear(d, order)
    ensures |order| == |d.Keys| <==> Acyclic(d)
    ensures |order| != |d.Keys| <==> exists walk :: Cycle(d, walk)
  {
    DistinctCard(order);
    if |order| == |d.Keys| {
      AllEmitted(d, edges, order, indegree);
      LinearAcyclic(d, order);
      forall walk ensures !Cycle(d, walk) { AcyclicNoCycle(d, walk); }
    } else {
      SomeStuck(d, edges, order, indegree);
      var walk := StuckCycle(d, d.Keys - Elems(order));
      if Acyclic(d) { AcyclicNoCycle(d, walk); }
    }
  }

  lemma FullSubset(a: set<Id>, b: set<Id>)
    requires a <= b && |a| == |b|
    ensures a == b
  {
    assert b == a + (b - a);
  }

  lemma AllEmitted(d: Graph, edges: Edges, order: seq<Id>, indegree: Degrees)
    requires EdgesOf(d, edges) && KahnState(d.Keys, edges, order, [], indegree) && |Elems(order)| == |d.Keys|
    ensures Linear(d, order)
  {
    FullSubset(Elems(order), d.Keys);
    forall i, p | 0 <= i < |order| && p in Parents(d[order[i]]) && p in d ensures p in order[..i] {
      assert p in Preds(d.Keys, edges, order[i]);
    }
  }

  lemma StillCounted(ids: set<Id>, edges: Edges, done: set<Id>, indegree: Degrees, c: Id) returns (p: Id)
    requires Counted(ids, edges, done, indegree, c) && indegree[c] != 0
    ensures p in ids - done && (p, c) in edges
  {
    var left := Preds(ids, edges, c) - done;
    assert left != {};
    p :| p in left;
  }

  lemma WaitsForWaiting(d: Graph, edges: Edges, order: seq<Id>, indegree: Degrees, c: Id)
    requires EdgesOf(d, edges) && KahnState(d.Keys, edges, order, [], indegree) && c in d.Keys - Elems(order)
    ensures Parents(d[c]) * (d.Keys - Elems(order)) != {}
  {
    assert Counted(d.Keys, edges, Elems(order), indegree, c);
    var p := StillCounted(d.Keys, edges, Elems(order), indegree, c);
    assert p in Parents(d[c]) * (d.Keys - Elems(order));
  }

  lemma SomeStuck(d: Graph, edges: Edges, order: seq<Id>, indegree: Degrees)
    requires EdgesOf(d, edges) && KahnState(d.Keys, edges, order, [], indegree) && |Elems(order)| != |d.Keys|
    ensures Stuck(d, d.Keys - Elems(order)) && d.Keys - Elems(order) != {}
  {
    forall c | c in d.Keys - Elems(order) ensures Parents(d[c]) * (d.Keys - Elems(order)) != {} {
      WaitsForWaiting(d, edges, order, indegree, c);
    }
    SomeMissing(Elems(order), d.Keys);
  }

  lemma SomeMissing(a: set<Id>, b: set<Id>)
    requires a <= b && |a| != |b|
    ensures b - a != {}
  {
    assert b == a + (b - a);
    assert b - a == {} ==> a + (b - a) == a;
  }
}
