/** Frontier anti-entropy: ancestry replies, frontier digests and one pull from a peer (mdrj/api.py:7469-7499,
    mdrj/node.py:1643-1710). */
module Frontiers {
  import opened Prelude
  import opened Dag
  import opened Sorting
  import opened Assignment
  import opened Toposort
  import opened Storage
  import opened Replicas
  import opened Nodes
  import opened Gossip

  const DEPTH_LIMIT: nat := 1024
  const PULL_DEPTH: nat := 64

  /** The present events reachable from `x` over present events, `x` included. */
  ghost function LocalAncestry(d: Graph, x: Id): set<Id>
    requires Acyclic(d)
  {
    if x in d then set y | y in d && Sees(d, x, y) else {}
  }

  function Clamp(depth: int): (cap: nat)
    ensures 1 <= cap <= 1024 && (1 <= depth <= 1024 ==> cap == depth)
    ensures (depth < 1 ==> cap == 1) && (depth > 1024 ==> cap == 1024)
  {
    if depth < 1 then 1 else if depth > DEPTH_LIMIT then DEPTH_LIMIT else depth
  }

  // ---- The ancestry reply ----

  /** The ids at most `k` steps from the start, each step from a present event to one of its parents. */
  ghost function Within(d: Graph, start: Id, k: nat): set<Id> {
    if k == 0 then {start}
    else Within(d, start, k - 1) + set y, x | y in Within(d, start, k - 1) && y in d && x in Parents(d[y]) :: x
  }

  ghost predicate Near(d: Graph, start: Id, k: nat, x: Id) {
    x in Within(d, start, k)
  }

  lemma NearParent(d: Graph, start: Id, k: nat, y: Id, x: Id)
    requires Near(d, start, k, y) && y in d && x in Parents(d[y])
    ensures Near(d, start, k + 1, x)
  {
  }

  lemma StepFrom(d: Graph, start: Id, k: nat, x: Id) returns (y: Id)
    requires Near(d, start, k + 1, x) && !Near(d, start, k, x)
    ensures Near(d, start, k, y) && y in d && x in Parents(d[y])
  {
    y :| y in Within(d, start, k) && y in d && x in Parents(d[y]);
  }

  lemma {:induction false} NearStays(d: Graph, start: Id, j: nat, k: nat, x: Id)
    requires j <= k && Near(d, start, j, x)
    ensures Near(d, start, k, x)
  {
    if j < k { NearStays(d, start, j, k - 1, x); }
  }

  /** An ancestry reply: present events, each once, nearest first, none left out that is nearer than a listed one, and
      nothing reachable left out below the cap. */
  ghost predicate IsReply(d: Graph, start: Id, cap: nat, out: seq<Id>) {
    && Distinct(out) && (forall x :: x in out ==> x in d) && |out| <= cap
    && (forall i, j, k: nat :: 0 <= i < j < |out| && Near(d, start, k, out[j]) ==> Near(d, start, k, out[i]))
    && (forall x, k: nat, i :: x in d && x !in out && Near(d, start, k, x) && 0 <= i < |out| ==>
          Near(d, start, k, out[i]))
    && (Acyclic(d) ==>
        && Elems(out) <= LocalAncestry(d, start)
        && |out| == (if |LocalAncestry(d, start)| < cap then |LocalAncestry(d, start)| else cap)
        && (|out| < cap ==> Elems(out) == LocalAncestry(d, start)))
  }

  /** What the search has settled: who was looked at, and that every reply's parents are looked at or queued. */
  ghost predicate Searching(d: Graph, start: Id, queue: seq<Id>, visited: set<Id>, out: seq<Id>) {
    && Distinct(out) && (forall x :: x in out <==> x in visited && x in d)
    && (start in visited || start in queue)
    && (forall x, p {:trigger p in Parents(d[x])} :: x in out && x in d && p in Parents(d[x]) ==>
        p in visited || p in queue)
  }

  /** The first `near` of the queue lie within `level` steps and the rest within one more; what lies within `level`
      steps is looked at or among those first, what lies within fewer is looked at. */
  ghost predicate Levelled(d: Graph, start: Id, queue: seq<Id>, visited: set<Id>, level: nat, near: nat) {
    && near <= |queue| && (forall j :: 0 <= j < near ==> Near(d, start, level, queue[j]))
    && (forall j :: 0 <= j < |queue| ==> Near(d, start, level + 1, queue[j]))
    && (forall x :: x in visited ==> Near(d, start, level, x))
    && (forall x :: Near(d, start, level, x) ==> x in visited || x in queue[..near])
    && (forall k: nat, x :: k < level && Near(d, start, k, x) ==> x in visited)
  }

  /** The replies so far, nearest first. */
  ghost predicate NearestFirst(d: Graph, start: Id, out: seq<Id>) {
    forall i, j, k: nat :: 0 <= i < j < |out| && Near(d, start, k, out[j]) ==> Near(d, start, k, out[i])
  }

  lemma {:induction false} NextLevel(d: Graph, start: Id, queue: seq<Id>, visited: set<Id>, out: seq<Id>, level: nat)
    requires Searching(d, start, queue, visited, out) && Levelled(d, start, queue, visited, level, 0)
    ensures Levelled(d, start, queue, visited, level + 1, |queue|)
  {
    forall x | Near(d, start, level, x) ensures x in visited { assert x !in queue[..0]; }
    forall x | Near(d, start, level + 1, x) ensures x in visited || x in queue[..|queue|] {
      if !Near(d, start, level, x) {
        var y := StepFrom(d, start, level, x);
        assert y in visited && y in out;
        assert queue[..|queue|] == queue;
      }
    }
    forall k: nat, x | k < level + 1 && Near(d, start, k, x) ensures x in visited { NearStays(d, start, k, level, x); }
    forall j | 0 <= j < |queue| ensures Near(d, start, level + 2, queue[j]) {
      NearStays(d, start, level + 1, level + 2, queue[j]);
    }
    forall x | x in visited ensures Near(d, start, level + 1, x) { NearStays(d, start, level, level + 1, x); }
  }

  /** The head of the queue is looked at. */
  lemma {:induction false} HeadTaken(d: Graph, start: Id, queue: seq<Id>, visited: set<Id>, level: nat, near: nat,
                                     queue': seq<Id>)
    requires Levelled(d, start, queue, visited, level, near) && near > 0 && queue[1..] <= queue'
    requires forall j :: |queue| - 1 <= j < |queue'| ==> Near(d, start, level + 1, queue'[j])
    ensures Levelled(d, start, queue', visited + {queue[0]}, level, near - 1)
  {
    assert forall j :: 0 <= j < |queue| - 1 ==> queue'[j] == queue[j + 1];
    forall x | Near(d, start, level, x) ensures x in visited + {queue[0]} || x in queue'[..near - 1] {
      if x in queue[..near] && x != queue[0] {
        var j :| 0 <= j < near && queue[j] == x;
        assert queue'[..near - 1][j - 1] == x;
      }
    }
  }

  /** The head of the queue is no nearer than any earlier reply. */
  lemma {:induction false} HeadNotNearer(d: Graph, start: Id, queue: seq<Id>, visited: set<Id>, out: seq<Id>,
                                         level: nat, near: nat)
    requires Searching(d, start, queue, visited, out) && Levelled(d, start, queue, visited, level, near)
    requires NearestFirst(d, start, out) && near > 0 && queue[0] !in visited
    ensures NearestFirst(d, start, out + [queue[0]])
  {
    forall k: nat, i | Near(d, start, k, queue[0]) && 0 <= i < |out| ensures Near(d, start, k, out[i]) {
      assert out[i] in visited;
      NearStays(d, start, level, k, out[i]);
    }
  }

  /** So is whatever is left out. */
  lemma {:induction false} LeftOutNotNearer(d: Graph, start: Id, queue: seq<Id>, visited: set<Id>, out: seq<Id>,
                                            level: nat, near: nat)
    requires Searching(d, start, queue, visited, out) && Levelled(d, start, queue, visited, level, near)
    ensures forall x, k: nat, i :: x in d && x !in out && Near(d, start, k, x) && 0 <= i < |out| ==>
      Near(d, start, k, out[i])
  {
    forall x, k: nat, i | x in d && x !in out && Near(d, start, k, x) && 0 <= i < |out|
      ensures Near(d, start, k, out[i])
    {
      assert x !in visited && out[i] in visited;
      NearStays(d, start, level, k, out[i]);
    }
  }

  /** Everything looked at or queued is reachable from the start. */
  ghost predicate Reachable(d: Graph, start: Id, queue: seq<Id>, visited: set<Id>)
    requires Acyclic(d)
  {
    (forall x :: x in queue ==> Sees(d, start, x)) && (forall x :: x in visited ==> Sees(d, start, x))
  }

  /** Identifiers the search can meet. */
  ghost function Mentioned(d: Graph, start: Id): set<Id> {
    {start} + d.Keys + (set x, p | x in d && p in Parents(d[x]) :: p)
  }

  /** Where the search stands. */
  ghost predicate SearchState(d: Graph, start: Id, queue: seq<Id>, visited: set<Id>, out: seq<Id>, level: nat,
                              near: nat) {
    && Searching(d, start, queue, visited, out) && Levelled(d, start, queue, visited, level, near)
    && NearestFirst(d, start, out) && (Acyclic(d) ==> Reachable(d, start, queue, visited))
    && visited + Elems(queue) <= Mentioned(d, start)
  }

  lemma {:induction false} SearchBegins(d: Graph, start: Id)
    ensures SearchState(d, start, [start], {}, [], 0, 1)
  {
    assert [start][..1] == [start];
  }

  method HandleEventAncestry(d: Graph, start: Id, depth: int) returns (out: seq<Id>)
    ensures IsReply(d, start, Clamp(depth), out)
  {
    var cap := Clamp(depth);
    var visited: set<Id> := {};
    var queue := [start];
    ghost var level, near := 0, 1;
    out := [];
    SearchBegins(d, start);
    while queue != [] && |out| < cap
      invariant |out| <= cap && SearchState(d, start, queue, visited, out, level, near)
      decreases Mentioned(d, start) - visited, |queue|
    {
      level, near := NextHead(d, start, queue, visited, out, level, near);
      queue, visited, out := Visit(d, start, queue, visited, out, level, near);
      near := near - 1;
    }
    SearchDone(d, start, queue, visited, out, level, near, cap);
  }

  /** The next level begins once the last one has been looked at. */
  lemma {:induction false} NextHead(d: Graph, start: Id, queue: seq<Id>, visited: set<Id>, out: seq<Id>, level: nat,
                                    near: nat) returns (level': nat, near': nat)
    requires queue != [] && SearchState(d, start, queue, visited, out, level, near)
    ensures near' > 0 && SearchState(d, start, queue, visited, out, level', near')
  {
    level', near' := level, near;
    if near == 0 {
      NextLevel(d, start, queue, visited, out, level);
      level', near' := level + 1, |queue|;
    }
  }

  /** One turn of the search. */
  method Visit(d: Graph, ghost start: Id, queue: seq<Id>, visited: set<Id>, out: seq<Id>, ghost level: nat,
               ghost near: nat)
      returns (queue': seq<Id>, visited': set<Id>, out': seq<Id>)
    requires queue != [] && SearchState(d, start, queue, visited, out, level, near) && near > 0
    ensures SearchState(d, start, queue', visited', out', level, near - 1)
    ensures |out'| <= |out| + 1
    ensures (visited' == visited && |queue'| < |queue|) || visited < visited'
  {
    var x := queue[0];
    queue' := queue[1..];
    if x in visited || x !in d {
      HeadSkipped(d, start, queue, visited, out, level, near);
      visited', out' := visited + {x}, out;
      return;
    }
    visited', out' := visited + {x}, out + [x];
    queue' := Enqueue(queue', d[x].parents, visited');
    HeadReplied(d, start, queue, visited, out, level, near, queue');
  }

  lemma {:induction false} HeadSkipped(d: Graph, start: Id, queue: seq<Id>, visited: set<Id>, out: seq<Id>, level: nat,
                                       near: nat)
    requires queue != [] && near > 0 && SearchState(d, start, queue, visited, out, level, near)
    requires queue[0] in visited || queue[0] !in d
    ensures SearchState(d, start, queue[1..], visited + {queue[0]}, out, level, near - 1)
  {
    HeadTaken(d, start, queue, visited, level, near, queue[1..]);
    assert queue == [queue[0]] + queue[1..];
    assert queue[0] in Elems(queue);
  }

  lemma {:induction false} HeadReplied(d: Graph, start: Id, queue: seq<Id>, visited: set<Id>, out: seq<Id>, level: nat,
                                       near: nat, queue': seq<Id>)
    requires queue != [] && near > 0 && SearchState(d, start, queue, visited, out, level, near)
    requires var x := queue[0];
      && x !in visited && x in d && queue[1..] <= queue'
      && (forall p :: p in queue' <==> p in queue[1..] || (p in d[x].parents && p !in visited + {x}))
      && forall j :: |queue| - 1 <= j < |queue'| ==> queue'[j] in d[x].parents
    ensures SearchState(d, start, queue', visited + {queue[0]}, out + [queue[0]], level, near - 1)
  {
    var x := queue[0];
    assert queue == [x] + queue[1..] && x in Elems(queue);
    HeadNotNearer(d, start, queue, visited, out, level, near);
    ParentsNext(d, start, x, level);
    HeadTaken(d, start, queue, visited, level, near, queue');
    if Acyclic(d) { ParentsSeen(d, start, x); }
    ParentsMentioned(d, start, x);
  }

  lemma {:induction false} ParentsNext(d: Graph, start: Id, x: Id, level: nat)
    requires x in d && Near(d, start, level, x)
    ensures forall p :: p in d[x].parents ==> Near(d, start, level + 1, p)
  {
    forall p | p in d[x].parents ensures Near(d, start, level + 1, p) {
      NearParent(d, start, level, x, p);
    }
  }

  lemma ParentsMentioned(d: Graph, start: Id, x: Id)
    requires x in d
    ensures forall p :: p in d[x].parents ==> p in Mentioned(d, start)
  {
    assert forall p :: p in d[x].parents ==> p in Parents(d[x]);
  }

  method Enqueue(queue: seq<Id>, parents: seq<Id>, visited: set<Id>) returns (queue': seq<Id>)
    ensures forall p :: p in queue' <==> p in queue || (p in parents && p !in visited)
    ensures queue <= queue' && forall j :: |queue| <= j < |queue'| ==> queue'[j] in parents
  {
    queue' := queue;
    for i := 0 to |parents|
      invariant forall p :: p in queue' <==> p in queue || (p in parents[..i] && p !in visited)
      invariant queue <= queue' && forall j :: |queue| <= j < |queue'| ==> queue'[j] in parents
    {
      assert parents[..i + 1] == parents[..i] + [parents[i]];
      if parents[i] !in visited { queue' := queue' + [parents[i]]; }
    }
    assert parents[..|parents|] == parents;
  }

  lemma {:induction false} ParentsSeen(d: Graph, start: Id, x: Id)
    requires Acyclic(d) && x in d && Sees(d, start, x)
    ensures forall p :: p in Parents(d[x]) ==> Sees(d, start, p)
  {
    forall p | p in Parents(d[x]) ensures Sees(d, start, p) {
      assert Sees(d, x, p);
      SeesTransitive(d, start, x, p);
    }
  }

  lemma {:induction false} SearchDone(d: Graph, start: Id, queue: seq<Id>, visited: set<Id>, out: seq<Id>, level: nat,
                                      near: nat, cap: nat)
    requires SearchState(d, start, queue, visited, out, level, near)
    requires |out| <= cap && (queue == [] || |out| == cap)
    ensures IsReply(d, start, cap, out)
  {
    LeftOutNotNearer(d, start, queue, visited, out, level, near);
    if Acyclic(d) { SearchComplete(d, start, queue, visited, out, cap); }
  }

  lemma {:induction false} SearchComplete(d: Graph, start: Id, queue: seq<Id>, visited: set<Id>, out: seq<Id>, cap: nat)
    requires Acyclic(d) && Searching(d, start, queue, visited, out) && Reachable(d, start, queue, visited)
    requires |out| <= cap && (queue == [] || |out| == cap)
    ensures Elems(out) <= LocalAncestry(d, start)
    ensures |out| == if |LocalAncestry(d, start)| < cap then |LocalAncestry(d, start)| else cap
    ensures |out| < cap ==> Elems(out) == LocalAncestry(d, start)
  {
    var all := LocalAncestry(d, start);
    RepliesReached(d, start, queue, visited, out);
    DistinctCard(out);
    SubsetCard(Elems(out), all);
    if queue == [] {
      AllReached(d, start, visited, out);
      assert Elems(out) == all;
    }
  }

  lemma {:induction false} RepliesReached(d: Graph, start: Id, queue: seq<Id>, visited: set<Id>, out: seq<Id>)
    requires Acyclic(d) && Searching(d, start, queue, visited, out) && Reachable(d, start, queue, visited)
    ensures Elems(out) <= LocalAncestry(d, start)
  {
    forall x | x in out ensures x in LocalAncestry(d, start) {
      if x != start { AncHeight(d, start, x); }
    }
  }

  lemma {:induction false} AllReached(d: Graph, start: Id, visited: set<Id>, out: seq<Id>)
    requires Acyclic(d) && Searching(d, start, [], visited, out)
    ensures LocalAncestry(d, start) <= Elems(out)
  {
    assert ParentsWithin(d, visited);
    AncWithin(d, visited, start);
  }

  // ---- The frontier digest ----

  /** Per creator the id of an event with the latest local time. */
  ghost predicate IsFrontier(d: Graph, frontier: map<NodeId, Id>) {
    && (forall c {:trigger frontier[c]} :: c in frontier ==> frontier[c] in d && d[frontier[c]].creator == c)
    && (forall x {:trigger Newest(d, frontier, x)} :: x in d ==> Newest(d, frontier, x))
  }

  ghost predicate Newest(d: Graph, frontier: map<NodeId, Id>, x: Id)
    requires x in d
  {
    var c := d[x].creator;
    c in frontier && frontier[c] in d && d[x].tsLocal <= d[frontier[c]].tsLocal
  }

  /** Of several events of one creator with that time, the one listed first. */
  ghost predicate FirstListed(log: seq<Id>, d: Graph, frontier: map<NodeId, Id>, n: nat)
    requires n <= |log| && Elems(log) == d.Keys
  {
    forall i {:trigger Overtaken(log, d, frontier, i)} :: 0 <= i < n ==> Overtaken(log, d, frontier, i)
  }

  ghost predicate Overtaken(log: seq<Id>, d: Graph, frontier: map<NodeId, Id>, i: nat)
    requires i < |log|
  {
    log[i] in d && d[log[i]].creator in frontier && frontier[d[log[i]].creator] in d
    && var tip := frontier[d[log[i]].creator];
       d[log[i]].tsLocal < d[tip].tsLocal || (d[log[i]].tsLocal == d[tip].tsLocal && tip in log[..i + 1])
  }

  /** The frontier of the first `n` rows. */
  ghost predicate FrontierOf(log: seq<Id>, d: Graph, frontier: map<NodeId, Id>, n: nat)
    requires n <= |log| && Elems(log) == d.Keys
  {
    && (forall c {:trigger frontier[c]} :: c in frontier ==>
          frontier[c] in d && d[frontier[c]].creator == c && frontier[c] in log[..n])
    && FirstListed(log, d, frontier, n)
  }

  /** The frontier after one more row. */
  function Advanced(d: Graph, frontier: map<NodeId, Id>, x: Id): map<NodeId, Id>
    requires x in d && forall c :: c in frontier ==> frontier[c] in d
  {
    var c := d[x].creator;
    if c !in frontier || d[x].tsLocal > d[frontier[c]].tsLocal then frontier[c := x] else frontier
  }

  lemma FrontierAdvances(log: seq<Id>, d: Graph, frontier: map<NodeId, Id>, n: nat)
    requires n < |log| && Elems(log) == d.Keys && FrontierOf(log, d, frontier, n) && log[n] in d
    ensures FrontierOf(log, d, Advanced(d, frontier, log[n]), n + 1)
  {
    var frontier' := Advanced(d, frontier, log[n]);
    assert log[..n + 1] == log[..n] + [log[n]];
    forall j | 0 <= j < n + 1 ensures Overtaken(log, d, frontier', j) {
      if j < n { OvertakenStays(log, d, frontier, j, n); }
    }
  }

  lemma OvertakenStays(log: seq<Id>, d: Graph, frontier: map<NodeId, Id>, j: nat, n: nat)
    requires j < n < |log| && Elems(log) == d.Keys && FrontierOf(log, d, frontier, n) && log[n] in d
    ensures Overtaken(log, d, Advanced(d, frontier, log[n]), j)
  {
    assert Overtaken(log, d, frontier, j);
  }

  method LocalFrontier(log: seq<Id>, d: Graph) returns (frontier: map<NodeId, Id>)
    requires Elems(log) == d.Keys
    ensures IsFrontier(d, frontier) && FirstListed(log, d, frontier, |log|)
  {
    frontier := map[];
    for i := 0 to |log|
      invariant FrontierOf(log, d, frontier, i)
    {
      var x := log[i];
      assert x in Elems(log);
      var c := d[x].creator;
      FrontierAdvances(log, d, frontier, i);
      if c !in frontier || d[x].tsLocal > d[frontier[c]].tsLocal {
        frontier := frontier[c := x];
      }
    }
    FrontierDone(log, d, frontier);
  }

  lemma FrontierDone(log: seq<Id>, d: Graph, frontier: map<NodeId, Id>)
    requires Elems(log) == d.Keys && FrontierOf(log, d, frontier, |log|)
    ensures IsFrontier(d, frontier)
  {
    forall x | x in d ensures Newest(d, frontier, x) {
      assert x in Elems(log);
      var i :| 0 <= i < |log| && log[i] == x;
      assert Overtaken(log, d, frontier, i);
    }
  }

  /** Local times increase strictly along each creator's chain. */
  ghost predicate Clocked(d: Graph)
    requires Acyclic(d)
  {
    forall x, y {:trigger y in Anc(d, x)} :: x in d && y in d && y in Anc(d, x) && d[x].creator == d[y].creator ==>
      d[y].tsLocal < d[x].tsLocal
  }

  lemma {:induction false} NotBefore(d: Graph, later: Id, x: Id)
    requires Acyclic(d) && Clocked(d) && x in d && later in d && d[x].creator == d[later].creator
    requires d[x].tsLocal <= d[later].tsLocal
    ensures later !in Anc(d, x)
  {
  }

  /** Then the frontier entry of a creator is the tip of its chain. */
  lemma {:induction false} FrontierIsTip(d: Graph, frontier: map<NodeId, Id>, x: Id)
    requires View(d) && Clocked(d) && IsFrontier(d, frontier) && x in d
    ensures d[x].creator in frontier && frontier[d[x].creator] in d && Sees(d, frontier[d[x].creator], x)
  {
    assert Newest(d, frontier, x);
    var tip := frontier[d[x].creator];
    assert Related(d, tip, x);
    NotBefore(d, tip, x);
  }

  // ---- One synchronisation step ----

  /** The two stores never disagree about an event they both hold. */
  predicate Agree(mine: Graph, theirs: Graph) {
    forall x :: x in mine && x in theirs ==> mine[x] == theirs[x]
  }

  /** `mine` after pulling the events `ids` from `theirs`. */
  function Pulled(mine: Graph, theirs: Graph, ids: set<Id>): Graph
    requires ids <= theirs.Keys
  {
    map x | x in mine.Keys + ids :: if x in mine then mine[x] else theirs[x]
  }

  /** Whoever holds an event and is ancestor-closed holds its ancestry as the peer knows it. */
  lemma {:induction false} SharedAncestry(mine: Graph, theirs: Graph, x: Id, y: Id)
    requires Acyclic(theirs) && Closed(theirs) && Closed(mine) && Agree(mine, theirs)
    requires x in mine && x in theirs && Sees(theirs, x, y)
    ensures y in mine
    decreases Height(theirs, x)
  {
    if x != y {
      AncParent(theirs, x, y);
      var p :| p in Parents(theirs[x]) && Sees(theirs, p, y);
      assert p in Parents(mine[x]);
      SharedAncestry(mine, theirs, p, y);
    }
  }

  /** Every frontier entry is already held, or its whole ancestry has been pulled. */
  ghost predicate CaughtUp(mine: Graph, theirs: Graph, frontier: map<NodeId, Id>, ids: set<Id>)
    requires Acyclic(theirs)
  {
    && ids <= theirs.Keys
    && (forall c {:trigger frontier[c]} :: c in frontier ==>
        frontier[c] in mine || LocalAncestry(theirs, frontier[c]) <= ids)
  }

  /** A complete pull makes the receiver a superset of the peer and keeps it ancestor-closed. */
  lemma {:induction false} PullComplete(mine: Graph, theirs: Graph, frontier: map<NodeId, Id>, ids: set<Id>)
    requires View(theirs) && Clocked(theirs) && IsFrontier(theirs, frontier)
    requires Closed(mine) && Agree(mine, theirs) && CaughtUp(mine, theirs, frontier, ids)
    ensures Extends(theirs, Pulled(mine, theirs, ids)) && Extends(mine, Pulled(mine, theirs, ids))
    ensures Closed(Pulled(mine, theirs, ids))
  {
    forall x | x in theirs ensures x in Pulled(mine, theirs, ids) {
      FrontierIsTip(theirs, frontier, x);
      var tip := frontier[theirs[x].creator];
      if tip in mine { SharedAncestry(mine, theirs, tip, x); }
    }
  }

  /** Agreeing ancestor-closed histories have an acyclic union. */
  lemma {:induction false} UnionAcyclic(mine: Graph, theirs: Graph, ids: set<Id>)
    requires Acyclic(mine) && Acyclic(theirs) && Closed(mine) && Closed(theirs) && Agree(mine, theirs)
    requires ids <= theirs.Keys
    ensures Acyclic(Pulled(mine, theirs, ids))
  {
    var d := Pulled(mine, theirs, ids);
    var top := if mine == map[] then 0 else Max(Rank(mine).Values);
    forall x | x in mine ensures Rank(mine)[x] <= top { assert Rank(mine)[x] in Rank(mine).Values; }
    var rank: map<Id, nat> := map x | x in d :: if x in mine then Rank(mine)[x] else top + 1 + Rank(theirs)[x];
    forall x, p | x in d && p in Parents(d[x]) && p in d ensures rank[p] < rank[x] {
      if x in mine { assert p in Parents(mine[x]); } else { assert p in Parents(theirs[x]); }
    }
    assert Ranked(d, rank);
  }

  predicate CopiesOf(envelopes: seq<Envelope>, theirs: Graph) {
    forall env :: env in envelopes ==> env.event.id in theirs && theirs[env.event.id] == env.event
  }

  lemma {:induction false} IngestedStep(r: Replica, env: Envelope, mine: Graph, theirs: Graph, ids: set<Id>)
    requires ids <= theirs.Keys && r.tables.events == Pulled(mine, theirs, ids)
    requires env.event.id in theirs && theirs[env.event.id] == env.event
    ensures Ingested(r, env).tables.events == Pulled(mine, theirs, ids + {env.event.id})
  {
  }

  /** Ingesting copies of a peer's events adds exactly those the store lacked, as the peer holds them. */
  lemma {:induction false} IngestedFrom(r: Replica, envelopes: seq<Envelope>, theirs: Graph)
    requires CopiesOf(envelopes, theirs)
    ensures IdsIn(envelopes) <= theirs.Keys
    ensures IngestedAll(r, envelopes).tables.events == Pulled(r.tables.events, theirs, IdsIn(envelopes))
  {
    if envelopes == [] {
      assert IdsIn(envelopes) == {};
    } else {
      var earlier, env := envelopes[..|envelopes| - 1], envelopes[|envelopes| - 1];
      assert envelopes == earlier + [env];
      IngestedFrom(r, earlier, theirs);
      IdsAppend(earlier, env);
      IngestedStep(IngestedAll(r, earlier), env, r.tables.events, theirs, IdsIn(earlier));
    }
  }

  /** The stored copies of the given events, with their paths and timestamps. */
  method Envelopes(store: DagStorage, ids: seq<Id>) returns (envelopes: seq<Envelope>)
    requires store.Valid() && forall x :: x in ids ==> x in store.events
    ensures |envelopes| == |ids|
    ensures forall i :: 0 <= i < |ids| ==>
      envelopes[i] == Envelope(store.events[ids[i]], store.envelopes[ids[i]], store.consensusTs[ids[i]])
  {
    envelopes := [];
    for i := 0 to |ids|
      invariant |envelopes| == i
      invariant forall j :: 0 <= j < i ==>
        envelopes[j] == Envelope(store.events[ids[j]], store.envelopes[ids[j]], store.consensusTs[ids[j]])
    {
      var x := ids[i];
      envelopes := envelopes + [Envelope(store.events[x], store.envelopes[x], store.consensusTs[x])];
    }
  }

  /** What the pull guarantees when nothing fails on the way. */
  ghost predicate Compatible(mine: Graph, theirs: Graph) {
    Acyclic(mine) && Closed(mine) && Acyclic(theirs) && Closed(theirs) && Agree(mine, theirs)
  }

  /** `_frontier_sync_once`: compare digests, queue what the peer lacks, pull what is missing here.
      `answers` says which ancestry requests succeed. */
  method FrontierSyncOnce(node: Node, gossip: GossipEngine, peer: DagStorage, answers: Id -> bool)
      returns (pushed: set<Id>, missing: set<Id>, raised: bool,
               ghost theirs: map<NodeId, Id>, ghost own: map<NodeId, Id>, ghost replies: map<Id, seq<Id>>,
               ghost ids: set<Id>)
    requires node.Valid() && gossip.Valid() && peer.Valid() && node.storage != peer
    modifies node`vectorClock, node.storage, gossip`pending, gossip`known
    ensures node.Valid() && gossip.Valid() && ids <= peer.events.Keys
    ensures gossip.known == old(gossip.known) + pushed + (node.storage.events.Keys - old(node.storage.events).Keys)
    ensures IsFrontier(peer.events, theirs) && IsFrontier(old(node.storage.events), own)
    ensures FirstListed(peer.log, peer.events, theirs, |peer.log|)
    ensures forall x :: x in missing <==> x in theirs.Values && x !in old(node.storage.events)
    ensures forall x :: x in pushed <==> exists c :: c in own && own[c] == x && (c in theirs ==> theirs[c] != x)
    ensures Gathered(peer.events, replies, ids) && replies.Keys <= Answered(missing, answers)
    ensures !raised ==> replies.Keys == Answered(missing, answers)
    ensures node.storage.events == Pulled(old(node.storage.events), peer.events, ids)
    ensures Compatible(old(node.storage.events), peer.events) ==> !raised
    ensures Complete(old(node.storage.events), peer.events, missing, answers) ==>
      && Extends(peer.events, node.storage.events) && Extends(old(node.storage.events), node.storage.events)
      && Closed(node.storage.events)
  {
    var digest := LocalFrontier(peer.log, peer.events);
    var mine := LocalFrontier(node.storage.log, node.storage.events);
    theirs, own := digest, mine;
    missing := AbsentTips(node.storage.events, digest);
    pushed := UnknownTips(mine, digest);
    PushAll(gossip, pushed);
    ghost var before := node.storage.events;
    raised, replies, ids := PullAll(node, gossip, peer, missing, answers);
    TipsMeaning(before, own, theirs);
    if !raised { GatheredFetched(peer.events, missing, answers, replies, ids); }
    AllPulled(before, peer.events, theirs, missing, answers, raised, ids);
  }

  lemma TipsMeaning(mine: Graph, own: map<NodeId, Id>, theirs: map<NodeId, Id>)
    ensures forall x :: x in AbsentTips(mine, theirs) <==> x in theirs.Values && x !in mine
    ensures forall x ::
      x in UnknownTips(own, theirs) <==> exists c :: c in own && own[c] == x && (c in theirs ==> theirs[c] != x)
  {
  }

  /** The requests that succeed. */
  function Answered(asked: set<Id>, answers: Id -> bool): set<Id> {
    set x | x in asked && answers(x)
  }

  lemma AnsweredStep(asked: set<Id>, rest: set<Id>, x: Id, answers: Id -> bool)
    requires x in asked && x !in rest
    ensures Answered(asked - rest, answers)
         == Answered(asked - (rest + {x}), answers) + if answers(x) then {x} else {}
    ensures x !in Answered(asked - (rest + {x}), answers)
  {
  }

  /** What has been pulled is what the replies held, each the answer to a request of depth 64. */
  ghost predicate Gathered(theirs: Graph, replies: map<Id, seq<Id>>, ids: set<Id>) {
    && (forall x {:trigger replies[x]} :: x in replies ==> IsReply(theirs, x, PULL_DEPTH, replies[x]))
    && ids == AllReplies(replies)
  }

  ghost function AllReplies(replies: map<Id, seq<Id>>): set<Id> {
    set x, y | x in replies && y in replies[x] :: y
  }

  lemma RepliesAdded(replies: map<Id, seq<Id>>, x: Id, reply: seq<Id>)
    requires x !in replies
    ensures AllReplies(replies[x := reply]) == AllReplies(replies) + Elems(reply)
  {
    var more := replies[x := reply];
    forall y | y in AllReplies(replies) + Elems(reply) ensures y in AllReplies(more) {
      if y in Elems(reply) {
        assert more[x] == reply;
      } else {
        var z :| z in replies && y in replies[z];
        assert more[z] == replies[z];
      }
    }
  }

  lemma GatheredStep(theirs: Graph, replies: map<Id, seq<Id>>, ids: set<Id>, x: Id, reply: seq<Id>)
    requires Gathered(theirs, replies, ids) && x !in replies && IsReply(theirs, x, PULL_DEPTH, reply)
    ensures Gathered(theirs, replies[x := reply], ids + Elems(reply))
  {
    RepliesAdded(replies, x, reply);
  }

  lemma GatheredFetched(theirs: Graph, asked: set<Id>, answers: Id -> bool, replies: map<Id, seq<Id>>, ids: set<Id>)
    requires Gathered(theirs, replies, ids) && replies.Keys == Answered(asked, answers)
    ensures Fetched(theirs, asked, answers, ids)
  {
    if Acyclic(theirs) {
      forall x | x in asked && answers(x) && |LocalAncestry(theirs, x)| < PULL_DEPTH
        ensures LocalAncestry(theirs, x) <= ids
      {
        assert x in replies && Elems(replies[x]) == LocalAncestry(theirs, x);
      }
    }
  }

  /** Frontier entries of the peer this store does not hold. */
  function AbsentTips(d: Graph, theirs: map<NodeId, Id>): set<Id> {
    set c | c in theirs && theirs[c] !in d :: theirs[c]
  }

  /** Own frontier entries that differ from the peer's: they are queued for gossip. */
  function UnknownTips(own: map<NodeId, Id>, theirs: map<NodeId, Id>): set<Id> {
    set c | c in own && (c !in theirs || theirs[c] != own[c]) :: own[c]
  }

  ghost predicate Complete(mine: Graph, theirs: Graph, missing: set<Id>, answers: Id -> bool) {
    && Compatible(mine, theirs) && View(theirs) && Clocked(theirs)
    && forall x :: x in missing ==> answers(x) && |LocalAncestry(theirs, x)| < PULL_DEPTH
  }

  /** Every answered request for a short ancestry has been served in full. */
  ghost predicate Fetched(theirs: Graph, asked: set<Id>, answers: Id -> bool, ids: set<Id>) {
    Acyclic(theirs) ==> forall x {:trigger answers(x)} ::
      x in asked && answers(x) && |LocalAncestry(theirs, x)| < PULL_DEPTH ==> LocalAncestry(theirs, x) <= ids
  }

  lemma {:induction false} AllPulled(mine: Graph, theirs: Graph, frontier: map<NodeId, Id>, missing: set<Id>,
                                     answers: Id -> bool, raised: bool, ids: set<Id>)
    requires ids <= theirs.Keys && IsFrontier(theirs, frontier)
    requires missing == AbsentTips(mine, frontier)
    requires Compatible(mine, theirs) ==> !raised
    requires !raised ==> Fetched(theirs, missing, answers, ids)
    ensures Complete(mine, theirs, missing, answers) ==>
      var after := Pulled(mine, theirs, ids); Extends(theirs, after) && Extends(mine, after) && Closed(after)
  {
    if Complete(mine, theirs, missing, answers) {
      forall c | c in frontier ensures frontier[c] in mine || LocalAncestry(theirs, frontier[c]) <= ids {
        if frontier[c] !in mine { assert frontier[c] in missing && answers(frontier[c]); }
      }
      PullComplete(mine, theirs, frontier, ids);
    }
  }

  method PushAll(gossip: GossipEngine, ids: set<Id>)
    requires gossip.Valid()
    modifies gossip`pending, gossip`known
    ensures gossip.Valid() && gossip.known == old(gossip.known) + ids
  {
    var rest := ids;
    while rest != {}
      invariant gossip.Valid() && rest <= ids && gossip.known == old(gossip.known) + (ids - rest)
      decreases rest
    {
      var x :| x in rest;
      rest := rest - {x};
      gossip.AddPending(x);
    }
  }

  method PullAll(node: Node, gossip: GossipEngine, peer: DagStorage, missing: set<Id>, answers: Id -> bool)
      returns (raised: bool, ghost replies: map<Id, seq<Id>>, ghost ids: set<Id>)
    requires node.Valid() && gossip.Valid() && peer.Valid() && node.storage != peer
    modifies node`vectorClock, node.storage, gossip`pending, gossip`known
    ensures node.Valid() && gossip.Valid()
    ensures PullState(old(node.storage.events), peer.events, node.storage.events, old(gossip.known), gossip.known, ids)
    ensures Compatible(old(node.storage.events), peer.events) ==> !raised
    ensures Gathered(peer.events, replies, ids) && replies.Keys <= Answered(missing, answers)
    ensures !raised ==> replies.Keys == Answered(missing, answers)
  {
    raised, replies, ids := false, map[], {};
    var rest := missing;
    ghost var mine, queued := node.storage.events, gossip.known;
    while rest != {}
      invariant node.Valid() && gossip.Valid() && peer.Valid() && rest <= missing && !raised
      invariant PullState(mine, peer.events, node.storage.events, queued, gossip.known, ids)
      invariant Gathered(peer.events, replies, ids) && replies.Keys == Answered(missing - rest, answers)
      decreases rest
    {
      var x :| x in rest;
      rest := rest - {x};
      AnsweredStep(missing, rest, x, answers);
      if answers(x) {
        raised, replies, ids := PullTurn(node, gossip, peer, x, mine, queued, replies, ids);
        if raised { return; }
      }
    }
  }

  /** What has been pulled into the store, and queued, after the events `ids` of the peer. */
  ghost predicate PullState(mine: Graph, theirs: Graph, now: Graph, queued: set<Id>, known: set<Id>, ids: set<Id>) {
    ids <= theirs.Keys && now == Pulled(mine, theirs, ids) && known == queued + (ids - mine.Keys)
  }

  lemma PullMore(mine: Graph, theirs: Graph, now: Graph, queued: set<Id>, known: set<Id>, ids: set<Id>,
                 more: set<Id>, now': Graph, known': set<Id>)
    requires PullState(mine, theirs, now, queued, known, ids)
    requires PullState(now, theirs, now', known, known', more)
    ensures PullState(mine, theirs, now', queued, known', ids + more)
  {
    PulledTwice(mine, theirs, ids, more);
    assert now.Keys == mine.Keys + ids;
  }

  /** One turn of the loop: one answered request. */
  method PullTurn(node: Node, gossip: GossipEngine, peer: DagStorage, x: Id, ghost mine: Graph, ghost queued: set<Id>,
                  ghost replies: map<Id, seq<Id>>, ghost ids: set<Id>)
      returns (raised: bool, ghost replies': map<Id, seq<Id>>, ghost ids': set<Id>)
    requires node.Valid() && gossip.Valid() && peer.Valid() && node.storage != peer
    requires PullState(mine, peer.events, node.storage.events, queued, gossip.known, ids)
    requires Gathered(peer.events, replies, ids) && x !in replies
    modifies node`vectorClock, node.storage, gossip`pending, gossip`known
    ensures node.Valid() && gossip.Valid()
    ensures PullState(mine, peer.events, node.storage.events, queued, gossip.known, ids')
    ensures Gathered(peer.events, replies', ids') && replies'.Keys == replies.Keys + {x}
    ensures Compatible(mine, peer.events) ==> !raised
  {
    ghost var now, known, reply := node.storage.events, gossip.known, [];
    raised, reply := PullOne(node, gossip, peer, x);
    replies', ids' := replies[x := reply], ids + Elems(reply);
    TurnDone(mine, peer.events, now, queued, known, replies, ids, x, reply, node.storage.events, gossip.known);
  }

  lemma TurnDone(mine: Graph, theirs: Graph, now: Graph, queued: set<Id>, known: set<Id>, replies: map<Id, seq<Id>>,
                 ids: set<Id>, x: Id, reply: seq<Id>, now': Graph, known': set<Id>)
    requires PullState(mine, theirs, now, queued, known, ids)
    requires PullState(now, theirs, now', known, known', Elems(reply))
    requires Gathered(theirs, replies, ids) && x !in replies && IsReply(theirs, x, PULL_DEPTH, reply)
    ensures PullState(mine, theirs, now', queued, known', ids + Elems(reply))
    ensures Gathered(theirs, replies[x := reply], ids + Elems(reply))
    ensures Compatible(mine, theirs) ==> Acyclic(now')
  {
    PullMore(mine, theirs, now, queued, known, ids, Elems(reply), now', known');
    GatheredStep(theirs, replies, ids, x, reply);
    if Compatible(mine, theirs) { UnionAcyclic(mine, theirs, ids + Elems(reply)); }
  }

  lemma {:induction false} PulledTwice(mine: Graph, theirs: Graph, a: set<Id>, b: set<Id>)
    requires a <= theirs.Keys && b <= theirs.Keys
    ensures Pulled(Pulled(mine, theirs, a), theirs, b) == Pulled(mine, theirs, a + b)
  {
  }

  /** Ask for one ancestry, store the reply, queue what was new. */
  method PullOne(node: Node, gossip: GossipEngine, peer: DagStorage, x: Id) returns (raised: bool, ghost reply: seq<Id>)
    requires node.Valid() && gossip.Valid() && peer.Valid() && node.storage != peer
    modifies node`vectorClock, node.storage, gossip`pending, gossip`known
    ensures node.Valid() && gossip.Valid()
    ensures PullState(old(node.storage.events), peer.events, node.storage.events, old(gossip.known), gossip.known,
                      Elems(reply))
    ensures raised ==> !Acyclic(node.storage.events)
    ensures IsReply(peer.events, x, PULL_DEPTH, reply)
  {
    var stored;
    stored, raised, reply := StoreAncestry(node, peer, x);
    gossip.AddAll(stored);
  }

  method StoreAncestry(node: Node, peer: DagStorage, x: Id)
      returns (stored: seq<Id>, raised: bool, ghost reply: seq<Id>)
    requires node.Valid() && peer.Valid() && node.storage != peer
    modifies node`vectorClock, node.storage
    ensures node.Valid() && Elems(reply) <= peer.events.Keys
    ensures node.storage.events == Pulled(old(node.storage.events), peer.events, Elems(reply))
    ensures Elems(stored) == Elems(reply) - old(node.storage.events).Keys
    ensures raised ==> !Acyclic(node.storage.events)
    ensures IsReply(peer.events, x, PULL_DEPTH, reply)
  {
    var answer := HandleEventAncestry(peer.events, x, PULL_DEPTH);
    reply := answer;
    var envelopes := Envelopes(peer, answer);
    RepliedIds(peer.events, reply, envelopes);
    IngestedFrom(node.State(), envelopes, peer.events);
    stored, raised := node.IngestEnvelopes(envelopes);
  }

  lemma {:induction false} RepliedIds(d: Graph, reply: seq<Id>, envelopes: seq<Envelope>)
    requires WellKeyed(d) && |envelopes| == |reply|
    requires forall i :: 0 <= i < |reply| ==> reply[i] in d && envelopes[i].event == d[reply[i]]
    ensures CopiesOf(envelopes, d) && IdsIn(envelopes) == Elems(reply)
  {
    forall x | x in Elems(reply) ensures x in IdsIn(envelopes) {
      var i :| 0 <= i < |reply| && reply[i] == x;
      assert envelopes[i] in envelopes;
    }
  }
}
