/** Whole runs of a cluster: why its history is fork-free and its clocks causal. */
module Cluster {
  import opened Prelude
  import opened Dag
  import opened Timestamps
  import opened Toposort
  import opened Storage
  import opened VectorClocks
  import opened Replicas

  datatype Action =
    | Boot(node: NodeId, ts: real, payload: nat)
    | Emit(node: NodeId, cls: EventClass, ts: real, genesis: bool, payload: nat, other: Option<Id>)
    | Receive(node: NodeId, event: Id, path: seq<Hop>, consensusTs: Option<real>)
    | Restart(node: NodeId)

  /** The nodes, plus two history variables: every event ever issued and every content ever hashed.
      Copies in flight are not tracked; any issued event may arrive anywhere, at any time, again and again. */
  datatype World = World(nodes: map<NodeId, Replica>, issued: Graph, made: set<Content>)

  predicate Enabled(w: World, a: Action) {
    match a
    case Boot(n, _, _) => n !in w.nodes
    case Emit(n, _, _, _, _, other) => n in w.nodes && MayPick(w.nodes[n], n, other)
    case Receive(n, x, _, _) => n in w.nodes && x in w.issued
    case Restart(n) => n in w.nodes
  }

  function Issue(h: Hash, w: World, n: NodeId, r: Replica, c: Content): World {
    World(w.nodes[n := r], w.issued[h(c) := EventOf(h, c)], w.made + {c})
  }

  function Act(h: Hash, w: World, a: Action): World
    requires Enabled(w, a)
  {
    match a
    case Boot(n, ts, payload) =>
      Issue(h, w, n, Booted(h, n, ts, payload), GenesisContent(n, ts, payload))
    case Emit(n, cls, ts, genesis, payload, other) =>
      Issue(h, w, n, Emitted(w.nodes[n], h, n, cls, ts, genesis, payload, other),
            NewContent(w.nodes[n], n, cls, ts, genesis, payload, other))
    case Receive(n, x, path, ts) =>
      w.(nodes := w.nodes[n := Ingested(w.nodes[n], Envelope(w.issued[x], path, ts))])
    case Restart(n) =>
      w.(nodes := w.nodes[n := Restarted(w.nodes[n])])
  }

  const START := World(map[], map[], {})

  ghost predicate Step(h: Hash, before: World, a: Action, w: World) {
    Enabled(before, a) && w == Act(h, before, a)
  }

  /** `trace` lists the worlds a cluster passes through while it takes `actions`. */
  ghost predicate Run(h: Hash, actions: seq<Action>, trace: seq<World>) {
    && |trace| == |actions| + 1 && trace[0] == START
    && forall i {:trigger actions[i]} :: 0 <= i < |actions| ==> Step(h, trace[i], actions[i], trace[i + 1])
  }

  /** Two different contents of the run share an id. */
  ghost predicate Collision(h: Hash, made: set<Content>) {
    exists a, b :: a in made && b in made && a != b && h(a) == h(b)
  }

  // ---- The invariant ----

  /** The `k`-th own event of `n` continues the one before it and carries the counter `k`. */
  predicate Link(d: Graph, own: seq<Id>, n: NodeId, k: nat)
    requires k < |own|
  {
    && own[k] in d && d[own[k]].source == n
    && Get(d[own[k]].vclock, n) == k
    && (k > 0 ==> own[k - 1] in Parents(d[own[k]]))
  }

  predicate Chain(d: Graph, own: seq<Id>, n: NodeId) {
    own != [] && forall k {:trigger Link(d, own, n, k)} :: 0 <= k < |own| ==> Link(d, own, n, k)
  }

  ghost predicate ReplicaGood(issued: Graph, n: NodeId, r: Replica) {
    && WellFormed(r.tables) && Extends(r.tables.events, issued)
    && (forall a :: a in r.anchors ==> a in r.tables.events)
    && Chain(issued, Own(r, n), n)
  }

  /** How many non-genesis events `c` has issued. */
  function Count(nodes: map<NodeId, Replica>, c: NodeId): nat {
    if c in nodes && |Own(nodes[c], c)| > 0 then |Own(nodes[c], c)| - 1 else 0
  }

  /** No clock runs ahead of what has been issued. */
  ghost predicate Bounded(nodes: map<NodeId, Replica>, clock: Clock) {
    forall c {:trigger Get(clock, c)} :: Get(clock, c) <= Count(nodes, c)
  }

  ghost predicate Causal(issued: Graph, x: Id)
    requires x in issued
  {
    forall p :: p in Parents(issued[x]) ==> p in issued && HappenedBefore(issued[p].vclock, issued[x].vclock)
  }

  /** The node that issued an event holds it. */
  ghost predicate Held(nodes: map<NodeId, Replica>, e: Event) {
    e.source in nodes && e.id in nodes[e.source].tables.events
  }

  ghost predicate EventGood(h: Hash, w: World, x: Id) {
    && x in w.issued && ContentOf(w.issued[x]) in w.made && w.issued[x] == EventOf(h, ContentOf(w.issued[x]))
    && w.issued[x].id == x
    && Held(w.nodes, w.issued[x]) && Bounded(w.nodes, w.issued[x].vclock) && Causal(w.issued, x)
  }

  ghost predicate NodeGood(w: World, n: NodeId) {
    n in w.nodes && ReplicaGood(w.issued, n, w.nodes[n]) && Bounded(w.nodes, w.nodes[n].clock)
  }

  ghost predicate Good(h: Hash, w: World) {
    && (forall n {:trigger NodeGood(w, n)} :: n in w.nodes ==> NodeGood(w, n))
    && (forall x {:trigger EventGood(h, w, x)} :: x in w.issued ==> EventGood(h, w, x))
  }

  // ---- Growth lemmas ----

  lemma {:induction false} SameSource(d1: Graph, d2: Graph, log: seq<Id>, n: NodeId)
    requires forall x :: x in log ==> (x in d1 <==> x in d2) && (x in d1 ==> d1[x] == d2[x])
    ensures BySource(d1, log, n) == BySource(d2, log, n)
  {
    if log != [] {
      assert log == log[..|log| - 1] + [log[|log| - 1]];
      SameSource(d1, d2, log[..|log| - 1], n);
    }
  }

  /** What storing does to a node's own events. */
  lemma OwnStored(t: Tables, env: Envelope, n: NodeId)
    requires WellFormed(t)
    ensures BySource(Stored(t, env).events, Stored(t, env).log, n) ==
      BySource(t.events, t.log, n) + if env.event.id !in t.events && env.event.source == n then [env.event.id] else []
  {
    var id := env.event.id;
    if id !in t.events {
      forall x | x in t.log ensures x != id && x in t.events { assert x in Elems(t.log); }
      SameSource(t.events, t.events[id := env.event], t.log, n);
    }
  }

  lemma StoredExtends(t: Tables, env: Envelope, issued: Graph)
    requires Extends(t.events, issued) && env.event.id in issued && issued[env.event.id] == env.event
    ensures Extends(Stored(t, env).events, issued)
  {
  }

  lemma ChainGrows(d: Graph, d': Graph, own: seq<Id>, n: NodeId)
    requires Chain(d, own, n) && Extends(d, d')
    ensures Chain(d', own, n)
  {
    forall k: nat | k < |own| ensures Link(d', own, n, k) { assert Link(d, own, n, k); }
  }

  lemma ChainAppend(d: Graph, own: seq<Id>, n: NodeId, x: Id)
    requires Chain(d, own, n) && x in d && d[x].source == n && Get(d[x].vclock, n) == |own|
    requires own[|own| - 1] in Parents(d[x])
    ensures Chain(d, own + [x], n)
  {
    forall k: nat | k < |own| + 1 ensures Link(d, own + [x], n, k) {
      if k < |own| { assert Link(d, own, n, k); }
    }
  }

  lemma NodeKept(w: World, w': World, n: NodeId)
    requires NodeGood(w, n) && n in w'.nodes && w'.nodes[n] == w.nodes[n] && Extends(w.issued, w'.issued)
    requires forall c :: Count(w.nodes, c) <= Count(w'.nodes, c)
    ensures NodeGood(w', n)
  {
    ChainGrows(w.issued, w'.issued, Own(w.nodes[n], n), n);
  }

  /** An event by `n` is one link of the chain `n` holds. */
  lemma InChain(h: Hash, w: World, x: Id) returns (k: nat)
    requires Good(h, w) && x in w.issued
    ensures var n := w.issued[x].source;
      n in w.nodes && NodeGood(w, n) && k < |Own(w.nodes[n], n)| && Own(w.nodes[n], n)[k] == x &&
        Get(w.issued[x].vclock, n) == k
  {
    var n := w.issued[x].source;
    assert EventGood(h, w, x);
    assert NodeGood(w, n);
    var r := w.nodes[n];
    assert x in Elems(r.tables.log);
    assert x in Own(r, n);
    k :| 0 <= k < |Own(r, n)| && Own(r, n)[k] == x;
    assert Link(w.issued, Own(r, n), n, k);
  }

  // ---- Issuing a new event ----

  lemma CountGrows(before: map<NodeId, Replica>, after: map<NodeId, Replica>, n: NodeId)
    requires n in after && after == before[n := after[n]] && Count(before, n) <= Count(after, n)
    ensures forall c :: Count(before, c) <= Count(after, c)
  {
  }

  lemma IssueGood(h: Hash, w: World, n: NodeId, r: Replica, c: Content, w': World)
    requires Good(h, w) && c.source == n && h(c) !in w.issued && w' == Issue(h, w, n, r, c)
    requires ReplicaGood(w'.issued, n, r) && h(c) in r.tables.events
    requires Bounded(w'.nodes, r.clock) && Bounded(w'.nodes, c.vclock) && Causal(w'.issued, h(c))
    requires Count(w.nodes, n) <= Count(w'.nodes, n)
    requires n in w.nodes ==> w.nodes[n].tables.events.Keys <= r.tables.events.Keys
    ensures Good(h, w')
  {
    CountGrows(w.nodes, w'.nodes, n);
    forall x | x in w'.issued ensures EventGood(h, w', x) {
      if x == h(c) {
        assert ContentOf(EventOf(h, c)) == c;
      } else {
        assert EventGood(h, w, x);
      }
    }
    forall m | m in w'.nodes ensures NodeGood(w', m) {
      if m != n {
        assert NodeGood(w, m);
        NodeKept(w, w', m);
      }
    }
  }

  /** A content that was never hashed gets an id that was never issued, or the hash collides. */
  lemma FreshId(h: Hash, w: World, c: Content)
    requires Good(h, w) && c !in w.made
    ensures h(c) in w.issued ==> Collision(h, w.made + {c})
  {
    if h(c) in w.issued {
      assert EventGood(h, w, h(c));
      var other := ContentOf(w.issued[h(c)]);
      assert other in w.made + {c} && c in w.made + {c} && h(other) == h(c);
    }
  }

  /** Every content hashed so far was issued under its hash. */
  ghost predicate MadeAll(h: Hash, w: World) {
    forall c :: c in w.made ==> h(c) in w.issued && ContentOf(w.issued[h(c)]) == c
  }

  lemma MadeAllStep(h: Hash, w: World, n: NodeId, r: Replica, c: Content)
    requires MadeAll(h, w) && h(c) !in w.issued
    ensures MadeAll(h, Issue(h, w, n, r, c))
  {
    assert ContentOf(EventOf(h, c)) == c;
  }

  // ---- Booting ----

  /** Whoever has issued anything has booted. */
  lemma AbsentSource(h: Hash, w: World, c: Content)
    requires Good(h, w) && MadeAll(h, w)
    ensures c in w.made ==> c.source in w.nodes
  {
    if c in w.made {
      assert EventGood(h, w, h(c));
    }
  }

  lemma BootGood(h: Hash, w: World, n: NodeId, ts: real, payload: nat, w': World)
    requires Good(h, w) && MadeAll(h, w) && n !in w.nodes
    requires w' == Act(h, w, Boot(n, ts, payload)) && !Collision(h, w'.made)
    ensures Good(h, w') && MadeAll(h, w')
  {
    var c, r := GenesisContent(n, ts, payload), Booted(h, n, ts, payload);
    AbsentSource(h, w, c);
    FreshId(h, w, c);
    MadeAllStep(h, w, n, r, c);
    BootReplica(h, n, ts, payload, w'.issued);
    IssueGood(h, w, n, r, c, w');
  }

  /** Storing a new own event extends the chain by it. */
  lemma {:induction false} StoredReplica(issued: Graph, n: NodeId, t: Tables, env: Envelope, r: Replica, own: seq<Id>)
    requires WellFormed(t) && Extends(t.events, issued) && own == BySource(t.events, t.log, n)
    requires env.event.id !in t.events && env.event.source == n
    requires env.event.id in issued && issued[env.event.id] == env.event
    requires r.tables == Stored(t, env) && forall a :: a in r.anchors ==> a in r.tables.events
    requires Chain(issued, own + [env.event.id], n)
    ensures ReplicaGood(issued, n, r) && env.event.id in r.tables.events
    ensures Own(r, n) == own + [env.event.id]
  {
    StoredWellFormed(t, env);
    OwnStored(t, env, n);
    StoredExtends(t, env, issued);
  }

  lemma BootReplica(h: Hash, n: NodeId, ts: real, payload: nat, issued: Graph)
    requires var e := EventOf(h, GenesisContent(n, ts, payload)); e.id in issued && issued[e.id] == e
    ensures ReplicaGood(issued, n, Booted(h, n, ts, payload))
    ensures h(GenesisContent(n, ts, payload)) in Booted(h, n, ts, payload).tables.events
    ensures |Own(Booted(h, n, ts, payload), n)| == 1
  {
    var e := EventOf(h, GenesisContent(n, ts, payload));
    assert Link(issued, [e.id], n, 0);
    assert [] + [e.id] == [e.id];
    StoredReplica(issued, n, EMPTY_TABLES, Envelope(e, [Hop(n, Some(ts))], Some(ts)), Booted(h, n, ts, payload), []);
  }

  // ---- Emitting ----

  lemma SelfParentFirst(r: Replica, me: NodeId, other: Option<Id>)
    requires Own(r, me) != []
    ensures var parents := ParentsFor(r, me, other);
      parents != [] && parents[0] == Own(r, me)[|Own(r, me)| - 1]
  {
    var chosen := SelfParent(r, me) + AsSeq(other);
    var filled := Filled(chosen, AnchorIds(r));
    FilledMeaning(chosen, AnchorIds(r));
    assert chosen[0] == Own(r, me)[|Own(r, me)| - 1];
    assert filled[0] == chosen[0];
  }

  /** Anchors, old or freshly scanned, are stored. */
  lemma AnchorsHeld(r: Replica, a: Id)
    requires WellFormed(r.tables) && (forall x :: x in r.anchors ==> x in r.tables.events) && a in AnchorIds(r)
    ensures a in r.tables.events
  {
    if r.anchors == [] {
      AnchorsStored(r.tables, a);
      assert a in Elems(r.tables.log);
    }
  }

  lemma OthersHeld(r: Replica, me: NodeId, other: Option<Id>)
    requires MayPick(r, me, other) && other.Some?
    ensures other.value in r.tables.events && r.tables.events[other.value].source != me
  {
    ForeignMeaning(r.tables.events, Recent(r.tables, RECENT_LIMIT), me, SelfParent(r, me));
  }

  lemma ParentsHeld(r: Replica, me: NodeId, other: Option<Id>, p: Id)
    requires WellFormed(r.tables) && (forall a :: a in r.anchors ==> a in r.tables.events) && MayPick(r, me, other)
    requires p in ParentsFor(r, me, other)
    ensures p in r.tables.events
  {
    var chosen := SelfParent(r, me) + AsSeq(other);
    FilledMeaning(chosen, AnchorIds(r));
    if p in AnchorIds(r) {
      AnchorsHeld(r, p);
    } else if other == Some(p) {
      OthersHeld(r, me, other);
    } else {
      assert p in Own(r, me);
    }
  }

  lemma {:induction false} MergedBounded(nodes: map<NodeId, Replica>, clock: Clock, d: Graph, parents: seq<Id>)
    requires Bounded(nodes, clock) && forall p :: p in parents && p in d ==> Bounded(nodes, d[p].vclock)
    ensures Bounded(nodes, MergeParents(clock, d, parents))
  {
    if parents != [] {
      assert parents == parents[..|parents| - 1] + [parents[|parents| - 1]];
      MergedBounded(nodes, clock, d, parents[..|parents| - 1]);
    }
  }

  lemma {:induction false} ParentsBounded(h: Hash, w: World, n: NodeId, other: Option<Id>)
    requires Good(h, w) && n in w.nodes && MayPick(w.nodes[n], n, other)
    ensures var r := w.nodes[n];
      forall p :: p in ParentsFor(r, n, other) ==> p in r.tables.events && Bounded(w.nodes, r.tables.events[p].vclock)
  {
    var r := w.nodes[n];
    assert NodeGood(w, n);
    forall p | p in ParentsFor(r, n, other)
      ensures p in r.tables.events && Bounded(w.nodes, r.tables.events[p].vclock)
    {
      ParentsHeld(r, n, other, p);
      assert EventGood(h, w, p);
    }
  }

  /** The counter of a new event is one more than the counter of the node's latest event. */
  lemma {:induction false} NewCounter(h: Hash, w: World, n: NodeId, other: Option<Id>)
    requires Good(h, w) && n in w.nodes && MayPick(w.nodes[n], n, other)
    ensures var r := w.nodes[n];
      && var merged := MergeParents(r.clock, r.tables.events, ParentsFor(r, n, other));
      Bounded(w.nodes, merged) && Get(merged, n) == Count(w.nodes, n)
    ensures Get(NewClock(w.nodes[n], n, other), n) == |Own(w.nodes[n], n)|
  {
    var r := w.nodes[n];
    var merged := MergeParents(r.clock, r.tables.events, ParentsFor(r, n, other));
    assert NodeGood(w, n);
    ParentsBounded(h, w, n, other);
    MergedBounded(w.nodes, r.clock, r.tables.events, ParentsFor(r, n, other));
    TipCounter(h, w, n, other);
    assert Get(merged, n) <= Count(w.nodes, n);
  }

  /** The self-parent carries the counter of the node's latest event. */
  lemma TipCounter(h: Hash, w: World, n: NodeId, other: Option<Id>)
    requires Good(h, w) && n in w.nodes && MayPick(w.nodes[n], n, other)
    ensures var r := w.nodes[n];
      Get(MergeParents(r.clock, r.tables.events, ParentsFor(r, n, other)), n) >= Count(w.nodes, n)
  {
    var r := w.nodes[n];
    assert NodeGood(w, n);
    var d, parents, own := r.tables.events, ParentsFor(r, n, other), Own(r, n);
    SelfParentFirst(r, n, other);
    ParentsHeld(r, n, other, parents[0]);
    assert Link(w.issued, own, n, |own| - 1);
    assert Get(d[parents[0]].vclock, n) <= Get(MergeParents(r.clock, d, parents), n);
  }

  /** Hence the content of a new event was never hashed before. */
  lemma NewContentFresh(h: Hash, w: World, n: NodeId, c: Content)
    requires Good(h, w) && MadeAll(h, w) && c.source == n && n in w.nodes
    requires Get(c.vclock, n) == |Own(w.nodes[n], n)|
    ensures c !in w.made
  {
    if c in w.made {
      var k := InChain(h, w, h(c));
    }
  }

  lemma {:induction false} EmitReplica(h: Hash, w: World, n: NodeId, other: Option<Id>, c: Content, r': Replica,
                                       issued: Graph)
    requires Good(h, w) && n in w.nodes && MayPick(w.nodes[n], n, other)
    requires c.source == n && c.vclock == NewClock(w.nodes[n], n, other)
    requires c.parents == ParentsFor(w.nodes[n], n, other)
    requires h(c) !in w.issued && issued == w.issued[h(c) := EventOf(h, c)]
    requires r'.anchors == AnchorIds(w.nodes[n])
    requires r'.tables == Stored(w.nodes[n].tables, Envelope(EventOf(h, c), [Hop(n, Some(c.tsLocal))], None))
    ensures ReplicaGood(issued, n, r') && h(c) in r'.tables.events
    ensures |Own(r', n)| == |Own(w.nodes[n], n)| + 1
  {
    var r, env := w.nodes[n], Envelope(EventOf(h, c), [Hop(n, Some(c.tsLocal))], None);
    assert NodeGood(w, n);
    NewCounter(h, w, n, other);
    EmitChain(h, w.issued, r, n, other, c, issued);
    forall a | a in r'.anchors ensures a in r.tables.events { AnchorsHeld(r, a); }
    StoredReplica(issued, n, r.tables, env, r', Own(r, n));
  }

  lemma EmitChain(h: Hash, d: Graph, r: Replica, n: NodeId, other: Option<Id>, c: Content, issued: Graph)
    requires Chain(d, Own(r, n), n) && h(c) !in d && issued == d[h(c) := EventOf(h, c)]
    requires c.source == n && c.parents == ParentsFor(r, n, other) && Get(c.vclock, n) == |Own(r, n)|
    ensures Chain(issued, Own(r, n) + [h(c)], n)
  {
    SelfParentFirst(r, n, other);
    ChainGrows(d, issued, Own(r, n), n);
    ChainAppend(issued, Own(r, n), n, h(c));
  }

  lemma EmitCausal(h: Hash, w: World, n: NodeId, other: Option<Id>, c: Content, issued: Graph)
    requires Good(h, w) && n in w.nodes && MayPick(w.nodes[n], n, other)
    requires c.vclock == NewClock(w.nodes[n], n, other) && c.parents == ParentsFor(w.nodes[n], n, other)
    requires h(c) !in w.issued && issued == w.issued[h(c) := EventOf(h, c)]
    ensures Causal(issued, h(c))
  {
    var r := w.nodes[n];
    assert NodeGood(w, n);
    var base := MergeParents(r.clock, r.tables.events, c.parents);
    forall p | p in Parents(issued[h(c)]) ensures p in issued && HappenedBefore(issued[p].vclock, issued[h(c)].vclock) {
      ParentsHeld(r, n, other, p);
      StepAfter(issued[p].vclock, base, n);
    }
  }

  lemma {:induction false} EmitGood(h: Hash, w: World, n: NodeId, other: Option<Id>, c: Content, r': Replica, w': World)
    requires Good(h, w) && MadeAll(h, w) && n in w.nodes && MayPick(w.nodes[n], n, other)
    requires c.source == n && c.vclock == NewClock(w.nodes[n], n, other)
    requires c.parents == ParentsFor(w.nodes[n], n, other)
    requires r' == Replica(Stored(w.nodes[n].tables, Envelope(EventOf(h, c), [Hop(n, Some(c.tsLocal))], None)),
                           c.vclock, AnchorIds(w.nodes[n]))
    requires w' == Issue(h, w, n, r', c) && !Collision(h, w'.made)
    ensures Good(h, w') && MadeAll(h, w')
  {
    NewCounter(h, w, n, other);
    NewContentFresh(h, w, n, c);
    FreshId(h, w, c);
    MadeAllStep(h, w, n, r', c);
    EmitReplica(h, w, n, other, c, r', w'.issued);
    EmitCausal(h, w, n, other, c, w'.issued);
    EmitBounded(w, n, other, w'.nodes);
    IssueGood(h, w, n, r', c, w');
  }

  lemma EmitBounded(w: World, n: NodeId, other: Option<Id>, nodes: map<NodeId, Replica>)
    requires n in w.nodes && Own(w.nodes[n], n) != []
    requires n in nodes && nodes == w.nodes[n := nodes[n]] && |Own(nodes[n], n)| == |Own(w.nodes[n], n)| + 1
    requires var r := w.nodes[n];
      && var merged := MergeParents(r.clock, r.tables.events, ParentsFor(r, n, other));
      Bounded(w.nodes, merged) && Get(merged, n) == Count(w.nodes, n)
    ensures Bounded(nodes, NewClock(w.nodes[n], n, other))
  {
    var r := w.nodes[n];
    var merged := MergeParents(r.clock, r.tables.events, ParentsFor(r, n, other));
    forall c ensures Get(Incremented(merged, n), c) <= Count(nodes, c) {
      assert Get(merged, c) <= Count(w.nodes, c);
    }
  }

  // ---- Receiving and restarting ----

  lemma SameBounds(nodes: map<NodeId, Replica>, nodes': map<NodeId, Replica>, n: NodeId, r: Replica)
    requires n in nodes && nodes' == nodes[n := r] && Own(r, n) == Own(nodes[n], n)
    ensures forall clock :: Bounded(nodes, clock) ==> Bounded(nodes', clock)
  {
    forall c ensures Count(nodes, c) == Count(nodes', c) { assert c != n && c in nodes ==> nodes'[c] == nodes[c]; }
  }

  lemma EventStays(h: Hash, w: World, n: NodeId, r: Replica, w': World, x: Id)
    requires EventGood(h, w, x) && n in w.nodes && w' == w.(nodes := w.nodes[n := r])
    requires Own(r, n) == Own(w.nodes[n], n) && w.nodes[n].tables.events.Keys <= r.tables.events.Keys
    ensures EventGood(h, w', x)
  {
    SameBounds(w.nodes, w'.nodes, n, r);
  }

  lemma ChangedNode(h: Hash, w: World, n: NodeId, r: Replica, w': World)
    requires Good(h, w) && MadeAll(h, w) && n in w.nodes && w' == w.(nodes := w.nodes[n := r])
    requires ReplicaGood(w.issued, n, r) && Bounded(w.nodes, r.clock)
    requires Own(r, n) == Own(w.nodes[n], n) && w.nodes[n].tables.events.Keys <= r.tables.events.Keys
    ensures Good(h, w') && MadeAll(h, w')
  {
    SameBounds(w.nodes, w'.nodes, n, r);
    forall x | x in w'.issued ensures EventGood(h, w', x) {
      assert EventGood(h, w, x);
      EventStays(h, w, n, r, w', x);
    }
    forall m | m in w'.nodes ensures NodeGood(w', m) {
      if m != n { assert NodeGood(w, m); }
    }
  }

  lemma {:induction false} IngestReplica(issued: Graph, n: NodeId, r: Replica, env: Envelope)
    requires ReplicaGood(issued, n, r) && env.event.id in issued && issued[env.event.id] == env.event
    requires env.event.source == n ==> env.event.id in r.tables.events
    ensures ReplicaGood(issued, n, Ingested(r, env)) && Own(Ingested(r, env), n) == Own(r, n)
    ensures r.tables.events.Keys <= Ingested(r, env).tables.events.Keys
  {
    StoredWellFormed(r.tables, env);
    StoredExtends(r.tables, env, issued);
    OwnStored(r.tables, env, n);
  }

  /** A delivered copy never adds to the receiver's own chain: the receiver already holds all its own events. */
  lemma ReceiveGood(h: Hash, w: World, n: NodeId, x: Id, path: seq<Hop>, ts: Option<real>, w': World)
    requires Good(h, w) && MadeAll(h, w) && n in w.nodes && x in w.issued
    requires w' == Act(h, w, Receive(n, x, path, ts))
    ensures Good(h, w') && MadeAll(h, w')
  {
    var r, env := w.nodes[n], Envelope(w.issued[x], path, ts);
    assert NodeGood(w, n) && EventGood(h, w, x);
    IngestReplica(w.issued, n, r, env);
    ChangedNode(h, w, n, Ingested(r, env), w');
  }

  lemma RestartGood(h: Hash, w: World, n: NodeId, w': World)
    requires Good(h, w) && MadeAll(h, w) && n in w.nodes && w' == Act(h, w, Restart(n))
    ensures Good(h, w') && MadeAll(h, w')
  {
    var r := w.nodes[n];
    assert NodeGood(w, n);
    forall a | a in AnchorScan(r.tables) ensures a in r.tables.events { AnchorsHeld(r.(anchors := []), a); }
    ChangedNode(h, w, n, Restarted(r), w');
  }

  // ---- Every run ----

  lemma StepGood(h: Hash, w: World, a: Action, w': World)
    requires Good(h, w) && MadeAll(h, w) && Step(h, w, a, w') && !Collision(h, w'.made)
    ensures Good(h, w') && MadeAll(h, w')
  {
    match a
    case Boot(n, ts, payload) => BootGood(h, w, n, ts, payload, w');
    case Emit(n, cls, ts, genesis, payload, other) =>
      var c := NewContent(w.nodes[n], n, cls, ts, genesis, payload, other);
      EmitGood(h, w, n, other, c, w'.nodes[n], w');
    case Receive(n, x, path, ts) => ReceiveGood(h, w, n, x, path, ts, w');
    case Restart(n) => RestartGood(h, w, n, w');
  }

  lemma StepGrows(h: Hash, w: World, a: Action, w': World)
    requires Step(h, w, a, w')
    ensures w.made <= w'.made
  {
  }

  lemma {:induction false} MadeGrows(h: Hash, actions: seq<Action>, trace: seq<World>, i: nat, j: nat)
    requires Run(h, actions, trace) && i <= j < |trace|
    ensures trace[i].made <= trace[j].made
  {
    if i < j {
      MadeGrows(h, actions, trace, i, j - 1);
      StepGrows(h, trace[j - 1], actions[j - 1], trace[j]);
    }
  }

  /** Cluster invariant: at every moment of every run either the hash has collided or the world is good. */
  lemma {:induction false} RunGood(h: Hash, actions: seq<Action>, trace: seq<World>, i: nat)
    requires Run(h, actions, trace) && i < |trace|
    ensures Collision(h, trace[i].made) || (Good(h, trace[i]) && MadeAll(h, trace[i]))
  {
    if i > 0 && !Collision(h, trace[i].made) {
      MadeGrows(h, actions, trace, i - 1, i);
      RunGood(h, actions, trace, i - 1);
      assert Step(h, trace[i - 1], actions[i - 1], trace[i]);
      StepGood(h, trace[i - 1], actions[i - 1], trace[i]);
    }
  }
}
