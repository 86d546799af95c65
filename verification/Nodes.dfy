/** A node as an object: its methods carry out the steps of `Replicas` (mdrj/node.py:690-759, 807-930, 1005-1116). */
module Nodes {
  import opened Prelude
  import opened Dag
  import opened Sorting
  import opened Timestamps
  import opened Ordering
  import opened Engine
  import opened Toposort
  import opened Storage
  import opened VectorClocks
  import opened Replicas

  /** Ingesting a batch, envelope by envelope. */
  function IngestedAll(r: Replica, envelopes: seq<Envelope>): Replica {
    if envelopes == [] then r
    else Ingested(IngestedAll(r, envelopes[..|envelopes| - 1]), envelopes[|envelopes| - 1])
  }

  /** The ids a batch adds, in order of arrival. */
  function NewIds(d: Graph, envelopes: seq<Envelope>): seq<Id> {
    if envelopes == [] then []
    else
      var earlier, x := envelopes[..|envelopes| - 1], envelopes[|envelopes| - 1].event.id;
      if x in d || x in NewIds(d, earlier) then NewIds(d, earlier) else NewIds(d, earlier) + [x]
  }

  /** They are the ids of the batch that were not stored before, once each, in order of arrival. */
  lemma {:induction false} NewIdsMeaning(d: Graph, envelopes: seq<Envelope>)
    ensures Distinct(NewIds(d, envelopes)) && InOrderOf(NewIds(d, envelopes), EventIds(envelopes))
    ensures forall x :: x in NewIds(d, envelopes) <==> x !in d && x in EventIds(envelopes)
    ensures forall x :: x in EventIds(envelopes) <==> exists env :: env in envelopes && env.event.id == x
  {
    if envelopes != [] {
      var earlier, env := envelopes[..|envelopes| - 1], envelopes[|envelopes| - 1];
      assert envelopes == earlier + [env];
      assert EventIds(envelopes) == EventIds(earlier) + [env.event.id];
      NewIdsMeaning(d, earlier);
      InOrderAppend(NewIds(d, earlier), EventIds(earlier), env.event.id);
    }
  }

  /** A batch adds its new events as rows, in order of arrival. */
  lemma {:induction false} IngestedRows(r: Replica, envelopes: seq<Envelope>)
    ensures var r', ids := IngestedAll(r, envelopes), NewIds(r.tables.events, envelopes);
      && r'.tables.log == r.tables.log + ids && r'.anchors == r.anchors
      && r'.tables.events.Keys == r.tables.events.Keys + Elems(ids)
      && Extends(r.tables.events, r'.tables.events)
  {
    if envelopes != [] {
      IngestedRows(r, envelopes[..|envelopes| - 1]);
    }
  }

  /** And it lifts the clock to the least one that covers the batch. */
  lemma {:induction false} IngestedClock(r: Replica, envelopes: seq<Envelope>, bound: Clock)
    ensures Leq(r.clock, IngestedAll(r, envelopes).clock)
    ensures forall env :: env in envelopes ==> Leq(env.event.vclock, IngestedAll(r, envelopes).clock)
    ensures Leq(r.clock, bound) && (forall env :: env in envelopes ==> Leq(env.event.vclock, bound)) ==>
      Leq(IngestedAll(r, envelopes).clock, bound)
  {
    if envelopes != [] {
      var earlier, env := envelopes[..|envelopes| - 1], envelopes[|envelopes| - 1];
      assert envelopes == earlier + [env];
      IngestedClock(r, earlier, bound);
      var below := IngestedAll(r, earlier).clock;
      LeqThrough(below, Merged(below, env.event.vclock), r, earlier);
    }
  }

  lemma LeqThrough(low: Clock, high: Clock, r: Replica, envelopes: seq<Envelope>)
    requires Leq(low, high)
    ensures Leq(r.clock, low) ==> Leq(r.clock, high)
    ensures forall env :: env in envelopes && Leq(env.event.vclock, low) ==> Leq(env.event.vclock, high)
  {
  }

  lemma Added(before: set<Id>, ids: seq<Id>)
    requires forall x :: x in ids ==> x !in before
    ensures (before + Elems(ids)) - before == Elems(ids)
  {
  }

  lemma BatchStep(r: Replica, envelopes: seq<Envelope>, i: nat)
    requires i < |envelopes|
    ensures envelopes[..i + 1] == envelopes[..i] + [envelopes[i]]
    ensures IngestedAll(r, envelopes[..i + 1]) == Ingested(IngestedAll(r, envelopes[..i]), envelopes[i])
  {
    assert envelopes[..i + 1][..i] == envelopes[..i];
  }

  lemma NewIdsStep(d: Graph, earlier: seq<Envelope>, env: Envelope)
    ensures var x := env.event.id;
      NewIds(d, earlier + [env]) == NewIds(d, earlier) + if x in d || x in NewIds(d, earlier) then [] else [x]
  {
    assert (earlier + [env])[..|earlier|] == earlier;
  }

  /** Columns respect ancestry in any store, and over a view each one is the event's consensus state. */
  ghost predicate Current(d: Graph, columns: map<Id, ConsensusState>, m: set<NodeId>, coin: (Id, nat) -> bool,
                          seen: Sightings)
    requires Acyclic(d)
  {
    CausalColumns(d, columns) && (View(d) ==> ColumnsAre(d, columns, m, coin, seen))
  }

  ghost predicate ColumnsAre(d: Graph, columns: map<Id, ConsensusState>, m: set<NodeId>, coin: (Id, nat) -> bool,
                             seen: Sightings)
    requires View(d)
  {
    forall x {:trigger columns[x]} :: x in d ==> x in columns && columns[x] == StateOf(d, m, coin, seen, x)
  }

  class Node {
    const nodeId: NodeId
    const hash: Hash
    const storage: DagStorage
    const consensus: ConsensusEngine
    var membership: seq<Option<NodeId>>
    var vectorClock: Clock
    var anchors: seq<Id>

    /** A freshly started process over a store that may already hold events. */
    constructor (nodeId: NodeId, hash: Hash, coin: (Id, nat) -> bool, storage: DagStorage,
                 membership: seq<Option<NodeId>>)
      requires storage.Valid()
      ensures this.nodeId == nodeId && this.hash == hash && this.storage == storage && this.membership == membership
      ensures this.consensus.nodeId == nodeId && this.consensus.coin == coin
      ensures State() == Replica(storage.Contents(), map[], []) && Valid()
    {
      this.nodeId, this.hash, this.storage, this.membership := nodeId, hash, storage, membership;
      this.consensus := new ConsensusEngine(nodeId, coin);
      this.vectorClock, this.anchors := map[], [];
    }

    ghost function State(): Replica
      reads this, storage
    {
      Replica(storage.Contents(), vectorClock, anchors)
    }

    ghost predicate Valid()
      reads this, storage
    {
      storage.Valid() && consensus.nodeId == nodeId && forall a :: a in anchors ==> a in storage.events
    }

    method ReadAnchors() returns (ids: seq<Id>)
      requires Valid()
      modifies this`anchors
      ensures Valid()
      ensures ids == anchors == Replicas.AnchorIds(old(State()))
    {
      if anchors != [] {
        return anchors;
      }
      ids := ScanAnchors();
      forall a | a in ids ensures a in storage.events {
        AnchorsStored(storage.Contents(), a);
        assert a in Elems(storage.log);
      }
      anchors := ids;
    }

    method ScanAnchors() returns (ids: seq<Id>)
      ensures ids == AnchorScan(storage.Contents())
    {
      var oldest := storage.log[..if ANCHOR_LIMIT < |storage.log| then ANCHOR_LIMIT else |storage.log|];
      ids := [];
      for i := 0 to |oldest|
        invariant ids == GenesisIn(storage.events, oldest[..i])
      {
        assert oldest[..i + 1][..i] == oldest[..i];
        var x := oldest[i];
        if x in storage.events && storage.events[x].genesis && x !in ids {
          ids := ids + [x];
        }
      }
      assert oldest[..|oldest|] == oldest;
      if ids == [] && oldest != [] {
        ids := [oldest[0]];
      }
    }

    /** `_bootstrap_genesis`: a genesis event on an empty store or when forced, else only the anchors are read back. */
    method Bootstrap(ts: real, payload: nat, force: bool)
      requires Valid() && vectorClock == map[] && anchors == []
      modifies this`anchors, storage
      ensures Valid()
      ensures old(storage.log) == [] ==> State() == Booted(hash, nodeId, ts, payload)
      ensures old(storage.log) != [] && !force ==> State() == Restarted(old(State()))
      ensures old(storage.log) != [] && force ==> State() == Reborn(old(State()), hash, nodeId, ts, payload)
      ensures old(storage.log) != [] && !force ==> AnchorsRead(storage.Contents(), anchors)
      ensures old(storage.log) == [] || force ==> BornOf(old(storage.events), ts, payload)
    {
      if !force && storage.log != [] {
        AnchorsMeaning(storage.Contents());
        var ids := ReadAnchors();
        return;
      }
      if storage.log == [] { EmptyStore(storage.Contents()); }
      var event := EventOf(hash, GenesisContent(nodeId, ts, payload));
      PathKept(storage.Contents(), Envelope(event, [Hop(nodeId, Some(ts))], Some(ts)));
      var stored := storage.StoreEnvelope(Envelope(event, [Hop(nodeId, Some(ts))], Some(ts)), Some(ts));
      anchors := [event.id];
    }

    /** The only anchor is a genesis event of this node: no parents, no clock, observed and final at `ts`. An event
        already stored under its id stays as it was. */
    ghost predicate BornOf(before: Graph, ts: real, payload: nat)
      reads this, storage
    {
      && |anchors| == 1 && var x := anchors[0];
      && x == hash(Content(C, nodeId, ts, map[], [], true, payload)) && x in storage.events
      && (x in before ==> storage.events[x] == before[x])
      && (x !in before ==> storage.events[x] == Event(x, C, nodeId, nodeId, ts, map[], [], true, payload))
      && Hop(nodeId, Some(ts)) in PathAt(storage.Contents(), x)
      && x in storage.consensusTs && storage.consensusTs[x].Some?
      && (x !in before ==> storage.consensusTs[x] == Some(ts))
    }

    /** Pick some recent event of another node, if there is one. */
    method PickOther(taken: seq<Id>) returns (other: Option<Id>)
      requires taken == SelfParent(State(), nodeId)
      ensures MayPick(State(), nodeId, other)
    {
      var recent := storage.ListRecentEvents(RECENT_LIMIT);
      var others := ForeignAmong(recent, taken);
      if others == [] {
        other := None;
      } else {
        var pick :| 0 <= pick < |others|;
        other := Some(others[pick]);
      }
    }

    method ForeignAmong(recent: seq<Id>, taken: seq<Id>) returns (others: seq<Id>)
      ensures others == Foreign(storage.events, recent, nodeId, taken)
    {
      others := [];
      for i := 0 to |recent|
        invariant others == Foreign(storage.events, recent[..i], nodeId, taken)
      {
        assert recent[..i + 1][..i] == recent[..i];
        var x := recent[i];
        if x in storage.events && storage.events[x].source != nodeId && x !in taken {
          others := others + [x];
        }
      }
      assert recent[..|recent|] == recent;
    }

    method ChooseParents() returns (parents: seq<Id>, ghost other: Option<Id>)
      requires Valid()
      modifies this`anchors
      ensures Valid() && anchors == Replicas.AnchorIds(old(State()))
      ensures MayPick(old(State()), nodeId, other) && parents == ParentsFor(old(State()), nodeId, other)
    {
      var latest := storage.LatestEventBySource(nodeId);
      parents := AsSeq(latest);
      var picked := PickOther(parents);
      other := picked;
      parents := parents + AsSeq(picked);
      var ids := ReadAnchors();
      parents := FillParents(parents, ids);
    }

    static method FillParents(chosen: seq<Id>, ids: seq<Id>) returns (parents: seq<Id>)
      ensures parents == FirstTwo(Filled(chosen, ids))
    {
      parents := chosen;
      for i := 0 to |ids|
        invariant Filled(parents, ids[i..]) == Filled(chosen, ids)
      {
        if |parents| >= 2 { break; }
        if ids[i] !in parents { parents := parents + [ids[i]]; }
      }
      parents := parents[..if |parents| < 2 then |parents| else 2];
    }

    method MergeClocks(parents: seq<Id>) returns (merged: Clock)
      ensures merged == MergeParents(vectorClock, storage.events, parents)
    {
      merged := vectorClock;
      for i := 0 to |parents|
        invariant merged == MergeParents(vectorClock, storage.events, parents[..i])
      {
        assert parents[..i + 1][..i] == parents[..i];
        if parents[i] in storage.events {
          merged := Merge(merged, storage.events[parents[i]].vclock);
        }
      }
      assert parents[..|parents|] == parents;
    }

    /** The consensus columns are those of a recomputation over the current store. */
    ghost predicate Refreshed()
      reads `membership, storage
      requires Acyclic(storage.events)
    {
      Current(storage.events, storage.verdicts, Members(membership, nodeId), consensus.coin,
        Sighted(storage.Contents()))
    }

    /** Emit a new event. When the recomputation inside raises, the event stays stored but the clock is not advanced. */
    method EmitEvent(cls: EventClass, ts: real, genesis: bool, payload: nat)
        returns (event: Event, stored: bool, raised: bool, ghost other: Option<Id>)
      requires Valid()
      modifies this`anchors, this`vectorClock, storage
      ensures Valid()
      ensures MayPick(old(State()), nodeId, other)
      ensures event == EventOf(hash, NewContent(old(State()), nodeId, cls, ts, genesis, payload, other))
      ensures stored <==> event.id !in old(storage.events)
      ensures raised <==> !Acyclic(storage.events)
      ensures !raised ==> Refreshed()
      ensures !raised ==> State() == Emitted(old(State()), hash, nodeId, cls, ts, genesis, payload, other)
      ensures raised ==>
        State() == Emitted(old(State()), hash, nodeId, cls, ts, genesis, payload, other).(clock := old(vectorClock))
    {
      ghost var before := State();
      event, other := BuildEvent(cls, ts, genesis, payload);
      stored, raised := PersistOwn(Envelope(event, [Hop(nodeId, Some(ts))], None));
      EmittedState(before, State(), hash, nodeId, cls, ts, genesis, payload, other, event);
    }

    /** Persist an event just built, then adopt the clock it carries. */
    method PersistOwn(envelope: Envelope) returns (stored: bool, raised: bool)
      requires Valid()
      modifies this`vectorClock, storage
      ensures Valid()
      ensures stored <==> envelope.event.id !in old(storage.events)
      ensures raised <==> !Acyclic(storage.events)
      ensures storage.Contents() == Stored(old(storage.Contents()), envelope)
      ensures vectorClock == if raised then old(vectorClock) else envelope.event.vclock
      ensures !raised ==> Refreshed()
    {
      stored, raised := PersistEnvelope(envelope, true);
      if !raised {
        AdoptClock(envelope.event.vclock);
      }
    }

    /** `self.vector_clock = local_clock.merge(event.vclock)`, where the event carries the local clock. */
    method AdoptClock(clock: Clock)
      requires Valid()
      modifies this`vectorClock
      ensures Valid() && vectorClock == clock
      ensures Acyclic(storage.events) && old(Refreshed()) ==> Refreshed()
    {
      vectorClock := Merge(clock, clock);
    }

    method BuildEvent(cls: EventClass, ts: real, genesis: bool, payload: nat)
        returns (event: Event, ghost other: Option<Id>)
      requires Valid()
      modifies this`anchors
      ensures Valid() && anchors == Replicas.AnchorIds(old(State()))
      ensures MayPick(old(State()), nodeId, other)
      ensures event == EventOf(hash, NewContent(old(State()), nodeId, cls, ts, genesis, payload, other))
    {
      var parents;
      parents, other := ChooseParents();
      var merged := MergeClocks(parents);
      event := EventOf(hash, Content(cls, nodeId, ts, Incremented(merged, nodeId), parents, genesis, payload));
    }

    method PersistEnvelope(envelope: Envelope, recompute: bool) returns (stored: bool, raised: bool)
      requires Valid()
      modifies this`vectorClock, storage
      ensures Valid()
      ensures stored <==> envelope.event.id !in old(storage.events)
      ensures raised <==> recompute && !Acyclic(storage.events)
      ensures storage.Contents() == Stored(old(storage.Contents()), envelope)
      ensures vectorClock == if raised then old(vectorClock) else Merged(old(vectorClock), envelope.event.vclock)
      ensures recompute && !raised ==> Refreshed()
    {
      stored, raised := StoreAndRecompute(envelope, recompute);
      if !raised {
        CatchUp(envelope.event.vclock);
      }
    }

    method CatchUp(clock: Clock)
      requires Valid()
      modifies this`vectorClock
      ensures Valid() && vectorClock == Merged(old(vectorClock), clock)
      ensures Acyclic(storage.events) && old(Refreshed()) ==> Refreshed()
    {
      vectorClock := Merge(vectorClock, clock);
    }

    method StoreAndRecompute(envelope: Envelope, recompute: bool) returns (stored: bool, raised: bool)
      requires Valid()
      modifies storage
      ensures Valid()
      ensures stored <==> envelope.event.id !in old(storage.events)
      ensures raised <==> recompute && !Acyclic(storage.events)
      ensures storage.Contents() == Stored(old(storage.Contents()), envelope)
      ensures recompute && !raised ==> Refreshed()
    {
      raised := false;
      stored := storage.StoreEnvelope(envelope, envelope.consensusTs);
      if recompute {
        raised := RecomputeConsensus();
      }
    }

    /** Store a received batch and recompute once if anything was new. */
    method IngestEnvelopes(envelopes: seq<Envelope>) returns (newIds: seq<Id>, raised: bool)
      requires Valid()
      modifies this`vectorClock, storage
      ensures Valid()
      ensures State() == IngestedAll(old(State()), envelopes)
      ensures newIds == NewIds(old(storage.events), envelopes)
      ensures Elems(newIds) == storage.events.Keys - old(storage.events).Keys
      ensures raised <==> newIds != [] && !Acyclic(storage.events)
      ensures newIds != [] && !raised ==> Refreshed()
    {
      raised := false;
      newIds := IngestBatch(envelopes);
      NewIdsMeaning(old(storage.events), envelopes);
      Added(old(storage.events).Keys, newIds);
      if newIds != [] {
        raised := RecomputeConsensus();
      }
    }

    method IngestBatch(envelopes: seq<Envelope>) returns (newIds: seq<Id>)
      requires Valid()
      modifies this`vectorClock, storage
      ensures Valid()
      ensures State() == IngestedAll(old(State()), envelopes)
      ensures newIds == NewIds(old(storage.events), envelopes)
      ensures storage.events.Keys == old(storage.events).Keys + Elems(newIds)
    {
      newIds := [];
      ghost var start, before := State(), storage.events;
      for i := 0 to |envelopes|
        invariant Valid()
        invariant State() == IngestedAll(start, envelopes[..i])
        invariant newIds == NewIds(before, envelopes[..i])
        invariant storage.events.Keys == before.Keys + Elems(newIds)
      {
        BatchStep(start, envelopes, i);
        newIds := IngestOne(envelopes[i], newIds, before, envelopes[..i]);
      }
      assert envelopes[..|envelopes|] == envelopes;
    }

    /** One turn of the loop. */
    method IngestOne(envelope: Envelope, newIds: seq<Id>, ghost before: Graph, ghost earlier: seq<Envelope>)
        returns (newIds': seq<Id>)
      requires Valid() && newIds == NewIds(before, earlier) && storage.events.Keys == before.Keys + Elems(newIds)
      modifies this`vectorClock, storage
      ensures Valid()
      ensures State() == Ingested(old(State()), envelope)
      ensures newIds' == NewIds(before, earlier + [envelope])
      ensures storage.events.Keys == before.Keys + Elems(newIds')
    {
      NewIdsStep(before, earlier, envelope);
      var stored, _ := PersistEnvelope(envelope, false);
      newIds' := if stored then newIds + [envelope.event.id] else newIds;
    }

    /** Recompute consensus over the store and write the verdicts back. */
    method RecomputeConsensus() returns (raised: bool)
      requires Valid()
      modifies storage
      ensures Valid() && storage.Contents() == old(storage.Contents())
      ensures raised <==> !Acyclic(storage.events)
      ensures !raised ==> Refreshed()
    {
      if storage.events == map[] {
        EmptyAcyclic(storage.events);
        return false;
      }
      var order := storage.TopologicalOrder();
      if order.None? {
        return true;
      }
      var states := ComputeStates(storage.events, order.value, storage.envelopes);
      storage.ReplaceConsensusState(states);
      assert Rewritten(states, storage.events, storage.verdicts);
      ColumnsCurrent(storage.events, Members(membership, nodeId), consensus.coin, Sighted(storage.Contents()),
        states, storage.verdicts);
      raised := false;
    }

    method ComputeStates(d: Graph, order: seq<Id>, pathMeta: map<Id, seq<Hop>>) returns (states: seq<ConsensusState>)
      requires WellKeyed(d) && Linear(d, order) && Acyclic(d) && consensus.nodeId == nodeId
      ensures StatesCausal(d, states)
      ensures View(d) ==> IsOutcome(d, Members(membership, nodeId), consensus.coin, SightingsOf(pathMeta), states)
    {
      LinearSound(d, order);
      states := consensus.Recompute(Arranged(d, order), membership, pathMeta);
    }
  }

  /** What the states of a recomputation respect in every store. */
  ghost predicate StatesCausal(d: Graph, states: seq<ConsensusState>)
    requires Acyclic(d)
  {
    && (forall x :: x in d ==> exists i :: 0 <= i < |states| && states[i].eventId == x)
    && (forall a, b :: a in states && b in states ==> InOrder(d, a, b))
    && forall s :: s in states ==> NotEarly(s)
  }

  lemma StateFound(d: Graph, states: seq<ConsensusState>, x: Id)
    requires Acyclic(d) && StatesCausal(d, states) && x in d
    ensures LastFor(states, x).Some? && LastFor(states, x).value in states && LastFor(states, x).value.eventId == x
  {
    var i :| 0 <= i < |states| && states[i].eventId == x;
    LastFound(states, x, i);
    var j := LastIndex(states, x);
  }

  /** Every column holds the last state given for its event. */
  ghost predicate Rewritten(states: seq<ConsensusState>, d: Graph, columns: map<Id, ConsensusState>) {
    forall x :: x in d && LastFor(states, x).Some? ==> x in columns && columns[x] == LastFor(states, x).value
  }

  lemma ColumnsCausal(states: seq<ConsensusState>, d: Graph, columns: map<Id, ConsensusState>)
    requires Acyclic(d) && StatesCausal(d, states) && Rewritten(states, d, columns)
    ensures CausalColumns(d, columns)
  {
    forall x | x in d
      ensures x in columns && columns[x].eventId == x && columns[x] in states
    {
      StateFound(d, states, x);
    }
  }

  lemma ColumnsCurrent(d: Graph, m: set<NodeId>, coin: (Id, nat) -> bool, seen: Sightings,
                       states: seq<ConsensusState>, columns: map<Id, ConsensusState>)
    requires Acyclic(d) && StatesCausal(d, states) && Rewritten(states, d, columns)
    requires View(d) ==> IsOutcome(d, m, coin, seen, states)
    ensures Current(d, columns, m, coin, seen)
  {
    ColumnsCausal(states, d, columns);
    if View(d) {
      forall x | x in d ensures x in columns && columns[x] == StateOf(d, m, coin, seen, x) {
        OutcomeLast(d, m, coin, seen, states, x);
      }
    }
  }

  /** `r'` is what emitting `e` leaves of `r`, but for the clock. */
  lemma EmittedState(r: Replica, r': Replica, h: Hash, me: NodeId, cls: EventClass, ts: real, genesis: bool,
                     payload: nat, other: Option<Id>, e: Event)
    requires e == EventOf(h, NewContent(r, me, cls, ts, genesis, payload, other))
    requires r'.tables == Stored(r.tables, Envelope(e, [Hop(me, Some(ts))], None))
    requires r'.anchors == Replicas.AnchorIds(r)
    ensures Emitted(r, h, me, cls, ts, genesis, payload, other) == r'.(clock := e.vclock)
    ensures r' == Emitted(r, h, me, cls, ts, genesis, payload, other).(clock := r'.clock)
  {
  }

  lemma EmptyStore(t: Tables)
    requires WellFormed(t) && t.log == []
    ensures t == EMPTY_TABLES
  {
    assert Elems(t.log) == {};
    assert t.events == map[] && t.hops == map[];
    forall edge ensures edge !in t.edges { assert edge == (edge.0, edge.1); }
  }

  lemma EmptyAcyclic(d: Graph)
    requires d == map[]
    ensures Acyclic(d)
  {
    assert Ranked(d, map[]);
  }

  /** In the outcome of a view the last state for an event is the event's state. */
  lemma {:induction false} OutcomeLast(d: Graph, m: set<NodeId>, coin: (Id, nat) -> bool, seen: Sightings,
                                       states: seq<ConsensusState>, x: Id)
    requires View(d) && IsOutcome(d, m, coin, seen, states) && x in d
    ensures LastFor(states, x) == Some(StateOf(d, m, coin, seen, x))
  {
    var keys :| IsOrder(d, m, coin, seen, keys) && StatesAlong(d, m, coin, seen, keys, states);
    var i := KeyIndex(d, m, coin, seen, keys, x);
    LastFound(states, x, i);
    var j := LastIndex(states, x);
  }

  lemma {:induction false} KeyIndex(d: Graph, m: set<NodeId>, coin: (Id, nat) -> bool, seen: Sightings,
                                    keys: seq<OrderKey>, x: Id) returns (i: nat)
    requires View(d) && IsOrder(d, m, coin, seen, keys) && x in d
    ensures i < |keys| && keys[i].id == x
  {
    assert KeyOf(d, m, coin, seen, x) in keys;
    i :| 0 <= i < |keys| && keys[i] == KeyOf(d, m, coin, seen, x);
  }

  lemma {:induction false} LastFound(states: seq<ConsensusState>, x: Id, i: nat)
    requires i < |states| && states[i].eventId == x
    ensures LastFor(states, x).Some?
  {
    if i < |states| - 1 { LastFound(states[..|states| - 1], x, i); }
  }

  lemma {:induction false} LastIndex(states: seq<ConsensusState>, x: Id) returns (j: nat)
    requires LastFor(states, x).Some?
    ensures j < |states| && LastFor(states, x).value == states[j] && states[j].eventId == x
  {
    if states[|states| - 1].eventId == x { j := |states| - 1; } else { j := LastIndex(states[..|states| - 1], x); }
  }
}
