/** The event store: idempotent inserts, merged path metadata, and replica convergence (mdrj/storage.py). */
module Storage {
  import opened Prelude
  import opened Dag
  import opened Sorting
  import opened Timestamps
  import opened Ordering
  import opened Assignment
  import opened Toposort

  /** A copy of an event on its way: the event, the hops it took, and the sender's consensus timestamp for it. */
  datatype Envelope = Envelope(event: Event, path: seq<Hop>, consensusTs: Option<real>)

  function IdsIn(envelopes: seq<Envelope>): set<Id> {
    set env | env in envelopes :: env.event.id
  }

  /** The ids of a batch, in order. */
  function EventIds(envelopes: seq<Envelope>): seq<Id> {
    seq(|envelopes|, i requires 0 <= i < |envelopes| => envelopes[i].event.id)
  }

  lemma IdsAppend(envelopes: seq<Envelope>, env: Envelope)
    ensures IdsIn(envelopes + [env]) == IdsIn(envelopes) + {env.event.id}
  {
    assert forall e :: e in envelopes + [env] <==> e in envelopes || e == env;
  }

  /** The `events`, `edges` and `envelopes` tables. `log` lists the rows in order of `created_at`. */
  datatype Tables = Tables(log: seq<Id>, events: Graph, edges: Edges, hops: map<Id, seq<Hop>>)

  const EMPTY_TABLES := Tables([], map[], {}, map[])

  ghost predicate WellFormed(t: Tables) {
    && Distinct(t.log) && Elems(t.log) == t.events.Keys
    && WellKeyed(t.events) && t.hops.Keys == t.events.Keys
    && EdgesOf(t.events, t.edges)
  }

  // ---- Path metadata ----

  function AddHops(merged: seq<Hop>, more: seq<Hop>): seq<Hop>
    decreases more
  {
    if more == [] then merged
    else AddHops(if more[0] in merged then merged else merged + [more[0]], more[1..])
  }

  function PathAt(t: Tables, x: Id): seq<Hop> {
    if x in t.hops then t.hops[x] else []
  }

  lemma {:induction false} AddHopsMeaning(merged: seq<Hop>, more: seq<Hop>)
    ensures merged <= AddHops(merged, more)
    ensures forall h :: h in AddHops(merged, more) <==> h in merged || h in more
    ensures Distinct(merged) ==> Distinct(AddHops(merged, more))
    decreases more
  {
    if more != [] {
      assert more == [more[0]] + more[1..];
      AddHopsMeaning(if more[0] in merged then merged else merged + [more[0]], more[1..]);
    }
  }

  /** The path metadata after merging: old hops first, then the new ones. */
  function MergedPath(existing: seq<Hop>, path: seq<Hop>): seq<Hop> {
    AddHops(AddHops([], existing), path)
  }

  /** Every (node, ts) pair that was there or is new, once. */
  lemma MergedPathMeaning(existing: seq<Hop>, path: seq<Hop>)
    ensures forall h :: h in MergedPath(existing, path) <==> h in existing || h in path
    ensures Distinct(MergedPath(existing, path))
  {
    AddHopsMeaning([], existing);
    AddHopsMeaning(AddHops([], existing), path);
  }

  /** A path that repeats nothing is kept in front; the new hops follow in the order reported. */
  lemma MergedPathOrder(existing: seq<Hop>, path: seq<Hop>)
    requires Distinct(existing)
    ensures existing <= MergedPath(existing, path)
    ensures InOrderOf(MergedPath(existing, path), existing + path)
  {
    AddHopsOrder([], [], existing);
    assert [] + existing == existing;
    AddHopsFresh([], existing);
    AddHopsMeaning(existing, path);
    AddHopsOrder(existing, existing, path);
  }

  lemma {:induction false} AddHopsFresh(merged: seq<Hop>, more: seq<Hop>)
    requires Distinct(merged + more)
    ensures AddHops(merged, more) == merged + more
    decreases more
  {
    if more != [] {
      assert (merged + more)[|merged|] == more[0];
      assert forall i :: 0 <= i < |merged| ==> (merged + more)[i] == merged[i];
      assert merged + [more[0]] + more[1..] == merged + more;
      AddHopsFresh(merged + [more[0]], more[1..]);
    }
  }

  lemma {:induction false} AddHopsOrder(merged: seq<Hop>, base: seq<Hop>, more: seq<Hop>)
    requires InOrderOf(merged, base) && forall h :: h in merged <==> h in base
    ensures InOrderOf(AddHops(merged, more), base + more)
    decreases more
  {
    if more == [] {
      assert base + more == base;
    } else {
      var h, rest := more[0], more[1..];
      InOrderAppend(merged, base, h);
      assert base + [h] + rest == base + more;
      if h in merged {
        AddHopsOrder(merged, base + [h], rest);
      } else {
        AddHopsOrder(merged + [h], base + [h], rest);
      }
    }
  }

  function EdgesInto(e: Event): Edges {
    set p | p in Parents(e) :: (p, e.id)
  }

  /** Storing an envelope: a known event only gains observations. */
  function Stored(t: Tables, env: Envelope): Tables {
    var id := env.event.id;
    var hops := t.hops[id := MergedPath(PathAt(t, id), env.path)];
    if id in t.events then t.(hops := hops)
    else Tables(t.log + [id], t.events[id := env.event], t.edges + EdgesInto(env.event), hops)
  }

  lemma PathKept(t: Tables, env: Envelope)
    ensures forall h :: h in env.path || h in PathAt(t, env.event.id) ==> h in PathAt(Stored(t, env), env.event.id)
  {
    MergedPathMeaning(PathAt(t, env.event.id), env.path);
  }

  lemma StoredWellFormed(t: Tables, env: Envelope)
    requires WellFormed(t)
    ensures WellFormed(Stored(t, env))
  {
    var id := env.event.id;
    var t' := Stored(t, env);
    if id !in t.events {
      DistinctAppend(t.log, id);
      forall p, c ensures (p, c) in t'.edges <==> c in t'.events && p in Parents(t'.events[c]) {
        assert (p, c) in EdgesInto(env.event) <==> c == id && p in Parents(env.event);
        assert c == id ==> (p, c) !in t.edges;
      }
    }
  }

  class DagStorage {
    var log: seq<Id>
    var events: Graph
    var edges: Edges
    var envelopes: map<Id, seq<Hop>>
    // The consensus columns of the `events` table.
    var consensusTs: map<Id, Option<real>>
    var verdicts: map<Id, ConsensusState>

    ghost function Contents(): Tables
      reads this
    {
      Tables(log, events, edges, envelopes)
    }

    ghost predicate Valid()
      reads this
    {
      WellFormed(Contents()) && consensusTs.Keys == events.Keys
    }

    constructor ()
      ensures Valid() && Contents() == EMPTY_TABLES && verdicts == map[]
    {
      log, events, edges, envelopes := [], map[], {}, map[];
      consensusTs, verdicts := map[], map[];
    }

    method MergePathMeta(id: Id, path: seq<Hop>)
      modifies this`envelopes
      ensures envelopes == old(envelopes)[id := MergedPath(PathAt(old(Contents()), id), path)]
    {
      var existing: seq<Hop> := if id in envelopes then envelopes[id] else [];
      var merged := KeepNew([], existing);
      merged := KeepNew(merged, path);
      envelopes := envelopes[id := merged];
    }

    /** Append the hops whose (node, ts) pair has not been seen. */
    static method KeepNew(merged: seq<Hop>, more: seq<Hop>) returns (r: seq<Hop>)
      ensures r == AddHops(merged, more)
    {
      r := merged;
      for i := 0 to |more|
        invariant AddHops(r, more[i..]) == AddHops(merged, more)
      {
        if more[i] !in r { r := r + [more[i]]; }
      }
    }

    method InsertEdges(event: Event)
      modifies this`edges
      ensures edges == old(edges) + EdgesInto(event)
    {
      for i := 0 to |event.parents|
        invariant edges == old(edges) + (set p | p in event.parents[..i] :: (p, event.id))
      {
        assert event.parents[..i + 1] == event.parents[..i] + [event.parents[i]];
        edges := edges + {(event.parents[i], event.id)};
      }
      assert event.parents[..|event.parents|] == event.parents;
    }

    method StoreEnvelope(envelope: Envelope, ts: Option<real>) returns (stored: bool)
      requires Valid()
      modifies this
      ensures Valid()
      ensures stored <==> envelope.event.id !in old(events)
      ensures Contents() == Stored(old(Contents()), envelope)
      ensures verdicts == old(verdicts)
      ensures consensusTs == old(consensusTs)[envelope.event.id :=
        if !stored && old(consensusTs)[envelope.event.id].Some? then old(consensusTs)[envelope.event.id] else ts]
    {
      StoredWellFormed(Contents(), envelope);
      stored := envelope.event.id !in events;
      if stored {
        InsertEnvelope(envelope, ts);
      } else {
        MergeEnvelope(envelope, ts);
      }
    }

    /** A known event: merge its path, fill in a missing timestamp. */
    method MergeEnvelope(envelope: Envelope, ts: Option<real>)
      requires envelope.event.id in events && envelope.event.id in consensusTs
      modifies this`envelopes, this`consensusTs
      ensures Contents() == Stored(old(Contents()), envelope)
      ensures consensusTs == old(consensusTs)[envelope.event.id :=
        if old(consensusTs)[envelope.event.id].Some? then old(consensusTs)[envelope.event.id] else ts]
    {
      var id := envelope.event.id;
      MergePathMeta(id, envelope.path);
      if ts.Some? {
        consensusTs := consensusTs[id := if consensusTs[id].Some? then consensusTs[id] else ts];
      }
    }

    /** A new event: one row, its edges, its path. */
    method InsertEnvelope(envelope: Envelope, ts: Option<real>)
      requires envelope.event.id !in events
      modifies this`events, this`log, this`edges, this`envelopes, this`consensusTs
      ensures Contents() == Stored(old(Contents()), envelope)
      ensures consensusTs == old(consensusTs)[envelope.event.id := ts]
    {
      var event := envelope.event;
      events := events[event.id := event];
      log := log + [event.id];
      consensusTs := consensusTs[event.id := ts];
      InsertEdges(event);
      MergePathMeta(event.id, envelope.path);
    }

    /** Write a recomputation's states back; rows that are not stored are left alone, nothing but columns changes. */
    method ReplaceConsensusState(states: seq<ConsensusState>)
      requires Valid()
      modifies this`consensusTs, this`verdicts
      ensures Valid()
      ensures forall x :: x in events ==> Written(states, x, old(consensusTs), old(verdicts), consensusTs, verdicts)
      ensures verdicts.Keys <= old(verdicts).Keys + events.Keys
    {
      for k := 0 to |states|
        invariant consensusTs.Keys == events.Keys && verdicts.Keys <= old(verdicts).Keys + events.Keys
        invariant forall x :: x in events ==>
          Written(states[..k], x, old(consensusTs), old(verdicts), consensusTs, verdicts)
      {
        WriteState(states, k, old(consensusTs), old(verdicts));
      }
      assert states[..|states|] == states;
    }

    method WriteState(states: seq<ConsensusState>, k: nat, ghost ts: map<Id, Option<real>>,
                      ghost vs: map<Id, ConsensusState>)
      requires k < |states| && consensusTs.Keys == events.Keys
      requires forall x :: x in events ==> Written(states[..k], x, ts, vs, consensusTs, verdicts)
      modifies this`consensusTs, this`verdicts
      ensures consensusTs.Keys == events.Keys && verdicts.Keys <= old(verdicts).Keys + events.Keys
      ensures forall x :: x in events ==> Written(states[..k + 1], x, ts, vs, consensusTs, verdicts)
    {
      var state := states[k];
      if state.eventId in events {
        consensusTs := consensusTs[state.eventId := state.consensusTs];
        verdicts := verdicts[state.eventId := state];
      }
      forall x | x in events ensures Written(states[..k + 1], x, ts, vs, consensusTs, verdicts) {
        assert Written(states[..k], x, ts, vs, old(consensusTs), old(verdicts));
        assert states[..k + 1][..k] == states[..k];
      }
    }

    method TopologicalOrder() returns (order: Option<seq<Id>>)
      requires Valid()
      ensures order.Some? ==> Linear(events, order.value)
      ensures order.Some? <==> Acyclic(events)
      ensures order.None? <==> exists walk :: Cycle(events, walk)
    {
      order := Sorted(events, edges);
    }

    /** The newest row of a source. */
    method LatestEventBySource(source: NodeId) returns (latest: Option<Id>)
      requires Valid()
      ensures latest == Latest(Contents(), source)
    {
      var i := |log|;
      assert log[..|log|] == log;
      while i > 0
        invariant 0 <= i <= |log|
        invariant BySource(events, log, source) == BySource(events, log[..i], source)
      {
        i := i - 1;
        SourceLast(events, log, i, source);
        if log[i] in events && events[log[i]].source == source {
          return Some(log[i]);
        }
      }
      latest := None;
    }

    /** The newest `limit` rows, newest first. */
    method ListRecentEvents(limit: nat) returns (recent: seq<Id>)
      ensures recent == Recent(Contents(), limit)
    {
      recent := [];
      while |recent| < limit && |recent| < |log|
        invariant |recent| <= limit && |recent| <= |log|
        invariant recent == Recent(Contents(), |recent|)
      {
        recent := recent + [log[|log| - 1 - |recent|]];
      }
    }
  }

  /** That is the state after which no other names the event. */
  lemma {:induction false} LastForMeaning(states: seq<ConsensusState>, x: Id, i: nat)
    requires i < |states| && states[i].eventId == x && forall j :: i < j < |states| ==> states[j].eventId != x
    ensures LastFor(states, x) == Some(states[i])
  {
    if i < |states| - 1 { LastForMeaning(states[..|states| - 1], x, i); }
  }

  /** The last state a list gives for an event. */
  function LastFor(states: seq<ConsensusState>, x: Id): Option<ConsensusState> {
    if states == [] then None
    else if states[|states| - 1].eventId == x then Some(states[|states| - 1])
    else LastFor(states[..|states| - 1], x)
  }

  /** The columns of row `x` after writing `states` over the earlier columns. */
  ghost predicate Written(states: seq<ConsensusState>, x: Id, ts: map<Id, Option<real>>,
                          verdicts: map<Id, ConsensusState>, ts': map<Id, Option<real>>,
                          verdicts': map<Id, ConsensusState>) {
    && x in ts && x in ts'
    && match LastFor(states, x)
       case Some(state) => x in verdicts' && verdicts'[x] == state && ts'[x] == state.consensusTs
       case None =>
         && ts'[x] == ts[x] && (x in verdicts' <==> x in verdicts)
         && (x in verdicts ==> verdicts'[x] == verdicts[x])
  }

  /** The rows of one source, oldest first. */
  function BySource(d: Graph, log: seq<Id>, source: NodeId): (own: seq<Id>)
    ensures forall x :: x in own <==> x in log && x in d && d[x].source == source
  {
    if log == [] then []
    else
      var below := BySource(d, log[..|log| - 1], source);
      var x := log[|log| - 1];
      assert log == log[..|log| - 1] + [x];
      if x in d && d[x].source == source then below + [x] else below
  }

  lemma SourceLast(d: Graph, log: seq<Id>, i: nat, source: NodeId)
    requires i < |log|
    ensures BySource(d, log[..i + 1], source) ==
      BySource(d, log[..i], source) + if log[i] in d && d[log[i]].source == source then [log[i]] else []
  {
    assert log[..i + 1][..i] == log[..i];
  }

  function Latest(t: Tables, source: NodeId): Option<Id> {
    var own := BySource(t.events, t.log, source);
    if own == [] then None else Some(own[|own| - 1])
  }

  function Recent(t: Tables, limit: nat): (recent: seq<Id>)
    ensures |recent| == if limit < |t.log| then limit else |t.log|
    ensures forall i :: 0 <= i < |recent| ==> recent[i] == t.log[|t.log| - 1 - i]
  {
    var n := if limit < |t.log| then limit else |t.log|;
    seq(n, i requires 0 <= i < n => t.log[|t.log| - 1 - i])
  }

  // ---- Deliveries ----

  function Deliver(t: Tables, envelopes: seq<Envelope>): Tables {
    if envelopes == [] then t
    else Stored(Deliver(t, envelopes[..|envelopes| - 1]), envelopes[|envelopes| - 1])
  }

  /** Envelopes that carry the same id carry the same event. */
  ghost predicate IdDetermines(envelopes: seq<Envelope>) {
    forall a, b :: a in envelopes && b in envelopes && a.event.id == b.event.id ==> a.event == b.event
  }

  /** The observations a table records for an event. */
  function Observations(t: Tables, x: Id): set<Hop> {
    set h | h in PathAt(t, x)
  }

  /** What a series of deliveries to an empty store leaves behind, whatever their order or multiplicity. */
  ghost predicate Holds(t: Tables, envelopes: seq<Envelope>) {
    && WellFormed(t)
    && (forall x :: x in t.events <==> exists env :: env in envelopes && env.event.id == x)
    && (forall env :: env in envelopes ==> env.event.id in t.events && t.events[env.event.id] == env.event)
    && (forall x, h {:trigger h in PathAt(t, x)} :: h in PathAt(t, x) <==> Reported(envelopes, x, h))
  }

  ghost predicate Reported(envelopes: seq<Envelope>, x: Id, h: Hop) {
    exists env :: env in envelopes && env.event.id == x && h in env.path
  }

  lemma {:induction false} DeliverHolds(envelopes: seq<Envelope>)
    requires IdDetermines(envelopes)
    ensures Holds(Deliver(EMPTY_TABLES, envelopes), envelopes)
  {
    if envelopes != [] {
      var earlier, env := envelopes[..|envelopes| - 1], envelopes[|envelopes| - 1];
      assert envelopes == earlier + [env];
      DeliverHolds(earlier);
      HoldsStep(Deliver(EMPTY_TABLES, earlier), earlier, env);
    }
  }

  lemma {:induction false} HoldsStep(t: Tables, envelopes: seq<Envelope>, env: Envelope)
    requires Holds(t, envelopes) && IdDetermines(envelopes + [env])
    ensures Holds(Stored(t, env), envelopes + [env])
  {
    var t', more := Stored(t, env), envelopes + [env];
    StoredWellFormed(t, env);
    EventsStep(t, envelopes, env);
    forall x, h ensures h in PathAt(t', x) <==> Reported(more, x, h) { PathsStep(t, envelopes, env, x, h); }
  }

  lemma PathsStep(t: Tables, envelopes: seq<Envelope>, env: Envelope, x: Id, h: Hop)
    requires h in PathAt(t, x) <==> Reported(envelopes, x, h)
    ensures h in PathAt(Stored(t, env), x) <==> Reported(envelopes + [env], x, h)
  {
    MergedPathMeaning(PathAt(t, x), env.path);
  }

  lemma EventsStep(t: Tables, envelopes: seq<Envelope>, env: Envelope)
    requires Holds(t, envelopes) && IdDetermines(envelopes + [env])
    ensures var t', more := Stored(t, env), envelopes + [env];
      && (forall x :: x in t'.events <==> exists e :: e in more && e.event.id == x)
      && (forall e :: e in more ==> e.event.id in t'.events && t'.events[e.event.id] == e.event)
  {
    var t', more, id := Stored(t, env), envelopes + [env], env.event.id;
    assert forall e :: e in more <==> e in envelopes || e == env;
    if id in t.events {
      var same :| same in envelopes && same.event.id == id;
      assert same in more && env in more;
    }
  }

  /** The same history, as far as consensus and sync can tell. */
  ghost predicate SameHistory(a: Tables, b: Tables) {
    a.events == b.events && a.edges == b.edges && forall x :: Observations(a, x) == Observations(b, x)
  }

  /** Replica convergence: which envelopes arrived decides what is stored; order and duplication do not. */
  lemma {:induction false} Convergence(a: seq<Envelope>, b: seq<Envelope>)
    requires IdDetermines(a) && forall env :: env in a <==> env in b
    ensures SameHistory(Deliver(EMPTY_TABLES, a), Deliver(EMPTY_TABLES, b))
  {
    DeliverHolds(a);
    DeliverHolds(b);
    HoldSame(Deliver(EMPTY_TABLES, a), Deliver(EMPTY_TABLES, b), a, b);
  }

  lemma HoldSame(ta: Tables, tb: Tables, a: seq<Envelope>, b: seq<Envelope>)
    requires Holds(ta, a) && Holds(tb, b) && forall env :: env in a <==> env in b
    ensures SameHistory(ta, tb)
  {
    SameEdges(ta.events, ta.edges, tb.edges);
    assert forall x :: Observations(ta, x) == Observations(tb, x);
  }

  lemma SameEdges(d: Graph, e1: Edges, e2: Edges)
    requires EdgesOf(d, e1) && EdgesOf(d, e2)
    ensures e1 == e2
  {
    forall edge ensures edge in e1 <==> edge in e2 { assert edge == (edge.0, edge.1); }
  }

  lemma SameSightings(a: Tables, b: Tables, x: Id)
    requires SameHistory(a, b)
    ensures Observed(PathAt(a, x)) == Observed(PathAt(b, x))
  {
    assert Observations(a, x) == Observations(b, x);
    assert forall h :: h in PathAt(a, x) <==> h in Observations(a, x);
    assert forall h :: h in PathAt(b, x) <==> h in Observations(b, x);
  }

  function Sighted(t: Tables): Sightings {
    map x | x in t.hops :: Observed(t.hops[x])
  }

  lemma SameSighted(a: Tables, b: Tables)
    requires SameHistory(a, b) && WellFormed(a) && WellFormed(b)
    ensures Sighted(a) == Sighted(b)
  {
    forall x | x in a.hops ensures Observed(a.hops[x]) == Observed(b.hops[x]) { SameSightings(a, b, x); }
  }

  /** Hence recomputing consensus on either replica gives the same answer, in the same order. */
  lemma {:induction false} ReplicasAgree(a: seq<Envelope>, b: seq<Envelope>, ta: Tables, tb: Tables, m: set<NodeId>,
                                         coin: (Id, nat) -> bool, statesA: seq<ConsensusState>,
                                         statesB: seq<ConsensusState>)
    requires IdDetermines(a) && forall env :: env in a <==> env in b
    requires ta == Deliver(EMPTY_TABLES, a) && tb == Deliver(EMPTY_TABLES, b) && View(ta.events) && View(tb.events)
    requires IsOutcome(ta.events, m, coin, Sighted(ta), statesA)
    requires IsOutcome(tb.events, m, coin, Sighted(tb), statesB)
    ensures statesA == statesB
  {
    Convergence(a, b);
    DeliverHolds(a);
    DeliverHolds(b);
    SameSighted(ta, tb);
    OutcomeUnique(ta.events, m, coin, Sighted(ta), statesA, statesB);
  }

  // ---- From an order of ids to the list of events ----

  function Arranged(d: Graph, order: seq<Id>): (events: seq<Event>)
    requires forall x :: x in order ==> x in d
    ensures |events| == |order| && forall i :: 0 <= i < |order| ==> events[i] == d[order[i]]
  {
    seq(|order|, i requires 0 <= i < |order| => d[order[i]])
  }

  lemma ArrangedIds(d: Graph, order: seq<Id>, i: nat)
    requires WellKeyed(d) && Elems(order) <= d.Keys && i <= |order|
    ensures forall x :: x in IdsOf(Arranged(d, order)[..i]) <==> x in order[..i]
  {
    var events := Arranged(d, order);
    forall x ensures x in IdsOf(events[..i]) <==> x in order[..i] {
      if x in order[..i] {
        var j :| 0 <= j < i && order[j] == x;
        assert order[j] in Elems(order) && events[..i][j] == events[j];
      }
      if x in IdsOf(events[..i]) {
        var j := IndexOf(events, i, x);
        assert order[j] in Elems(order) && order[..i][j] == x;
      }
    }
  }

  /** A linear extension of a stored view is what the engine needs to give its guarantee. */
  lemma {:induction false} LinearSound(d: Graph, order: seq<Id>)
    requires WellKeyed(d) && Linear(d, order)
    ensures forall x :: x in order ==> x in Elems(order)
    ensures DistinctIds(Arranged(d, order)) && ById(Arranged(d, order)) == d
    ensures Topological(Arranged(d, order))
  {
    assert forall x :: x in order ==> x in Elems(order);
    var events := Arranged(d, order);
    ArrangedGraph(d, order);
    forall i, p | 0 <= i < |events| && p in Parents(events[i]) && p in IdsOf(events) ensures p in IdsOf(events[..i]) {
      ArrangedIds(d, order, i);
      assert p in order[..i];
    }
  }

  lemma ArrangedGraph(d: Graph, order: seq<Id>)
    requires WellKeyed(d) && Elems(order) == d.Keys && DistinctIds(Arranged(d, order))
    ensures ById(Arranged(d, order)) == d
  {
    var events := Arranged(d, order);
    ArrangedIds(d, order, |order|);
    assert events[..|order|] == events && order[..|order|] == order;
    forall x | x in d ensures x in ById(events) && ById(events)[x] == d[x] {
      assert x in Elems(order);
      var j :| 0 <= j < |order| && order[j] == x;
      ByIdAt(events, j);
    }
  }
}
