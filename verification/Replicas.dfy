/** What one node does to its own state: boot, emit, ingest, restart (mdrj/node.py:807-930, 1005-1116). */
module Replicas {
  import opened Prelude
  import opened Dag
  import opened Sorting
  import opened Timestamps
  import opened Storage
  import opened VectorClocks

  /** Everything that goes into an event id. */
  datatype Content = Content(
    cls: EventClass,
    source: NodeId,
    tsLocal: real,
    vclock: Clock,
    parents: seq<Id>,
    genesis: bool,
    payload: nat)

  // `compute_event_id`: any function, so two contents may share an id.
  type Hash = Content -> Id

  function EventOf(h: Hash, c: Content): Event {
    Event(h(c), c.cls, c.source, c.source, c.tsLocal, c.vclock, c.parents, c.genesis, c.payload)
  }

  function ContentOf(e: Event): Content {
    Content(e.cls, e.source, e.tsLocal, e.vclock, e.parents, e.genesis, e.payload)
  }

  /** A node's store together with its in-memory clock and anchor cache. */
  datatype Replica = Replica(tables: Tables, clock: Clock, anchors: seq<Id>)

  const RECENT_LIMIT: nat := 256
  const ANCHOR_LIMIT: nat := 20

  /** A node's own events, oldest first. */
  function Own(r: Replica, me: NodeId): seq<Id> {
    BySource(r.tables.events, r.tables.log, me)
  }

  // ---- Choosing parents ----

  function Oldest(t: Tables): seq<Id> {
    t.log[..if ANCHOR_LIMIT < |t.log| then ANCHOR_LIMIT else |t.log|]
  }

  /** The genesis events among the oldest rows, or the oldest row when there are none. */
  function AnchorScan(t: Tables): seq<Id> {
    var marked := GenesisIn(t.events, Oldest(t));
    if marked == [] && t.log != [] then [t.log[0]] else marked
  }

  function GenesisIn(d: Graph, ids: seq<Id>): seq<Id> {
    if ids == [] then []
    else
      var below := GenesisIn(d, ids[..|ids| - 1]);
      var x := ids[|ids| - 1];
      if x in d && d[x].genesis && x !in below then below + [x] else below
  }

  /** The genesis events among `ids`, once each, in order. */
  lemma {:induction false} GenesisMeaning(d: Graph, ids: seq<Id>)
    requires Distinct(ids)
    ensures forall a :: a in GenesisIn(d, ids) <==> a in ids && a in d && d[a].genesis
    ensures InOrderOf(GenesisIn(d, ids), ids)
  {
    if ids != [] {
      var front, x := ids[..|ids| - 1], ids[|ids| - 1];
      assert ids == front + [x];
      GenesisMeaning(d, front);
      InOrderAppend(GenesisIn(d, front), front, x);
    }
  }

  /** The anchors of a store: the genesis events among its twenty oldest rows, oldest first; without one, the oldest
      row; of an empty store, none. */
  ghost predicate AnchorsRead(t: Tables, anchors: seq<Id>) {
    var rows := if |t.log| < 20 then t.log else t.log[..20];
    if forall a :: a in rows && a in t.events ==> !t.events[a].genesis then
      anchors == if t.log == [] then [] else [t.log[0]]
    else
      InOrderOf(anchors, rows) && forall a :: a in anchors <==> a in rows && a in t.events && t.events[a].genesis
  }

  lemma AnchorsMeaning(t: Tables)
    requires Distinct(t.log)
    ensures AnchorsRead(t, AnchorScan(t))
  {
    var rows, marked := Oldest(t), GenesisIn(t.events, Oldest(t));
    assert rows == if |t.log| < 20 then t.log else t.log[..20];
    GenesisMeaning(t.events, rows);
    if marked != [] { assert marked[0] in marked; }
  }

  lemma AnchorsStored(t: Tables, a: Id)
    requires Distinct(t.log) && a in AnchorScan(t)
    ensures a in t.log
  {
    AnchorsMeaning(t);
  }

  function AnchorIds(r: Replica): seq<Id> {
    if r.anchors != [] then r.anchors else AnchorScan(r.tables)
  }

  /** Recent events of other nodes, newest first. */
  function Foreign(d: Graph, recent: seq<Id>, me: NodeId, taken: seq<Id>): seq<Id> {
    if recent == [] then []
    else
      var below := Foreign(d, recent[..|recent| - 1], me, taken);
      var x := recent[|recent| - 1];
      if x in d && d[x].source != me && x !in taken then below + [x] else below
  }

  lemma {:induction false} ForeignMeaning(d: Graph, recent: seq<Id>, me: NodeId, taken: seq<Id>)
    ensures forall x ::
      x in Foreign(d, recent, me, taken) <==> x in recent && x in d && d[x].source != me && x !in taken
  {
    if recent != [] {
      ForeignMeaning(d, recent[..|recent| - 1], me, taken);
      assert recent == recent[..|recent| - 1] + [recent[|recent| - 1]];
    }
  }

  function AsSeq(o: Option<Id>): seq<Id> {
    match o case Some(x) => [x] case None => []
  }

  function SelfParent(r: Replica, me: NodeId): seq<Id> {
    AsSeq(Latest(r.tables, me))
  }

  function Candidates(r: Replica, me: NodeId): seq<Id> {
    Foreign(r.tables.events, Recent(r.tables, RECENT_LIMIT), me, SelfParent(r, me))
  }

  /** `random.choice` may pick any candidate, and picks one whenever there is one. */
  predicate MayPick(r: Replica, me: NodeId, other: Option<Id>) {
    match other case Some(x) => x in Candidates(r, me) case None => Candidates(r, me) == []
  }

  /** Anchors fill up to two parents. */
  function Filled(parents: seq<Id>, anchors: seq<Id>): seq<Id>
    decreases anchors
  {
    if |parents| >= 2 || anchors == [] then parents
    else Filled(if anchors[0] in parents then parents else parents + [anchors[0]], anchors[1..])
  }

  /** Anchors are taken in order, each once, until there are two parents. */
  lemma {:induction false} FilledMeaning(parents: seq<Id>, anchors: seq<Id>)
    ensures parents <= Filled(parents, anchors)
    ensures forall x :: x in Filled(parents, anchors) ==> x in parents || x in anchors
    ensures |parents| <= 2 ==> |Filled(parents, anchors)| <= 2
    ensures Distinct(parents) ==> Distinct(Filled(parents, anchors))
    ensures forall j :: 0 <= j < |anchors| ==> anchors[j] in Filled(parents, anchors) || |Filled(parents, anchors)| >= 2
    decreases anchors
  {
    if |parents| < 2 && anchors != [] {
      var more := if anchors[0] in parents then parents else parents + [anchors[0]];
      FilledMeaning(more, anchors[1..]);
      assert anchors == [anchors[0]] + anchors[1..];
      assert anchors[0] in more && more <= Filled(more, anchors[1..]);
    }
  }

  /** No anchor is passed over. */
  lemma {:induction false} FilledOrder(parents: seq<Id>, anchors: seq<Id>, a: Id, b: Id)
    requires FirstBefore(anchors, a, b) && b in Filled(parents, anchors) && b !in parents
    ensures a in Filled(parents, anchors)
    decreases anchors
  {
    var h, rest := anchors[0], anchors[1..];
    var more := if h in parents then parents else parents + [h];
    var k :| 0 <= k <= |anchors| && a in anchors[..k] && b !in anchors[..k];
    assert anchors[..k] == [h] + rest[..k - 1];
    FilledMeaning(more, rest);
    if a != h { FilledOrder(more, rest, a, b); }
  }

  function ParentsFor(r: Replica, me: NodeId, other: Option<Id>): seq<Id> {
    FirstTwo(Filled(SelfParent(r, me) + AsSeq(other), AnchorIds(r)))
  }

  function FirstTwo(s: seq<Id>): seq<Id> {
    s[..if |s| < 2 then |s| else 2]
  }

  /** Own latest event first, then the event picked, then anchors in order: two parents if there are that many, none
      twice. */
  ghost predicate ParentsRuled(t: Tables, anchors: seq<Id>, me: NodeId, other: Option<Id>, parents: seq<Id>) {
    var own := BySource(t.events, t.log, me);
    var chosen := (if own == [] then [] else [own[|own| - 1]]) + if other.Some? then [other.value] else [];
    && |parents| <= 2 && Distinct(parents) && chosen <= parents
    && (forall a :: a in anchors ==> a in parents || |parents| == 2)
    && (forall p :: p in parents[|chosen|..] ==> p in anchors)
    && (forall a, b :: b in parents[|chosen|..] && FirstBefore(anchors, a, b) ==> a in parents)
  }

  lemma ParentsMeaning(r: Replica, me: NodeId, other: Option<Id>)
    requires MayPick(r, me, other)
    ensures ParentsRuled(r.tables, AnchorIds(r), me, other, ParentsFor(r, me, other))
  {
    var own, anchors := Own(r, me), AnchorIds(r);
    var chosen := SelfParent(r, me) + AsSeq(other);
    ForeignMeaning(r.tables.events, Recent(r.tables, RECENT_LIMIT), me, SelfParent(r, me));
    assert own != [] ==> own[|own| - 1] in own && SelfParent(r, me) == [own[|own| - 1]];
    assert Distinct(chosen) && |chosen| <= 2;
    FilledRuled(chosen, anchors);
    assert ParentsFor(r, me, other) == Filled(chosen, anchors);
  }

  lemma FilledRuled(chosen: seq<Id>, anchors: seq<Id>)
    requires Distinct(chosen) && |chosen| <= 2
    ensures var parents := Filled(chosen, anchors);
      && |parents| <= 2 && Distinct(parents) && chosen <= parents && FirstTwo(parents) == parents
      && (forall a :: a in anchors ==> a in parents || |parents| == 2)
      && (forall p :: p in parents[|chosen|..] ==> p in anchors)
      && (forall a, b :: b in parents[|chosen|..] && FirstBefore(anchors, a, b) ==> a in parents)
  {
    var parents := Filled(chosen, anchors);
    FilledMeaning(chosen, anchors);
    forall p | p in parents[|chosen|..] ensures p in parents && p !in chosen {
      var i :| |chosen| <= i < |parents| && parents[i] == p;
      assert forall j :: 0 <= j < |chosen| ==> chosen[j] == parents[j];
    }
    forall a, b | b in parents[|chosen|..] && FirstBefore(anchors, a, b) ensures a in parents {
      FilledOrder(chosen, anchors, a, b);
    }
  }

  /** The picked event is some other node's, among the newest 256 rows; none is picked only when there is none. */
  lemma PickMeaning(r: Replica, me: NodeId, other: Option<Id>)
    ensures MayPick(r, me, other) && other.Some? ==> Pickable(r.tables, me, other.value)
    ensures MayPick(r, me, other) && other.None? ==> forall x :: !Pickable(r.tables, me, x)
    ensures other.Some? && Pickable(r.tables, me, other.value) ==> MayPick(r, me, other)
  {
    var recent, taken := Recent(r.tables, RECENT_LIMIT), SelfParent(r, me);
    ForeignMeaning(r.tables.events, recent, me, taken);
    assert forall x :: x in taken ==> x in Own(r, me);
    forall x ensures Pickable(r.tables, me, x) <==> x in Foreign(r.tables.events, recent, me, taken) {
      if i :| 0 <= i < |r.tables.log| && i + 256 >= |r.tables.log| && r.tables.log[i] == x {
        assert recent[|r.tables.log| - 1 - i] == x;
      }
    }
  }

  ghost predicate Pickable(t: Tables, me: NodeId, x: Id) {
    && x in t.events && t.events[x].source != me
    && exists i :: 0 <= i < |t.log| && i + 256 >= |t.log| && t.log[i] == x
  }

  // ---- The steps ----

  function MergeParents(clock: Clock, d: Graph, parents: seq<Id>): (merged: Clock)
    ensures Leq(clock, merged)
    ensures forall p :: p in parents && p in d ==> Leq(d[p].vclock, merged)
    ensures forall bound :: Leq(clock, bound) && (forall p :: p in parents && p in d ==> Leq(d[p].vclock, bound)) ==>
      Leq(merged, bound)
  {
    if parents == [] then clock
    else
      var below := MergeParents(clock, d, parents[..|parents| - 1]);
      var p := parents[|parents| - 1];
      assert parents == parents[..|parents| - 1] + [p];
      if p in d then Merged(below, d[p].vclock) else below
  }

  function NewClock(r: Replica, me: NodeId, other: Option<Id>): Clock {
    Incremented(MergeParents(r.clock, r.tables.events, ParentsFor(r, me, other)), me)
  }

  function NewContent(r: Replica, me: NodeId, cls: EventClass, ts: real, genesis: bool, payload: nat,
                      other: Option<Id>): Content {
    Content(cls, me, ts, NewClock(r, me, other), ParentsFor(r, me, other), genesis, payload)
  }

  /** `emit_event`: a new event on top of the node's own latest one. */
  function Emitted(r: Replica, h: Hash, me: NodeId, cls: EventClass, ts: real, genesis: bool, payload: nat,
                   other: Option<Id>): Replica {
    var e := EventOf(h, NewContent(r, me, cls, ts, genesis, payload, other));
    Replica(Stored(r.tables, Envelope(e, [Hop(me, Some(ts))], None)), NewClock(r, me, other), AnchorIds(r))
  }

  /** What an emission by `me` must look like over the state it found: whose event it is, which parents it has, and
      a clock after all that is merged, each entry taken from one of them, its own one up. */
  ghost predicate EmissionRuled(r: Replica, anchors: seq<Id>, me: NodeId, other: Option<Id>, e: Event) {
    && e.source == me && e.creator == me
    && (if r.anchors != [] then anchors == r.anchors else AnchorsRead(r.tables, anchors))
    && (match other case Some(x) => Pickable(r.tables, me, x) case None => forall x :: !Pickable(r.tables, me, x))
    && ParentsRuled(r.tables, anchors, me, other, e.parents)
    && ClockRuled(r.tables.events, r.clock, me, e.parents, e.vclock)
  }

  ghost predicate ClockRuled(d: Graph, clock: Clock, me: NodeId, parents: seq<Id>, stepped: Clock) {
    && HappenedBefore(clock, stepped)
    && (forall p :: p in parents && p in d ==> HappenedBefore(d[p].vclock, stepped))
    && (forall c {:trigger Get(stepped, c)} :: var k := if c == me then 1 else 0;
          || Get(stepped, c) == Get(clock, c) + k
          || exists p :: p in parents && p in d && Get(stepped, c) == Get(d[p].vclock, c) + k)
  }

  lemma ClockMeaning(d: Graph, clock: Clock, me: NodeId, parents: seq<Id>)
    ensures ClockRuled(d, clock, me, parents, Incremented(MergeParents(clock, d, parents), me))
  {
    var merged := MergeParents(clock, d, parents);
    StepAfter(clock, merged, me);
    forall p | p in parents && p in d ensures HappenedBefore(d[p].vclock, Incremented(merged, me)) {
      StepAfter(d[p].vclock, merged, me);
    }
    forall c ensures Get(merged, c) == Get(clock, c)
      || exists p :: p in parents && p in d && Get(merged, c) == Get(d[p].vclock, c)
    {
      MergeAttained(clock, d, parents, c);
    }
  }

  lemma EmissionMeaning(r: Replica, h: Hash, me: NodeId, cls: EventClass, ts: real, genesis: bool, payload: nat,
                        other: Option<Id>)
    requires MayPick(r, me, other) && Distinct(r.tables.log)
    ensures var e := EventOf(h, NewContent(r, me, cls, ts, genesis, payload, other));
      && EmissionRuled(r, AnchorIds(r), me, other, e)
      && e == Event(h(ContentOf(e)), cls, me, me, ts, e.vclock, e.parents, genesis, payload)
  {
    var parents := ParentsFor(r, me, other);
    ParentsMeaning(r, me, other);
    PickMeaning(r, me, other);
    AnchorsMeaning(r.tables);
    ClockMeaning(r.tables.events, r.clock, me, parents);
  }

  /** Emitting stores the event with the emitter's own observation, and adopts its clock. */
  lemma EmittedMeaning(r: Replica, h: Hash, me: NodeId, cls: EventClass, ts: real, genesis: bool, payload: nat,
                       other: Option<Id>)
    ensures var e := EventOf(h, NewContent(r, me, cls, ts, genesis, payload, other));
      var r' := Emitted(r, h, me, cls, ts, genesis, payload, other);
      && r'.clock == e.vclock && e.id in r'.tables.events && (e.id !in r.tables.events ==> r'.tables.events[e.id] == e)
      && Hop(me, Some(ts)) in PathAt(r'.tables, e.id)
  {
    var e := EventOf(h, NewContent(r, me, cls, ts, genesis, payload, other));
    PathKept(r.tables, Envelope(e, [Hop(me, Some(ts))], None));
  }

  /** Every entry of the merged clock comes from one of the clocks merged. */
  lemma {:induction false} MergeAttained(clock: Clock, d: Graph, parents: seq<Id>, c: NodeId)
    ensures Get(MergeParents(clock, d, parents), c) == Get(clock, c)
      || exists p :: p in parents && p in d && Get(MergeParents(clock, d, parents), c) == Get(d[p].vclock, c)
  {
    if parents != [] {
      var front, p := parents[..|parents| - 1], parents[|parents| - 1];
      MergeAttained(clock, d, front, c);
      assert parents == front + [p];
    }
  }

  /** `_persist_envelope`: store a copy and catch up with its clock. */
  function Ingested(r: Replica, env: Envelope): Replica {
    r.(tables := Stored(r.tables, env), clock := Merged(r.clock, env.event.vclock))
  }

  function GenesisContent(me: NodeId, ts: real, payload: nat): Content {
    Content(C, me, ts, map[], [], true, payload)
  }

  /** First start on an empty store: one genesis event, no ancestors, an empty clock. */
  function Booted(h: Hash, me: NodeId, ts: real, payload: nat): Replica {
    var e := EventOf(h, GenesisContent(me, ts, payload));
    Replica(Stored(EMPTY_TABLES, Envelope(e, [Hop(me, Some(ts))], Some(ts))), map[], [e.id])
  }

  /** A forced start: the same genesis event next to whatever the store holds, and as the only anchor. */
  function Reborn(r: Replica, h: Hash, me: NodeId, ts: real, payload: nat): Replica {
    var e := EventOf(h, GenesisContent(me, ts, payload));
    Replica(Stored(r.tables, Envelope(e, [Hop(me, Some(ts))], Some(ts))), map[], [e.id])
  }

  /** A later start: the store survives, the clock is empty again, the anchors are read back. */
  function Restarted(r: Replica): Replica {
    Replica(r.tables, map[], AnchorScan(r.tables))
  }
}
