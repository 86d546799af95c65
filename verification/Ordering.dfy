/** The consensus order and the state list a recomputation returns (mdrj/consensus.py:79-177). */
module Ordering {
  import opened Prelude
  import opened Quorum
  import opened Dag
  import opened Rounds
  import opened Voting
  import opened FameSafety
  import opened Received
  import opened Timestamps
  import opened Sorting

  datatype OrderKey = OrderKey(received: Option<nat>, ts: Option<real>, id: Id)

  // A missing round or timestamp sorts last, as if it were infinite.
  predicate RoundLe(a: Option<nat>, b: Option<nat>) {
    b.None? || (a.Some? && a.value <= b.value)
  }

  predicate TimeLe(a: Option<real>, b: Option<real>) {
    b.None? || (a.Some? && a.value <= b.value)
  }

  predicate KeyLe(a: OrderKey, b: OrderKey) {
    if a.received != b.received then RoundLe(a.received, b.received)
    else if a.ts != b.ts then TimeLe(a.ts, b.ts)
    else a.id <= b.id
  }

  /** `a` may stand before `b`: unreceived events last, then by received round; within a round those without a
      timestamp last, then by time; then by id. */
  ghost predicate Precedes(received1: Option<nat>, ts1: Option<real>, id1: Id,
                           received2: Option<nat>, ts2: Option<real>, id2: Id) {
    && (received2.Some? ==> received1.Some? && received1.value <= received2.value)
    && (received1 == received2 && ts2.Some? ==> ts1.Some? && ts1.value <= ts2.value)
    && (received1 == received2 && ts1 == ts2 ==> id1 < id2)
  }

  ghost predicate Chronological(keys: seq<OrderKey>) {
    forall i, j :: 0 <= i < j < |keys| ==>
      Precedes(keys[i].received, keys[i].ts, keys[i].id, keys[j].received, keys[j].ts, keys[j].id)
  }

  lemma SortedChronological(keys: seq<OrderKey>)
    requires SortedBy(keys, KeyLe) && Distinct(keys)
    ensures Chronological(keys)
  {
    forall i, j | 0 <= i < j < |keys|
      ensures Precedes(keys[i].received, keys[i].ts, keys[i].id, keys[j].received, keys[j].ts, keys[j].id)
    {
      assert KeyLe(keys[i], keys[j]) && keys[i] != keys[j];
    }
  }

  /** Per event, the (node, time) observations of its path metadata. */
  type Sightings = map<Id, set<(NodeId, real)>>

  function SeenAt(seen: Sightings, x: Id): set<(NodeId, real)> {
    if x in seen then seen[x] else {}
  }

  ghost function KeyOf(d: Graph, m: set<NodeId>, coin: (Id, nat) -> bool, seen: Sightings, x: Id): OrderKey
    requires View(d)
  {
    OrderKey(RoundReceived(d, m, coin, x), Timestamp(m, SeenAt(seen, x)), x)
  }

  /** The consensus order of a view: one key per event, sorted. */
  ghost predicate IsOrder(d: Graph, m: set<NodeId>, coin: (Id, nat) -> bool, seen: Sightings, keys: seq<OrderKey>)
    requires View(d)
  {
    && SortedBy(keys, KeyLe) && Distinct(keys)
    && (forall k :: k in keys ==> k.id in d && k == KeyOf(d, m, coin, seen, k.id))
    && (forall x {:trigger KeyOf(d, m, coin, seen, x)} :: x in d ==> KeyOf(d, m, coin, seen, x) in keys)
  }

  lemma OrderUnique(d: Graph, m: set<NodeId>, coin: (Id, nat) -> bool, seen: Sightings, a: seq<OrderKey>,
                    b: seq<OrderKey>)
    requires View(d) && IsOrder(d, m, coin, seen, a) && IsOrder(d, m, coin, seen, b)
    ensures a == b
  {
    SortedSetUnique(a, b, KeyLe);
  }

  datatype ConsensusState = ConsensusState(
    eventId: Id,
    creator: NodeId,
    round: nat,
    roundReceived: Option<nat>,
    isWitness: bool,
    fame: Fame,
    consensusTs: Option<real>)

  /** `a` is received no later than `b`, if `b` has `a` in its past. */
  ghost predicate InOrder(d: Graph, a: ConsensusState, b: ConsensusState)
    requires Acyclic(d)
  {
    Sees(d, b.eventId, a.eventId) && b.roundReceived.Some? ==>
      a.roundReceived.Some? && a.roundReceived.value <= b.roundReceived.value
  }

  /** Received in its own round or later. */
  predicate NotEarly(s: ConsensusState) {
    s.roundReceived.Some? ==> s.round <= s.roundReceived.value
  }

  /** The consensus columns of a store, one state per event, as any recomputation leaves them. */
  ghost predicate CausalColumns(d: Graph, columns: map<Id, ConsensusState>)
    requires Acyclic(d)
  {
    && (forall x :: x in d ==> x in columns && columns[x].eventId == x && NotEarly(columns[x]))
    && forall x, y {:trigger InOrder(d, columns[x], columns[y])} :: x in d && y in d ==>
      InOrder(d, columns[x], columns[y])
  }

  /** `_events_up_to_round_received` */
  function Cut(d: Graph, columns: map<Id, ConsensusState>, target: nat): set<Id> {
    set x | x in d && x in columns && columns[x].roundReceived.Some? && columns[x].roundReceived.value <= target
  }

  /** The checkpoint cut, and the digest's, contain every present ancestor of their events, holes in the store or
      not. */
  lemma CutClosed(d: Graph, columns: map<Id, ConsensusState>, target: nat, x: Id, a: Id)
    requires Acyclic(d) && CausalColumns(d, columns)
    requires x in Cut(d, columns, target) && a in d && Sees(d, x, a)
    ensures a in Cut(d, columns, target)
  {
    assert InOrder(d, columns[a], columns[x]);
  }

  /** An event enters the cut at the round in which it was received, and not before; unreceived ones never do. */
  lemma CutEntered(d: Graph, columns: map<Id, ConsensusState>, target: nat, x: Id)
    requires x in d && x in columns
    ensures columns[x].roundReceived == None ==> x !in Cut(d, columns, target)
    ensures columns[x].roundReceived == Some(target) ==>
      x in Cut(d, columns, target) && x in Cut(d, columns, target + 1) && forall q: nat :: q < target ==>
        x !in Cut(d, columns, q)
  {
  }

  // ---- What a state list says, read without the tables behind it ----

  /** The state of a round-`r` witness. */
  predicate WitnessAt(s: ConsensusState, r: nat) {
    s.isWitness && s.round == r
  }

  /** Members whose round-`r` witness is, or has in its past, event `x`. */
  ghost function Supporters(d: Graph, m: set<NodeId>, states: seq<ConsensusState>, r: nat, x: Id): set<NodeId>
    requires Acyclic(d)
  {
    set s | s in states && WitnessAt(s, r) && s.creator in m && (s.eventId == x || x in Anc(d, s.eventId)) :: s.creator
  }

  ghost function FamousSupporters(d: Graph, m: set<NodeId>, states: seq<ConsensusState>, r: nat, x: Id): set<NodeId>
    requires Acyclic(d)
  {
    set s | s in states && WitnessAt(s, r) && s.creator in m && (s.eventId == x || x in Anc(d, s.eventId))
            && s.fame.famous :: s.creator
  }

  /** Round `r` takes `x` in: its witnesses are all decided and the famous ones of a supermajority see `x`, or none is
      decided and those of a supermajority do. While only some are decided it takes in nothing. */
  ghost predicate TakesIn(d: Graph, m: set<NodeId>, states: seq<ConsensusState>, r: nat, x: Id)
    requires Acyclic(d)
  {
    || ((forall s :: s in states && WitnessAt(s, r) ==> s.fame.decided)
        && |FamousSupporters(d, m, states, r, x)| >= Threshold(|m|))
    || ((forall s :: s in states && WitnessAt(s, r) ==> !s.fame.decided)
        && |Supporters(d, m, states, r, x)| >= Threshold(|m|))
  }

  /** Received in the first round that takes the event in. */
  ghost predicate Explained(d: Graph, m: set<NodeId>, states: seq<ConsensusState>, s: ConsensusState)
    requires Acyclic(d)
  {
    match s.roundReceived
    case Some(r) =>
      TakesIn(d, m, states, r, s.eventId) && forall q: nat :: q < r ==> !TakesIn(d, m, states, q, s.eventId)
    case None => forall q: nat :: !TakesIn(d, m, states, q, s.eventId)
  }

  /** The event's creator, and its timestamp once it is received; an unreceived event has none. */
  ghost predicate Stamped(d: Graph, m: set<NodeId>, seen: Sightings, s: ConsensusState) {
    && s.eventId in d && s.creator == d[s.eventId].creator
    && (s.roundReceived.None? ==> s.consensusTs.None?)
    && (s.roundReceived.Some? ==> s.consensusTs == Timestamp(m, SeenAt(seen, s.eventId)))
  }

  /** Received events first, by round, time and id; then the others, by the time they would have, and id. */
  ghost predicate InConsensusOrder(m: set<NodeId>, seen: Sightings, states: seq<ConsensusState>) {
    forall i, j :: 0 <= i < j < |states| ==>
      Precedes(states[i].roundReceived, Timestamp(m, SeenAt(seen, states[i].eventId)), states[i].eventId,
               states[j].roundReceived, Timestamp(m, SeenAt(seen, states[j].eventId)), states[j].eventId)
  }

  /** The witness states are those of the table's entries, with the fame recorded for them. */
  ghost predicate Mirrors(states: seq<ConsensusState>, t: Table, f: FameTable) {
    && (forall s :: s in states && s.isWitness ==> Entered(t, f, s))
    && (forall r, c {:trigger HasEntry(t, r, c)} :: HasEntry(t, r, c) ==>
        exists s :: s in states && WitnessAt(s, r) && s.creator == c)
  }

  predicate Entered(t: Table, f: FameTable, s: ConsensusState) {
    && HasEntry(t, s.round, s.creator) && t[s.round][s.creator] == s.eventId
    && s.round in f && s.eventId in f[s.round] && f[s.round][s.eventId] == s.fame
  }

  lemma MirrorEntry(states: seq<ConsensusState>, t: Table, f: FameTable, r: nat, c: NodeId)
      returns (s: ConsensusState)
    requires Mirrors(states, t, f) && HasEntry(t, r, c)
    ensures s in states && WitnessAt(s, r) && s.creator == c && Entered(t, f, s)
  {
    s :| s in states && WitnessAt(s, r) && s.creator == c;
  }

  lemma SupportersListed(d: Graph, m: set<NodeId>, states: seq<ConsensusState>, t: Table, f: FameTable, r: nat, x: Id)
    requires Acyclic(d) && SameRounds(t, f) && Mirrors(states, t, f)
    ensures Supporters(d, m, states, r, x) == SeenBy(d, m, t, r, x)
    ensures r in t ==>
      FamousSupporters(d, m, states, r, x) == set c | c in SeenBy(d, m, t, r, x) && f[r][t[r][c]].famous
    ensures FamousSupporters(d, m, states, r, x) <= Supporters(d, m, states, r, x)
  {
    forall c | c in SeenBy(d, m, t, r, x)
      ensures c in Supporters(d, m, states, r, x)
      ensures f[r][t[r][c]].famous ==> c in FamousSupporters(d, m, states, r, x)
    {
      var s := MirrorEntry(states, t, f, r, c);
    }
    forall c | c in Supporters(d, m, states, r, x) ensures c in SeenBy(d, m, t, r, x) {
      var s :| s in states && WitnessAt(s, r) && s.creator == c && (s.eventId == x || x in Anc(d, s.eventId));
      assert Entered(t, f, s);
    }
    forall c | c in FamousSupporters(d, m, states, r, x) ensures r in t && c in t[r] && f[r][t[r][c]].famous {
      var s :| s in states && WitnessAt(s, r) && s.creator == c && s.fame.famous;
      assert Entered(t, f, s);
    }
  }

  lemma DecisionsListed(states: seq<ConsensusState>, t: Table, f: FameTable, r: nat, decided: bool)
    requires SameRounds(t, f) && Mirrors(states, t, f) && r in t
    ensures (forall s :: s in states && WitnessAt(s, r) ==> s.fame.decided == decided)
       <==> (forall c :: c in t[r] ==> f[r][t[r][c]].decided == decided)
  {
    if forall s :: s in states && WitnessAt(s, r) ==> s.fame.decided == decided {
      forall c | c in t[r] ensures f[r][t[r][c]].decided == decided {
        assert HasEntry(t, r, c);
        var s := MirrorEntry(states, t, f, r, c);
      }
    }
    if forall c :: c in t[r] ==> f[r][t[r][c]].decided == decided {
      forall s | s in states && WitnessAt(s, r) ensures s.fame.decided == decided {
        assert Entered(t, f, s);
        assert f[r][t[r][s.creator]].decided == decided;
      }
    }
  }

  lemma TakenIn(d: Graph, m: set<NodeId>, states: seq<ConsensusState>, t: Table, f: FameTable, r: nat, x: Id)
    requires Acyclic(d) && SameRounds(t, f) && Mirrors(states, t, f)
    ensures TakesIn(d, m, states, r, x) <==> SeenByFamous(d, m, t, f, r, x) || SeenUndecided(d, m, t, f, r, x)
  {
    SupportersListed(d, m, states, t, f, r, x);
    if r in t {
      DecisionsListed(states, t, f, r, true);
      DecisionsListed(states, t, f, r, false);
    } else {
      assert SeenBy(d, m, t, r, x) == {};
    }
  }

  /** So the scan over the tables is the rule over the states. */
  lemma ScanExplained(d: Graph, m: set<NodeId>, states: seq<ConsensusState>, t: Table, f: FameTable,
                      s: ConsensusState)
    requires Acyclic(d) && SameRounds(t, f) && Mirrors(states, t, f)
    requires s.roundReceived == FirstReceived(d, m, t, f, s.eventId)
    ensures Explained(d, m, states, s)
  {
    ReceiptScanned(d, m, t, f, s.eventId);
    forall q: nat
      ensures TakesIn(d, m, states, q, s.eventId)
         <==> SeenByFamous(d, m, t, f, q, s.eventId) || SeenUndecided(d, m, t, f, q, s.eventId)
    {
      TakenIn(d, m, states, t, f, q, s.eventId);
    }
  }

  const NO_FAME := Fame(false, false, None, Pending, false, false, None, None, 0, 0)

  ghost function StateOf(d: Graph, m: set<NodeId>, coin: (Id, nat) -> bool, seen: Sightings, x: Id): ConsensusState
    requires View(d) && x in d
  {
    var received, first := RoundReceived(d, m, coin, x), IsWitness(d, RoundsOf(d, m), x);
    ConsensusState(x, d[x].creator, RoundsOf(d, m)[x], received, first,
                   if first then FameOf(d, m, coin, x) else NO_FAME,
                   if received.Some? then Timestamp(m, SeenAt(seen, x)) else None)
  }

  /** A state gives its event's round and whether it is a witness; a witness's fame is the view's, and any other event
      is neither famous nor decided. */
  ghost predicate Described(d: Graph, m: set<NodeId>, coin: (Id, nat) -> bool, s: ConsensusState)
    requires View(d)
  {
    && s.eventId in d && s.round == RoundsOf(d, m)[s.eventId]
    && (s.isWitness <==> IsWitness(d, RoundsOf(d, m), s.eventId))
    && (s.isWitness ==> s.fame == FameOf(d, m, coin, s.eventId))
    && (!s.isWitness ==> !s.fame.decided && !s.fame.famous && s.fame.kind == Pending && s.fame.decisionRound.None?)
  }

  lemma OutcomeDescribed(d: Graph, m: set<NodeId>, coin: (Id, nat) -> bool, seen: Sightings,
                         states: seq<ConsensusState>)
    requires View(d) && IsOutcome(d, m, coin, seen, states)
    ensures forall s :: s in states ==> Described(d, m, coin, s)
  {
    var keys :| IsOrder(d, m, coin, seen, keys) && StatesAlong(d, m, coin, seen, keys, states);
    forall s | s in states ensures Described(d, m, coin, s) {
      var i :| 0 <= i < |states| && states[i] == s;
    }
  }

  /** What recomputing consensus over a view must return: the state of every event, in consensus order. */
  ghost predicate IsOutcome(d: Graph, m: set<NodeId>, coin: (Id, nat) -> bool, seen: Sightings,
                            states: seq<ConsensusState>)
    requires View(d)
  {
    exists keys :: IsOrder(d, m, coin, seen, keys) && StatesAlong(d, m, coin, seen, keys, states)
  }

  ghost predicate StatesAlong(d: Graph, m: set<NodeId>, coin: (Id, nat) -> bool, seen: Sightings,
                              keys: seq<OrderKey>, states: seq<ConsensusState>)
    requires View(d)
  {
    && |keys| == |states|
    && forall i :: 0 <= i < |keys| ==> keys[i].id in d && states[i] == StateOf(d, m, coin, seen, keys[i].id)
  }

  /** The outcome depends on the stored events, the membership and the observations, on nothing else. */
  lemma OutcomeUnique(d: Graph, m: set<NodeId>, coin: (Id, nat) -> bool, seen: Sightings,
                      a: seq<ConsensusState>, b: seq<ConsensusState>)
    requires View(d) && IsOutcome(d, m, coin, seen, a) && IsOutcome(d, m, coin, seen, b)
    ensures a == b
  {
    var ka :| IsOrder(d, m, coin, seen, ka) && StatesAlong(d, m, coin, seen, ka, a);
    var kb :| IsOrder(d, m, coin, seen, kb) && StatesAlong(d, m, coin, seen, kb, b);
    OrderUnique(d, m, coin, seen, ka, kb);
  }

  // ---- Replicas list the final part identically ----

  predicate ReceivedEarly(r0: nat, k: OrderKey) {
    k.received.Some? && k.received.value <= r0
  }

  /** The keys received up to `r0` open the order. */
  lemma EarlyPrefix(keys: seq<OrderKey>, r0: nat) returns (k: nat)
    requires SortedBy(keys, KeyLe)
    ensures k <= |keys|
    ensures forall i :: 0 <= i < |keys| ==> (ReceivedEarly(r0, keys[i]) <==> i < k)
  {
    k := DownwardPrefix(keys, KeyLe, key => ReceivedEarly(r0, key));
  }

  lemma PrefixMember(keys: seq<OrderKey>, r0: nat, k: nat, key: OrderKey)
    requires k <= |keys|
    requires forall i :: 0 <= i < |keys| ==> (ReceivedEarly(r0, keys[i]) <==> i < k)
    ensures key in keys[..k] <==> key in keys && ReceivedEarly(r0, key)
  {
    if key in keys && ReceivedEarly(r0, key) {
      var i :| 0 <= i < |keys| && keys[i] == key;
      assert keys[..k][i] == key;
    }
  }

  lemma EarlyMember(d: Graph, m: set<NodeId>, coin: (Id, nat) -> bool, seen: Sightings, keys: seq<OrderKey>,
                    r0: nat, key: OrderKey)
    requires View(d) && IsOrder(d, m, coin, seen, keys)
    ensures key in keys && ReceivedEarly(r0, key) <==>
      key.id in FinalPart(d, m, coin, r0) && key == KeyOf(d, m, coin, seen, key.id)
  {
    if key.id in d { assert KeyOf(d, m, coin, seen, key.id) in keys; }
  }

  lemma PrefixDistinct(keys: seq<OrderKey>, k: nat)
    requires SortedBy(keys, KeyLe) && Distinct(keys) && k <= |keys|
    ensures SortedBy(keys[..k], KeyLe) && Distinct(keys[..k])
  {
  }

  /** Replicas whose settled views cut the same history, and whose observations of the final events agree,
      open their total orders with the same events at the same positions. */
  lemma SamePrefix(d1: Graph, d2: Graph, all: Graph, m: set<NodeId>, coin: (Id, nat) -> bool, r0: nat,
                   seen1: Sightings, seen2: Sightings, keys1: seq<OrderKey>, keys2: seq<OrderKey>) returns (k: nat)
    requires View(all) && Extends(d1, all) && Extends(d2, all)
    requires View(d1) && View(d2) && Settled(d1, m, coin, r0) && Settled(d2, m, coin, r0)
    requires forall x :: x in FinalPart(d1, m, coin, r0) ==> SeenAt(seen1, x) == SeenAt(seen2, x)
    requires IsOrder(d1, m, coin, seen1, keys1) && IsOrder(d2, m, coin, seen2, keys2)
    ensures k <= |keys1| && k <= |keys2| && keys1[..k] == keys2[..k]
    ensures forall i :: 0 <= i < |keys1| ==> (i < k <==> ReceivedEarly(r0, keys1[i]))
    ensures forall i :: 0 <= i < |keys2| ==> (i < k <==> ReceivedEarly(r0, keys2[i]))
  {
    Agreement(d1, d2, all, m, coin, r0);
    k := EarlyPrefix(keys1, r0);
    var k2 := EarlyPrefix(keys2, r0);
    forall key ensures key in keys1[..k] <==> key in keys2[..k2] {
      PrefixMember(keys1, r0, k, key);
      PrefixMember(keys2, r0, k2, key);
      EarlyMember(d1, m, coin, seen1, keys1, r0, key);
      EarlyMember(d2, m, coin, seen2, keys2, r0, key);
      SameKey(d1, d2, m, coin, r0, seen1, seen2, key.id);
    }
    PrefixDistinct(keys1, k);
    PrefixDistinct(keys2, k2);
    SortedSetUnique(keys1[..k], keys2[..k2], KeyLe);
    assert |keys1[..k]| == k && |keys2[..k2]| == k2;
  }

  lemma SameKey(d1: Graph, d2: Graph, m: set<NodeId>, coin: (Id, nat) -> bool, r0: nat,
                seen1: Sightings, seen2: Sightings, x: Id)
    requires View(d1) && View(d2) && FinalPart(d1, m, coin, r0) == FinalPart(d2, m, coin, r0)
    requires forall y :: y in FinalPart(d1, m, coin, r0) ==> SeenAt(seen1, y) == SeenAt(seen2, y)
    ensures x in FinalPart(d1, m, coin, r0) ==> KeyOf(d1, m, coin, seen1, x) == KeyOf(d2, m, coin, seen2, x)
  {
    if x in FinalPart(d1, m, coin, r0) {
      assert FinalPart(d1, m, coin, r0)[x] == FinalPart(d2, m, coin, r0)[x];
    }
  }
}
