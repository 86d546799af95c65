/** The consensus engine: one full recomputation over the stored events (mdrj/consensus.py:43-177, 261-287, 423-446). */
module Engine {
  import opened Prelude
  import opened Quorum
  import opened Dag
  import opened Rounds
  import opened Voting
  import opened FameSafety
  import opened Received
  import opened Timestamps
  import opened Ordering
  import opened Sorting
  import opened Visibility
  import opened Assignment
  import opened Counting

  /** The members a recomputation counts: the listed ones and the local node, each once. A blank name is `None`. */
  function Members(membership: seq<Option<NodeId>>, self: NodeId): set<NodeId> {
    (set e | e in membership && e.Some? :: e.value) + {self}
  }

  function FamousTable(t: Table, f: FameTable): (famous: Table)
    ensures ListsFamous(famous, t, f)
  {
    map r | r in t :: FamousAt(t, f, r)
  }

  /** All histories and fame records, witness by witness. */
  ghost predicate VotesCounted(d: Graph, m: set<NodeId>, coin: (Id, nat) -> bool, t: Table, r: nat,
                               fames: map<Id, Fame>)
    requires Acyclic(d)
  {
    forall w {:trigger FameCounted(d, m, coin, t, r, w, fames[w])} :: w in fames ==>
      FameCounted(d, m, coin, t, r, w, fames[w])
  }

  ghost predicate FameCounted(d: Graph, m: set<NodeId>, coin: (Id, nat) -> bool, t: Table, r: nat, w: Id, fame: Fame)
    requires Acyclic(d)
  {
    fame == Resolve(w, HistoryOf(d, m, t, w, r), Threshold(|m|), coin)
  }

  function FamousAt(t: Table, f: FameTable, r: nat): map<NodeId, Id>
    requires r in t
  {
    map c | c in t[r] && FamousIn(f, r, t[r][c]) :: t[r][c]
  }

  /** The dictionary of the famous witnesses of every round. */
  ghost predicate ListsFamous(famous: Table, t: Table, f: FameTable) {
    famous.Keys == t.Keys && forall r {:trigger famous[r]} :: r in t ==> famous[r] == FamousAt(t, f, r)
  }

  class ConsensusEngine {
    const nodeId: NodeId
    // `_deterministic_coin_choice`: some fixed function of the witness and the round.
    const coin: (Id, nat) -> bool

    constructor (nodeId: NodeId, coin: (Id, nat) -> bool)
      ensures this.nodeId == nodeId && this.coin == coin
    {
      this.nodeId := nodeId;
      this.coin := coin;
    }

    method NormalizeMembership(membership: seq<Option<NodeId>>) returns (ids: seq<NodeId>)
      ensures Distinct(ids)
      ensures forall c :: c in ids <==> c in Members(membership, nodeId)
      ensures forall c :: c in ids <==> Some(c) in membership || c == nodeId
    {
      ids := [];
      for i := 0 to |membership|
        invariant Distinct(ids)
        invariant forall c :: c in ids <==> Some(c) in membership[..i]
      {
        assert membership[..i + 1] == membership[..i] + [membership[i]];
        if membership[i].Some? && membership[i].value !in ids {
          ids := ids + [membership[i].value];
        }
      }
      assert membership[..|membership|] == membership;
      if nodeId !in ids {
        ids := ids + [nodeId];
      }
    }

    method CountFame(d: Graph, m: set<NodeId>, t: Table, ordered: seq<nat>, r: nat, cache: AncestorCache)
        returns (fames: map<Id, Fame>)
      requires Acyclic(d) && cache.Valid(d) && r in t
      requires Increasing(ordered) && forall s :: s in ordered <==> s in t
      modifies cache
      ensures cache.Valid(d)
      ensures fames.Keys == t[r].Values && VotesCounted(d, m, coin, t, r, fames)
    {
      fames := map[];
      var rest := t[r].Values;
      while rest != {}
        invariant cache.Valid(d) && rest <= t[r].Values
        invariant fames.Keys == t[r].Values - rest && VotesCounted(d, m, coin, t, r, fames)
        decreases rest
      {
        var w :| w in rest;
        rest := rest - {w};
        var h := CollectVotes(d, m, t, ordered, w, r, cache);
        HistoryUnique(d, m, t, w, r, h);
        var fame := ResolveFame(w, h, Threshold(|m|), coin);
        assert FameCounted(d, m, coin, t, r, w, fame);
        fames := fames[w := fame];
      }
    }

    method FameDecisions(d: Graph, m: set<NodeId>, t: Table, cache: AncestorCache) returns (f: FameTable)
      requires Acyclic(d) && cache.Valid(d)
      modifies cache
      ensures cache.Valid(d)
      ensures f.Keys == t.Keys
      ensures forall r :: r in t ==> f[r].Keys == t[r].Values && VotesCounted(d, m, coin, t, r, f[r])
    {
      f := map[];
      var ordered := SortedKeys(t.Keys);
      for k := 0 to |ordered|
        invariant cache.Valid(d)
        invariant forall r :: r in f <==> r in ordered[..k]
        invariant forall r :: r in f ==> r in t && f[r].Keys == t[r].Values && VotesCounted(d, m, coin, t, r, f[r])
      {
        var r := ordered[k];
        assert r in ordered;
        var fames := CountFame(d, m, t, ordered, r, cache);
        assert ordered[..k + 1] == ordered[..k] + [r];
        f := f[r := fames];
      }
      assert ordered[..|ordered|] == ordered;
    }

    /** Whether enough of the consulted witnesses can see `x`. */
    method SeenByQuorum(d: Graph, m: set<NodeId>, judges: map<NodeId, Id>, x: Id, cache: AncestorCache)
        returns (reached: bool)
      requires Acyclic(d) && cache.Valid(d)
      modifies cache
      ensures cache.Valid(d)
      ensures reached <==> |Onlookers(d, m, judges, x)| >= Threshold(|m|)
    {
      var creators: set<NodeId> := {};
      var rest := judges.Keys;
      while rest != {}
        invariant cache.Valid(d) && rest <= judges.Keys
        invariant forall c :: c in creators <==> c in judges && c !in rest && Sees(d, judges[c], x)
        decreases rest
      {
        var c :| c in rest;
        rest := rest - {c};
        var sees := cache.CanSee(d, judges[c], x);
        if sees { creators := creators + {c}; }
      }
      assert creators * m == Onlookers(d, m, judges, x);
      reached := |creators * m| >= Threshold(|m|);
    }

    method PickJudges(t: Table, famous: Table, f: FameTable, r: nat) returns (judges: map<NodeId, Id>)
      requires r in t && ListsFamous(famous, t, f)
      ensures judges == Judges(t, f, r)
    {
      var fames: map<Id, Fame> := if r in f then f[r] else map[];
      var all, any := true, false;
      var rest := fames.Keys;
      while rest != {}
        invariant rest <= fames.Keys
        invariant all <==> forall w :: w in fames && w !in rest ==> fames[w].decided
        invariant any <==> exists w :: w in fames && w !in rest && fames[w].decided
        decreases rest
      {
        var w :| w in rest;
        rest := rest - {w};
        all := all && fames[w].decided;
        any := any || fames[w].decided;
      }
      if fames != map[] && all {
        judges := famous[r];
      } else if fames != map[] && any {
        judges := map[];
      } else {
        judges := t[r];
      }
    }

    method FindRoundReceived(d: Graph, m: set<NodeId>, t: Table, famous: Table, f: FameTable, x: Id,
                             cache: AncestorCache)
        returns (received: Option<nat>)
      requires Acyclic(d) && cache.Valid(d) && ListsFamous(famous, t, f)
      modifies cache
      ensures cache.Valid(d)
      ensures received == FirstReceived(d, m, t, f, x)
      ensures SameRounds(t, f) ==> ScannedBy(d, m, t, f, x, received)
    {
      if SameRounds(t, f) { ReceiptScanned(d, m, t, f, x); }
      var ordered := SortedKeys(t.Keys);
      for k := 0 to |ordered|
        invariant cache.Valid(d)
        invariant forall j :: 0 <= j < k ==> !ReceivedAt(d, m, t, f, ordered[j], x)
      {
        var r := ordered[k];
        assert r in ordered;
        var judges := PickJudges(t, famous, f, r);
        var reached := SeenByQuorum(d, m, judges, x, cache);
        if reached {
          FirstFound(d, m, t, f, x, ordered, k);
          return Some(r);
        }
      }
      received := None;
    }

    method ConsensusTimestamp(m: set<NodeId>, quorum: nat, hops: seq<Hop>) returns (ts: Option<real>)
      requires quorum == Threshold(|m|)
      ensures ts == Timestamp(m, Observed(hops))
      ensures forall c: NodeId, t: real :: (c, t) in Observed(hops) <==> Hop(c, Some(t)) in hops
      ensures ts.Some? <==> |Earliest(m, Observed(hops))| >= quorum
      ensures ts.Some? ==> MiddleTime(Earliest(m, Observed(hops)), ts.value)
    {
      var times: Times := map[];
      var order: seq<NodeId> := [];
      for i := 0 to |hops|
        invariant IsEarliest(m, Observed(hops[..i]), times) && Lists(times, order)
      {
        ObservedStep(hops, i);
        var hop := hops[i];
        if hop.node in m && hop.ts.Some? {
          RecordEarliest(m, Observed(hops[..i]), times, hop.node, hop.ts.value);
          if hop.node !in times {
            order := order + [hop.node];
            times := times[hop.node := hop.ts.value];
          } else if hop.ts.value < times[hop.node] {
            times := times[hop.node := hop.ts.value];
          }
        } else {
          StrangerIgnored(m, Observed(hops[..i]), Observed(hops[..i + 1]), times, hop);
        }
      }
      assert hops[..|hops|] == hops;
      TimestampComputed(m, Observed(hops), times, order);
      TimestampMeaning(m, Observed(hops));
      ObservedMeaning(hops);
      if |order| < quorum {
        ts := None;
      } else {
        ts := Some(Median(ValuesIn(times, order)));
      }
    }

    /** Sort by round received, then timestamp, then id. */
    method TotalOrder(events: seq<Event>, resolved: map<Id, (Option<nat>, Option<real>)>) returns (keys: seq<OrderKey>)
      requires DistinctIds(events) && forall e :: e in events ==> e.id in resolved
      ensures SortedBy(keys, KeyLe) && Distinct(keys) && |keys| == |events|
      ensures Chronological(keys)
      ensures forall k :: k in keys <==>
        k.id in IdsOf(events) && k == OrderKey(resolved[k.id].0, resolved[k.id].1, k.id)
    {
      var decorated: seq<OrderKey> := [];
      for i := 0 to |events|
        invariant |decorated| == i
        invariant forall j :: 0 <= j < i ==>
          events[j].id in resolved && decorated[j] ==
            OrderKey(resolved[events[j].id].0, resolved[events[j].id].1, events[j].id)
      {
        var e := events[i];
        decorated := decorated + [OrderKey(resolved[e.id].0, resolved[e.id].1, e.id)];
      }
      SortSorts(decorated, KeyLe);
      PermutedDistinct(decorated, Sort(decorated, KeyLe));
      keys := Sort(decorated, KeyLe);
      SortedChronological(keys);
    }

    method ResolveEvent(d: Graph, m: set<NodeId>, t: Table, famous: Table, f: FameTable, pathMeta: map<Id, seq<Hop>>,
                        x: Id, cache: AncestorCache) returns (verdict: (Option<nat>, Option<real>))
      requires Acyclic(d) && cache.Valid(d) && ListsFamous(famous, t, f)
      modifies cache
      ensures cache.Valid(d)
      ensures HasVerdict(d, m, t, f, pathMeta, x, verdict)
    {
      var received := FindRoundReceived(d, m, t, famous, f, x, cache);
      var ts := ConsensusTimestamp(m, Threshold(|m|), HopsOf(pathMeta, x));
      verdict := (received, ts);
    }

    method ResolveEvents(d: Graph, events: seq<Event>, m: set<NodeId>, t: Table, famous: Table, f: FameTable,
                         pathMeta: map<Id, seq<Hop>>, cache: AncestorCache)
        returns (resolved: map<Id, (Option<nat>, Option<real>)>)
      requires Acyclic(d) && cache.Valid(d) && ListsFamous(famous, t, f)
      modifies cache
      ensures cache.Valid(d)
      ensures resolved.Keys == IdsOf(events)
      ensures AllResolved(d, m, t, f, pathMeta, resolved)
    {
      resolved := map[];
      for i := 0 to |events|
        invariant cache.Valid(d)
        invariant resolved.Keys == IdsOf(events[..i])
        invariant AllResolved(d, m, t, f, pathMeta, resolved)
      {
        PrefixIds(events, i);
        var x := events[i].id;
        var verdict := ResolveEvent(d, m, t, famous, f, pathMeta, x, cache);
        VerdictAdded(d, m, t, f, pathMeta, resolved, x, verdict);
        resolved := resolved[x := verdict];
      }
      assert events[..|events|] == events;
    }

    method BuildState(d: Graph, m: set<NodeId>, rounds: map<Id, nat>, flags: map<Id, bool>, t: Table, famous: Table,
                      f: FameTable, pathMeta: map<Id, seq<Hop>>, x: Id, cache: AncestorCache)
      returns (state: ConsensusState)
      requires Acyclic(d) && cache.Valid(d) && ListsFamous(famous, t, f)
      requires x in d && x in rounds && x in flags
      modifies cache
      ensures cache.Valid(d)
      ensures state == RecordOf(d, m, rounds, flags, t, f, pathMeta, x)
    {
      var received := FindRoundReceived(d, m, t, famous, f, x, cache);
      var ts := ConsensusTimestamp(m, Threshold(|m|), HopsOf(pathMeta, x));
      var r := rounds[x];
      state := ConsensusState(x, d[x].creator, r, received, flags[x],
                              FameEntry(f, r, x),
                              if received.Some? then ts else None);
    }

    /** Recompute consensus over all stored events, given in topological order. */
    method Recompute(events: seq<Event>, membership: seq<Option<NodeId>>, pathMeta: map<Id, seq<Hop>>)
        returns (states: seq<ConsensusState>)
      requires DistinctIds(events) && Acyclic(ById(events))
      ensures |states| == |events|
      ensures forall x :: x in IdsOf(events) <==> exists i :: 0 <= i < |states| && states[i].eventId == x
      ensures forall a, b :: a in states && b in states ==> InOrder(ById(events), a, b)
      ensures Topological(events) ==> forall s :: s in states ==> NotEarly(s)
      ensures InConsensusOrder(Members(membership, nodeId), SightingsOf(pathMeta), states)
      ensures forall s :: s in states ==>
        && Stamped(ById(events), Members(membership, nodeId), SightingsOf(pathMeta), s)
        && Explained(ById(events), Members(membership, nodeId), states, s)
      ensures Sound(events) ==>
        && IsOutcome(ById(events), Members(membership, nodeId), coin, SightingsOf(pathMeta), states)
        && forall s :: s in states ==> Described(ById(events), Members(membership, nodeId), coin, s)
    {
      var ids := NormalizeMembership(membership);
      var m := set c | c in ids;
      assert m == Members(membership, nodeId);
      var d := ById(events);
      var cache := new AncestorCache();
      var rounds, flags, t := AssignRounds(events, m, cache);
      var f := FameDecisions(d, m, t, cache);
      var famous := FamousTable(t, f);
      var resolved := ResolveEvents(d, events, m, t, famous, f, pathMeta, cache);
      var keys := TotalOrder(events, resolved);
      states := [];
      for i := 0 to |keys|
        invariant cache.Valid(d) && AllStates(d, m, rounds, flags, t, f, pathMeta, keys, states, i)
      {
        assert keys[i] in keys;
        var state := BuildState(d, m, rounds, flags, t, famous, f, pathMeta, keys[i].id, cache);
        assert IsRecord(d, m, rounds, flags, t, f, pathMeta, keys[i].id, state);
        RecordAdded(d, m, rounds, flags, t, f, pathMeta, keys, states, i, state);
        states := states + [state];
      }
      AllRecorded(d, m, rounds, flags, t, f, pathMeta, events, resolved, keys, states);
      RecordsCausal(d, m, rounds, flags, t, f, pathMeta, keys, states);
      RecordsOrdered(d, m, rounds, flags, t, f, pathMeta, resolved, keys, states);
      RecordsExplained(d, m, rounds, flags, t, f, pathMeta, keys, states);
      if Topological(events) {
        RecordsNotEarly(d, m, rounds, flags, t, f, pathMeta, keys, states);
      }
      if Sound(events) {
        OutcomeReached(d, m, coin, rounds, flags, t, f, pathMeta, resolved, keys, states);
        OutcomeDescribed(d, m, coin, SightingsOf(pathMeta), states);
      }
    }
  }

  function HopsOf(pathMeta: map<Id, seq<Hop>>, x: Id): seq<Hop> {
    if x in pathMeta then pathMeta[x] else []
  }

  function SightingsOf(pathMeta: map<Id, seq<Hop>>): Sightings {
    map x | x in pathMeta :: Observed(pathMeta[x])
  }

  lemma SightingsMeaning(pathMeta: map<Id, seq<Hop>>, x: Id)
    ensures SeenAt(SightingsOf(pathMeta), x) == Observed(HopsOf(pathMeta, x))
    ensures SeenAt(SightingsOf(pathMeta), x) == if x in pathMeta then Observed(pathMeta[x]) else {}
  {
  }

  ghost function Verdict(d: Graph, m: set<NodeId>, t: Table, f: FameTable, pathMeta: map<Id, seq<Hop>>,
                         x: Id): (Option<nat>, Option<real>)
    requires Acyclic(d)
  {
    (FirstReceived(d, m, t, f, x), Timestamp(m, Observed(HopsOf(pathMeta, x))))
  }

  ghost predicate HasVerdict(d: Graph, m: set<NodeId>, t: Table, f: FameTable, pathMeta: map<Id, seq<Hop>>, x: Id,
                             v: (Option<nat>, Option<real>))
    requires Acyclic(d)
  {
    v == Verdict(d, m, t, f, pathMeta, x)
  }

  ghost predicate AllResolved(d: Graph, m: set<NodeId>, t: Table, f: FameTable, pathMeta: map<Id, seq<Hop>>,
                              resolved: map<Id, (Option<nat>, Option<real>)>)
    requires Acyclic(d)
  {
    forall x {:trigger HasVerdict(d, m, t, f, pathMeta, x, resolved[x])} :: x in resolved ==>
      HasVerdict(d, m, t, f, pathMeta, x, resolved[x])
  }

  lemma VerdictAdded(d: Graph, m: set<NodeId>, t: Table, f: FameTable, pathMeta: map<Id, seq<Hop>>,
                     resolved: map<Id, (Option<nat>, Option<real>)>, x: Id, v: (Option<nat>, Option<real>))
    requires Acyclic(d) && AllResolved(d, m, t, f, pathMeta, resolved) && HasVerdict(d, m, t, f, pathMeta, x, v)
    ensures AllResolved(d, m, t, f, pathMeta, resolved[x := v])
  {
    var more := resolved[x := v];
    forall y | y in more ensures HasVerdict(d, m, t, f, pathMeta, y, more[y]) {
      if y != x { assert HasVerdict(d, m, t, f, pathMeta, y, resolved[y]); }
    }
  }

  function FameEntry(f: FameTable, r: nat, x: Id): Fame {
    if r in f && x in f[r] then f[r][x] else NO_FAME
  }

  ghost function RecordOf(d: Graph, m: set<NodeId>, rounds: map<Id, nat>, flags: map<Id, bool>, t: Table, f: FameTable,
                          pathMeta: map<Id, seq<Hop>>, x: Id): ConsensusState
    requires Acyclic(d) && x in d && x in rounds && x in flags
  {
    var received := FirstReceived(d, m, t, f, x);
    ConsensusState(x, d[x].creator, rounds[x], received, flags[x],
                   FameEntry(f, rounds[x], x),
                   if received.Some? then Timestamp(m, Observed(HopsOf(pathMeta, x))) else None)
  }

  lemma RecordAdded(d: Graph, m: set<NodeId>, rounds: map<Id, nat>, flags: map<Id, bool>, t: Table, f: FameTable,
                    pathMeta: map<Id, seq<Hop>>, keys: seq<OrderKey>, states: seq<ConsensusState>, n: nat,
                    state: ConsensusState)
    requires Acyclic(d) && n < |keys| && AllStates(d, m, rounds, flags, t, f, pathMeta, keys, states, n)
    requires IsRecord(d, m, rounds, flags, t, f, pathMeta, keys[n].id, state)
    ensures AllStates(d, m, rounds, flags, t, f, pathMeta, keys, states + [state], n + 1)
  {
    var more := states + [state];
    forall j | 0 <= j < n + 1 ensures IsRecord(d, m, rounds, flags, t, f, pathMeta, keys[j].id, more[j]) {
      if j < n {
        assert IsRecord(d, m, rounds, flags, t, f, pathMeta, keys[j].id, states[j]);
        assert more[j] == states[j];
      }
    }
  }

  lemma AllRecorded(d: Graph, m: set<NodeId>, rounds: map<Id, nat>, flags: map<Id, bool>, t: Table, f: FameTable,
                    pathMeta: map<Id, seq<Hop>>, events: seq<Event>, resolved: map<Id, (Option<nat>, Option<real>)>,
                    keys: seq<OrderKey>, states: seq<ConsensusState>)
    requires resolved.Keys == IdsOf(events) && Acyclic(d)
    requires forall k :: k in keys <==> k.id in IdsOf(events) && k == OrderKey(resolved[k.id].0, resolved[k.id].1, k.id)
    requires AllStates(d, m, rounds, flags, t, f, pathMeta, keys, states, |keys|)
    ensures forall x :: x in IdsOf(events) <==> exists i :: 0 <= i < |states| && states[i].eventId == x
  {
    forall j | 0 <= j < |keys| ensures states[j].eventId == keys[j].id {
      assert IsRecord(d, m, rounds, flags, t, f, pathMeta, keys[j].id, states[j]);
    }
    StateIds(events, resolved, keys, states);
  }

  /** The recorded rounds respect ancestry in every store. */
  lemma RecordsCausal(d: Graph, m: set<NodeId>, rounds: map<Id, nat>, flags: map<Id, bool>, t: Table, f: FameTable,
                      pathMeta: map<Id, seq<Hop>>, keys: seq<OrderKey>, states: seq<ConsensusState>)
    requires Acyclic(d) && AllStates(d, m, rounds, flags, t, f, pathMeta, keys, states, |keys|)
    ensures forall a, b :: a in states && b in states ==> InOrder(d, a, b)
  {
    forall a, b | a in states && b in states ensures InOrder(d, a, b) {
      var i :| 0 <= i < |states| && states[i] == a;
      var j :| 0 <= j < |states| && states[j] == b;
      assert IsRecord(d, m, rounds, flags, t, f, pathMeta, keys[i].id, states[i]);
      assert IsRecord(d, m, rounds, flags, t, f, pathMeta, keys[j].id, states[j]);
      if Sees(d, b.eventId, a.eventId) && b.roundReceived.Some? {
        CausalCut(d, m, t, f, a.eventId, b.eventId);
      }
    }
  }

  lemma RecordsOrdered(d: Graph, m: set<NodeId>, rounds: map<Id, nat>, flags: map<Id, bool>, t: Table, f: FameTable,
                       pathMeta: map<Id, seq<Hop>>, resolved: map<Id, (Option<nat>, Option<real>)>,
                       keys: seq<OrderKey>, states: seq<ConsensusState>)
    requires Acyclic(d) && AllStates(d, m, rounds, flags, t, f, pathMeta, keys, states, |keys|)
    requires Chronological(keys) && AllResolved(d, m, t, f, pathMeta, resolved)
    requires forall k :: k in keys ==> k.id in resolved && k == OrderKey(resolved[k.id].0, resolved[k.id].1, k.id)
    ensures InConsensusOrder(m, SightingsOf(pathMeta), states)
    ensures forall s :: s in states ==> Stamped(d, m, SightingsOf(pathMeta), s)
  {
    forall j | 0 <= j < |keys|
      ensures Stamped(d, m, SightingsOf(pathMeta), states[j]) && states[j].eventId == keys[j].id
      ensures keys[j].received == states[j].roundReceived
      ensures keys[j].ts == Timestamp(m, SeenAt(SightingsOf(pathMeta), keys[j].id))
    {
      assert IsRecord(d, m, rounds, flags, t, f, pathMeta, keys[j].id, states[j]);
      assert keys[j] in keys && HasVerdict(d, m, t, f, pathMeta, keys[j].id, resolved[keys[j].id]);
      SightingsMeaning(pathMeta, keys[j].id);
    }
  }

  /** Every state's received round follows from the states of the witnesses, in any store. */
  lemma RecordsExplained(d: Graph, m: set<NodeId>, rounds: map<Id, nat>, flags: map<Id, bool>, t: Table, f: FameTable,
                         pathMeta: map<Id, seq<Hop>>, keys: seq<OrderKey>, states: seq<ConsensusState>)
    requires Acyclic(d) && AllStates(d, m, rounds, flags, t, f, pathMeta, keys, states, |keys|)
    requires SameRounds(t, f) && EntriesMatch(t, rounds) && Enrolled(d, rounds, flags, t)
    requires flags.Keys == d.Keys && forall x :: x in d ==> exists i :: 0 <= i < |states| && states[i].eventId == x
    ensures forall s :: s in states ==> Explained(d, m, states, s)
  {
    RecordsMirror(d, m, rounds, flags, t, f, pathMeta, keys, states);
    forall s | s in states ensures Explained(d, m, states, s) {
      var i :| 0 <= i < |states| && states[i] == s;
      assert IsRecord(d, m, rounds, flags, t, f, pathMeta, keys[i].id, states[i]);
      ScanExplained(d, m, states, t, f, s);
    }
  }

  lemma RecordsMirror(d: Graph, m: set<NodeId>, rounds: map<Id, nat>, flags: map<Id, bool>, t: Table, f: FameTable,
                      pathMeta: map<Id, seq<Hop>>, keys: seq<OrderKey>, states: seq<ConsensusState>)
    requires Acyclic(d) && AllStates(d, m, rounds, flags, t, f, pathMeta, keys, states, |keys|)
    requires SameRounds(t, f) && EntriesMatch(t, rounds) && Enrolled(d, rounds, flags, t)
    requires flags.Keys == d.Keys && forall x :: x in d ==> exists i :: 0 <= i < |states| && states[i].eventId == x
    ensures Mirrors(states, t, f)
  {
    forall s | s in states && s.isWitness ensures Entered(t, f, s) {
      var i :| 0 <= i < |states| && states[i] == s;
      assert IsRecord(d, m, rounds, flags, t, f, pathMeta, keys[i].id, states[i]);
      assert Placed(d, rounds, flags, t, s.eventId);
      assert s.eventId in t[s.round].Values;
    }
    forall r, c | HasEntry(t, r, c) ensures exists s :: s in states && WitnessAt(s, r) && s.creator == c {
      var x := t[r][c];
      var i :| 0 <= i < |states| && states[i].eventId == x;
      assert IsRecord(d, m, rounds, flags, t, f, pathMeta, keys[i].id, states[i]);
      assert Placed(d, rounds, flags, t, x);
      assert states[i] in states;
    }
  }

  lemma RecordsNotEarly(d: Graph, m: set<NodeId>, rounds: map<Id, nat>, flags: map<Id, bool>, t: Table, f: FameTable,
                        pathMeta: map<Id, seq<Hop>>, keys: seq<OrderKey>, states: seq<ConsensusState>)
    requires Acyclic(d) && AllStates(d, m, rounds, flags, t, f, pathMeta, keys, states, |keys|)
    requires rounds.Keys == d.Keys && Climbing(d, d.Keys, rounds) && EntriesMatch(t, rounds)
    ensures forall s :: s in states ==> NotEarly(s)
  {
    forall s | s in states ensures NotEarly(s) {
      var i :| 0 <= i < |states| && states[i] == s;
      assert IsRecord(d, m, rounds, flags, t, f, pathMeta, keys[i].id, states[i]);
      if s.roundReceived.Some? {
        ReceivedNotBeforeRound(d, m, rounds, t, f, s.eventId);
      }
    }
  }

  lemma StateIds(events: seq<Event>, resolved: map<Id, (Option<nat>, Option<real>)>, keys: seq<OrderKey>,
                 states: seq<ConsensusState>)
    requires resolved.Keys == IdsOf(events)
    requires forall k :: k in keys <==> k.id in IdsOf(events) && k == OrderKey(resolved[k.id].0, resolved[k.id].1, k.id)
    requires |states| == |keys| && forall j :: 0 <= j < |keys| ==> states[j].eventId == keys[j].id
    ensures forall x :: x in IdsOf(events) <==> exists i :: 0 <= i < |states| && states[i].eventId == x
  {
    forall x ensures x in IdsOf(events) <==> exists i :: 0 <= i < |states| && states[i].eventId == x {
      if x in IdsOf(events) {
        var k := OrderKey(resolved[x].0, resolved[x].1, x);
        assert k in keys;
        var i :| 0 <= i < |keys| && keys[i] == k;
        assert states[i].eventId == x;
      }
      if i :| 0 <= i < |states| && states[i].eventId == x { assert keys[i] in keys; }
    }
  }

  /** Counting fame over the table of a view gives the view's fame. */
  lemma FamesTrue(d: Graph, m: set<NodeId>, coin: (Id, nat) -> bool, f: FameTable)
    requires View(d) && f.Keys == TableOf(d, m).Keys
    requires forall r :: r in f ==>
      f[r].Keys == TableOf(d, m)[r].Values && VotesCounted(d, m, coin, TableOf(d, m), r, f[r])
    ensures f == FamesOf(d, m, coin)
  {
    var t := TableOf(d, m);
    forall r, w | r in f && w in f[r] ensures IsFame(d, m, coin, w, f[r][w]) {
      FameTrue(d, m, coin, r, w, f[r]);
    }
    FameTableUnique(d, m, coin, t, f, FamesOf(d, m, coin));
  }

  lemma FameTrue(d: Graph, m: set<NodeId>, coin: (Id, nat) -> bool, r: nat, w: Id, fames: map<Id, Fame>)
    requires View(d) && r in TableOf(d, m) && w in TableOf(d, m)[r].Values && w in fames
    requires VotesCounted(d, m, coin, TableOf(d, m), r, fames)
    ensures IsFame(d, m, coin, w, fames[w])
  {
    ListedWitness(d, m, coin, r, w);
    assert FameCounted(d, m, coin, TableOf(d, m), r, w, fames[w]);
  }

  lemma FameTableUnique(d: Graph, m: set<NodeId>, coin: (Id, nat) -> bool, t: Table, f: FameTable, g: FameTable)
    requires View(d) && IsFameTable(d, m, coin, t, f) && IsFameTable(d, m, coin, t, g)
    ensures f == g
  {
    forall r | r in f ensures f[r] == g[r] {
      forall w | w in f[r] ensures f[r][w] == g[r][w] {
        assert IsFame(d, m, coin, w, f[r][w]) && IsFame(d, m, coin, w, g[r][w]);
      }
    }
  }

  lemma FameLooked(d: Graph, m: set<NodeId>, coin: (Id, nat) -> bool, x: Id)
    requires View(d) && x in d
    ensures FameEntry(FamesOf(d, m, coin), RoundsOf(d, m)[x], x) ==
      if IsWitness(d, RoundsOf(d, m), x) then FameOf(d, m, coin, x) else NO_FAME
  {
    var f: FameTable := FamesOf(d, m, coin);
    var rounds, t := RoundsOf(d, m), TableOf(d, m);
    var r := rounds[x];
    if r in f && x in f[r] { ListedWitness(d, m, coin, r, x); }
    if IsWitness(d, rounds, x) {
      TableWitness(d, m, rounds, t, x, r, d[x].creator);
      assert x in t[r].Values;
    }
  }

  lemma RecordTrue(d: Graph, m: set<NodeId>, coin: (Id, nat) -> bool, rounds: map<Id, nat>, flags: map<Id, bool>,
                   t: Table, f: FameTable, pathMeta: map<Id, seq<Hop>>, x: Id)
    requires View(d) && x in d && x in flags
    requires rounds == RoundsOf(d, m) && t == TableOf(d, m) && f == FamesOf(d, m, coin)
    requires flags[x] == IsWitness(d, rounds, x)
    ensures RecordOf(d, m, rounds, flags, t, f, pathMeta, x) == StateOf(d, m, coin, SightingsOf(pathMeta), x)
  {
    FameLooked(d, m, coin, x);
    assert RoundReceived(d, m, coin, x) == FirstReceived(d, m, t, f, x);
    SightingsMeaning(pathMeta, x);
  }

  lemma {:induction false} KeysTrue(d: Graph, m: set<NodeId>, coin: (Id, nat) -> bool, t: Table, f: FameTable,
                 pathMeta: map<Id, seq<Hop>>, resolved: map<Id, (Option<nat>, Option<real>)>, keys: seq<OrderKey>)
    requires View(d) && t == TableOf(d, m) && f == FamesOf(d, m, coin)
    requires resolved.Keys == d.Keys && AllResolved(d, m, t, f, pathMeta, resolved)
    requires SortedBy(keys, KeyLe) && Distinct(keys)
    requires forall k :: k in keys <==> k.id in d && k == OrderKey(resolved[k.id].0, resolved[k.id].1, k.id)
    ensures IsOrder(d, m, coin, SightingsOf(pathMeta), keys)
  {
    forall x | x in d ensures OrderKey(resolved[x].0, resolved[x].1, x) == KeyOf(d, m, coin, SightingsOf(pathMeta), x) {
      assert HasVerdict(d, m, t, f, pathMeta, x, resolved[x]);
    }
  }

  lemma OutcomeReached(d: Graph, m: set<NodeId>, coin: (Id, nat) -> bool, rounds: map<Id, nat>, flags: map<Id, bool>,
                       t: Table, f: FameTable, pathMeta: map<Id, seq<Hop>>,
                       resolved: map<Id, (Option<nat>, Option<real>)>, keys: seq<OrderKey>, states: seq<ConsensusState>)
    requires View(d) && rounds == RoundsOf(d, m) && t == TableOf(d, m)
    requires flags.Keys == d.Keys && forall x :: x in d ==> flags[x] == IsWitness(d, rounds, x)
    requires f.Keys == t.Keys && forall r :: r in t ==> f[r].Keys == t[r].Values && VotesCounted(d, m, coin, t, r, f[r])
    requires resolved.Keys == d.Keys && AllResolved(d, m, t, f, pathMeta, resolved)
    requires SortedBy(keys, KeyLe) && Distinct(keys)
    requires forall k :: k in keys <==> k.id in d && k == OrderKey(resolved[k.id].0, resolved[k.id].1, k.id)
    requires AllStates(d, m, rounds, flags, t, f, pathMeta, keys, states, |keys|)
    ensures IsOutcome(d, m, coin, SightingsOf(pathMeta), states)
  {
    FamesTrue(d, m, coin, f);
    KeysTrue(d, m, coin, t, f, pathMeta, resolved, keys);
    StatesTrue(d, m, coin, rounds, flags, t, f, pathMeta, keys, states);
  }

  lemma StatesTrue(d: Graph, m: set<NodeId>, coin: (Id, nat) -> bool, rounds: map<Id, nat>, flags: map<Id, bool>,
                   t: Table, f: FameTable, pathMeta: map<Id, seq<Hop>>, keys: seq<OrderKey>,
                   states: seq<ConsensusState>)
    requires View(d) && rounds == RoundsOf(d, m) && t == TableOf(d, m) && f == FamesOf(d, m, coin)
    requires flags.Keys == d.Keys && forall x :: x in d ==> flags[x] == IsWitness(d, rounds, x)
    requires AllStates(d, m, rounds, flags, t, f, pathMeta, keys, states, |keys|)
    ensures StatesAlong(d, m, coin, SightingsOf(pathMeta), keys, states)
  {
    forall j | 0 <= j < |keys|
      ensures keys[j].id in d && states[j] == StateOf(d, m, coin, SightingsOf(pathMeta), keys[j].id)
    {
      assert IsRecord(d, m, rounds, flags, t, f, pathMeta, keys[j].id, states[j]);
      RecordTrue(d, m, coin, rounds, flags, t, f, pathMeta, keys[j].id);
    }
  }

  ghost predicate IsRecord(d: Graph, m: set<NodeId>, rounds: map<Id, nat>, flags: map<Id, bool>, t: Table, f: FameTable,
                           pathMeta: map<Id, seq<Hop>>, x: Id, state: ConsensusState)
    requires Acyclic(d)
  {
    && x in d && x in rounds && x in flags && state.eventId == x
    && state == RecordOf(d, m, rounds, flags, t, f, pathMeta, x)
  }

  ghost predicate AllStates(d: Graph, m: set<NodeId>, rounds: map<Id, nat>, flags: map<Id, bool>, t: Table,
                            f: FameTable, pathMeta: map<Id, seq<Hop>>, keys: seq<OrderKey>,
                            states: seq<ConsensusState>, n: nat)
    requires Acyclic(d)
  {
    && |states| == n && n <= |keys|
    && forall j {:trigger IsRecord(d, m, rounds, flags, t, f, pathMeta, keys[j].id, states[j])} :: 0 <= j < n ==>
         IsRecord(d, m, rounds, flags, t, f, pathMeta, keys[j].id, states[j])
  }

  lemma FirstFound(d: Graph, m: set<NodeId>, t: Table, f: FameTable, x: Id, ordered: seq<nat>, k: nat)
    requires Acyclic(d) && Increasing(ordered) && (forall s :: s in ordered <==> s in t) && k < |ordered|
    requires forall j :: 0 <= j < k ==> !ReceivedAt(d, m, t, f, ordered[j], x)
    requires ReceivedAt(d, m, t, f, ordered[k], x)
    ensures FirstReceived(d, m, t, f, x) == Some(ordered[k])
  {
    FirstIsLeast(d, m, t, f, x, ordered[k]);
    var r := FirstReceived(d, m, t, f, x).value;
    var j :| 0 <= j < |ordered| && ordered[j] == r;
  }

  lemma ObservedStep(hops: seq<Hop>, i: nat)
    requires i < |hops|
    ensures hops[i].ts.Some? ==> Observed(hops[..i + 1]) == Observed(hops[..i]) + {(hops[i].node, hops[i].ts.value)}
    ensures hops[i].ts.None? ==> Observed(hops[..i + 1]) == Observed(hops[..i])
  {
    assert hops[..i + 1] == hops[..i] + [hops[i]];
  }

  lemma StrangerIgnored(m: set<NodeId>, before: set<(NodeId, real)>, after: set<(NodeId, real)>, times: Times, hop: Hop)
    requires IsEarliest(m, before, times) && (hop.node !in m || hop.ts.None?)
    requires after == if hop.ts.Some? then before + {(hop.node, hop.ts.value)} else before
    ensures IsEarliest(m, after, times)
  {
    forall c | c in times ensures Saw(after, c, times[c]) { assert Saw(before, c, times[c]); }
    forall c, u | Saw(after, c, u) && c in m ensures c in times && times[c] <= u { assert Saw(before, c, u); }
  }
}
