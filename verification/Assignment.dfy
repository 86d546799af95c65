/** The pass that assigns rounds and witnesses in topological order (mdrj/consensus.py:56-77). */
module Assignment {
  import opened Prelude
  import opened Quorum
  import opened Dag
  import opened Rounds
  import opened Voting
  import opened FameSafety
  import opened Visibility

  function IdsOf(events: seq<Event>): set<Id> {
    set e | e in events :: e.id
  }

  /** `by_id` of the source. */
  function ById(events: seq<Event>): (d: Graph)
    ensures d.Keys == IdsOf(events)
    ensures WellKeyed(d)
    ensures forall x :: x in d ==> d[x] in events
  {
    if events == [] then map[]
    else
      assert events == events[..|events| - 1] + [events[|events| - 1]];
      ById(events[..|events| - 1])[events[|events| - 1].id := events[|events| - 1]]
  }

  predicate DistinctIds(events: seq<Event>) {
    forall i, j :: 0 <= i < j < |events| ==> events[i].id != events[j].id
  }

  lemma {:induction false} ByIdAt(events: seq<Event>, i: nat)
    requires DistinctIds(events) && i < |events|
    ensures events[i].id in ById(events) && ById(events)[events[i].id] == events[i]
  {
    var last := |events| - 1;
    if i < last { ByIdAt(events[..last], i); }
  }

  /** Every present parent comes before its child. */
  predicate Topological(events: seq<Event>) {
    forall i, p :: 0 <= i < |events| && p in Parents(events[i]) && p in IdsOf(events) ==> p in IdsOf(events[..i])
  }

  ghost predicate ParentsWithin(d: Graph, ids: set<Id>) {
    forall x, p {:trigger p in Parents(d[x])} :: x in ids && x in d && p in Parents(d[x]) ==> p in ids
  }

  lemma {:induction false} AncWithin(d: Graph, ids: set<Id>, x: Id)
    requires Acyclic(d) && ParentsWithin(d, ids) && x in ids
    ensures Anc(d, x) <= ids
    decreases Height(d, x)
  {
    if x in d {
      forall p | p in Parents(d[x]) ensures p in ids && Anc(d, p) <= ids { AncWithin(d, ids, p); }
    }
  }

  lemma {:induction false} ParentPresent(events: seq<Event>, j: nat, p: Id)
    requires DistinctIds(events) && Closed(ById(events)) && j < |events| && p in Parents(events[j])
    ensures p in IdsOf(events)
  {
    ByIdAt(events, j);
  }

  lemma {:induction false} ParentEarlier(events: seq<Event>, j: nat, p: Id)
    requires DistinctIds(events) && Topological(events) && Closed(ById(events))
    requires j < |events| && p in Parents(events[j])
    ensures p in IdsOf(events[..j])
  {
    ParentPresent(events, j, p);
  }

  lemma IndexOf(events: seq<Event>, i: nat, x: Id) returns (j: nat)
    requires i <= |events| && x in IdsOf(events[..i])
    ensures j < i && events[j].id == x
  {
    var e :| e in events[..i] && e.id == x;
    j :| 0 <= j < i && events[j] == e;
  }

  lemma {:induction false} PrefixWithin(events: seq<Event>, i: nat)
    requires DistinctIds(events) && Topological(events) && Closed(ById(events)) && i <= |events|
    ensures ParentsWithin(ById(events), IdsOf(events[..i]))
    ensures i < |events| ==> Parents(events[i]) <= IdsOf(events[..i]) && events[i].id !in IdsOf(events[..i])
  {
    var d, ids := ById(events), IdsOf(events[..i]);
    forall x, p | x in ids && x in d && p in Parents(d[x]) ensures p in ids {
      var j := IndexOf(events, i, x);
      ByIdAt(events, j);
      ParentEarlier(events, j, p);
    }
    if i < |events| {
      forall p | p in Parents(events[i]) ensures p in ids { ParentEarlier(events, i, p); }
    }
  }

  /** Everything the pass needs to give its guarantee. */
  ghost predicate Sound(events: seq<Event>) {
    DistinctIds(events) && Topological(events) && View(ById(events))
  }

  // ---- The three dictionaries after a prefix of the events, against the true rounds ----

  ghost predicate RoundsDone(truth: RoundMap, done: set<Id>, rounds: RoundMap) {
    rounds.Keys == done && done <= truth.Keys && forall x {:trigger rounds[x]} :: x in done ==> rounds[x] == truth[x]
  }

  ghost predicate FlagsDone(d: Graph, truth: RoundMap, done: set<Id>, flags: map<Id, bool>)
    requires Acyclic(d) && truth.Keys == d.Keys && done <= d.Keys
  {
    flags.Keys == done && forall x {:trigger flags[x]} :: x in done ==> flags[x] == IsWitness(d, truth, x)
  }

  ghost predicate TableDone(d: Graph, truth: RoundMap, done: set<Id>, t: Table)
    requires Acyclic(d) && truth.Keys == d.Keys && done <= d.Keys
  {
    && (forall r {:trigger t[r]} :: r in t ==> t[r] != map[])
    && (forall r, c {:trigger HasEntry(t, r, c)} :: HasEntry(t, r, c) ==>
        t[r][c] in done && WitnessOf(d, truth, t[r][c], r, c))
    && (forall x {:trigger Listed(d, truth, t, x)} :: x in done ==> Listed(d, truth, t, x))
  }

  ghost predicate Progress(d: Graph, truth: RoundMap, done: set<Id>, rounds: RoundMap, flags: map<Id, bool>, t: Table)
    requires Acyclic(d) && truth.Keys == d.Keys
  {
    && done <= d.Keys && RoundsDone(truth, done, rounds)
    && FlagsDone(d, truth, done, flags) && TableDone(d, truth, done, t)
  }

  function WitnessesIn(t: Table, r: nat): set<Id> {
    if r in t then t[r].Values else {}
  }

  /** The witnesses found so far are all the round-`r` witnesses a new event can see. */
  lemma SeenSoFar(d: Graph, m: set<NodeId>, truth: RoundMap, done: set<Id>, t: Table, x: Id, r: nat)
    requires View(d) && ValidRounds(d, m, truth) && done <= d.Keys && TableDone(d, truth, done, t)
    requires x in d && x !in done && Anc(d, x) <= done && WitnessesIn(t, r) <= d.Keys
    ensures VisibleCreators(d, x, WitnessesIn(t, r)) * m == SeenCreators(d, m, truth, x, r)
  {
    var mine, all := VisibleCreators(d, x, WitnessesIn(t, r)) * m, SeenCreators(d, m, truth, x, r);
    forall c | c in mine ensures c in all {
      var w :| w in WitnessesIn(t, r) && Sees(d, x, w) && d[w].creator == c;
      var e :| e in t[r] && t[r][e] == w;
      assert HasEntry(t, r, e);
    }
    forall c | c in all ensures c in mine {
      var w :| w in Anc(d, x) && WitnessOf(d, truth, w, r, c);
      assert Listed(d, truth, t, w);
      WitnessUnique(d, truth, w, t[r][c], r, c);
    }
  }

  lemma {:induction false} BaseIsTrue(d: Graph, truth: RoundMap, done: set<Id>, rounds: RoundMap, x: Id)
    requires Acyclic(d) && truth.Keys == d.Keys && done <= d.Keys && RoundsDone(truth, done, rounds)
    requires x in d && Anc(d, x) <= done
    ensures BaseRound(d, rounds, x) == BaseRound(d, truth, x)
  {
    BaseRoundAgrees(d, d, rounds, truth, x);
  }

  /** A creator is missing from the round's table exactly when the new event is its first there. */
  lemma FirstOfRound(d: Graph, truth: RoundMap, done: set<Id>, t: Table, x: Id)
    requires View(d) && truth.Keys == d.Keys && done <= d.Keys && TableDone(d, truth, done, t)
    requires x in d && x !in done && Anc(d, x) <= done && ParentsWithin(d, done)
    ensures IsWitness(d, truth, x) <==> !HasEntry(t, truth[x], d[x].creator)
  {
    if HasEntry(t, truth[x], d[x].creator) {
      EarlierEntry(d, truth, done, t, x);
    } else {
      forall a | a in Anc(d, x) && d[a].creator == d[x].creator ensures truth[a] != truth[x] {
        assert Listed(d, truth, t, a);
      }
    }
  }

  lemma EarlierEntry(d: Graph, truth: RoundMap, done: set<Id>, t: Table, x: Id)
    requires View(d) && truth.Keys == d.Keys && done <= d.Keys && TableDone(d, truth, done, t)
    requires x in d && x !in done && ParentsWithin(d, done) && HasEntry(t, truth[x], d[x].creator)
    ensures !IsWitness(d, truth, x)
  {
    var w := t[truth[x]][d[x].creator];
    AncWithin(d, done, w);
    assert Related(d, x, w);
  }

  function WithEntry(t: Table, r: nat, c: NodeId, w: Id): Table {
    var entries: map<NodeId, Id> := if r in t then t[r] else map[];
    t[r := entries[c := w]]
  }

  lemma EntryAdded(t: Table, r: nat, c: NodeId, w: Id, s: nat, e: NodeId)
    ensures HasEntry(WithEntry(t, r, c, w), s, e) <==> HasEntry(t, s, e) || (s == r && e == c)
    ensures HasEntry(WithEntry(t, r, c, w), s, e) ==>
      WithEntry(t, r, c, w)[s][e] == if s == r && e == c then w else t[s][e]
  {
  }

  lemma TableStep(d: Graph, truth: RoundMap, done: set<Id>, t: Table, x: Id, t': Table)
    requires Acyclic(d) && truth.Keys == d.Keys && done <= d.Keys && TableDone(d, truth, done, t)
    requires x in d && IsWitness(d, truth, x) && !HasEntry(t, truth[x], d[x].creator)
    requires t' == WithEntry(t, truth[x], d[x].creator, x)
    ensures TableDone(d, truth, done + {x}, t')
  {
    var r, c := truth[x], d[x].creator;
    forall s, e | HasEntry(t', s, e) ensures t'[s][e] in done + {x} && WitnessOf(d, truth, t'[s][e], s, e) {
      EntryAdded(t, r, c, x, s, e);
    }
    forall y | y in done + {x} ensures Listed(d, truth, t', y) {
      EntryAdded(t, r, c, x, truth[y], d[y].creator);
      assert y in done ==> Listed(d, truth, t, y);
    }
  }

  lemma {:induction false} TableAfter(d: Graph, truth: RoundMap, done: set<Id>, t: Table, x: Id, t': Table)
    requires View(d) && truth.Keys == d.Keys && done <= d.Keys && TableDone(d, truth, done, t)
    requires x in d && x !in done && Anc(d, x) <= done && ParentsWithin(d, done)
    requires t' == if HasEntry(t, truth[x], d[x].creator) then t else WithEntry(t, truth[x], d[x].creator, x)
    ensures TableDone(d, truth, done + {x}, t')
  {
    if HasEntry(t, truth[x], d[x].creator) {
    } else {
      FirstOfRound(d, truth, done, t, x);
      TableStep(d, truth, done, t, x, t');
    }
  }

  lemma {:induction false} FlagsAfter(d: Graph, truth: RoundMap, done: set<Id>, flags: map<Id, bool>, t: Table, x: Id)
    requires View(d) && truth.Keys == d.Keys && done <= d.Keys && TableDone(d, truth, done, t)
    requires FlagsDone(d, truth, done, flags)
    requires x in d && x !in done && Anc(d, x) <= done && ParentsWithin(d, done)
    ensures FlagsDone(d, truth, done + {x}, flags[x := !HasEntry(t, truth[x], d[x].creator)])
  {
    FirstOfRound(d, truth, done, t, x);
  }

  lemma {:induction false} ProgressStep(d: Graph, truth: RoundMap, done: set<Id>, rounds: RoundMap,
                                        flags: map<Id, bool>, t: Table, x: Id, rounds': RoundMap,
                                        flags': map<Id, bool>, t': Table)
    requires View(d) && truth.Keys == d.Keys && Progress(d, truth, done, rounds, flags, t)
    requires x in d && x !in done && Anc(d, x) <= done && ParentsWithin(d, done)
    requires rounds' == rounds[x := truth[x]]
    requires flags' == flags[x := !HasEntry(t, truth[x], d[x].creator)]
    requires t' == if HasEntry(t, truth[x], d[x].creator) then t else WithEntry(t, truth[x], d[x].creator, x)
    ensures Progress(d, truth, done + {x}, rounds', flags', t')
  {
    FlagsAfter(d, truth, done, flags, t, x);
    TableAfter(d, truth, done, t, x, t');
  }

  lemma ProgressComplete(d: Graph, m: set<NodeId>, rounds: RoundMap, flags: map<Id, bool>, t: Table)
    requires View(d) && Progress(d, RoundsOf(d, m), d.Keys, rounds, flags, t)
    ensures rounds == RoundsOf(d, m) && t == TableOf(d, m)
    ensures forall x :: x in d ==> flags[x] == IsWitness(d, RoundsOf(d, m), x)
  {
    assert rounds == RoundsOf(d, m);
    assert IsTable(d, rounds, t);
    TableUnique(d, m, rounds, t, TableOf(d, m));
  }

  method MaxParentRound(rounds: RoundMap, parents: seq<Id>) returns (base: nat)
    ensures var below := set p | p in parents && p in rounds :: rounds[p];
      base == if below == {} then 0 else Max(below)
  {
    base := 0;
    for i := 0 to |parents|
      invariant forall p :: p in parents[..i] && p in rounds ==> rounds[p] <= base
      invariant base > 0 ==> exists p :: p in parents[..i] && p in rounds && rounds[p] == base
    {
      assert parents[..i + 1] == parents[..i] + [parents[i]];
      if parents[i] in rounds && rounds[parents[i]] > base {
        base := rounds[parents[i]];
      }
    }
    assert parents[..|parents|] == parents;
    MaxFound(rounds, parents, base);
  }

  lemma MaxFound(rounds: RoundMap, parents: seq<Id>, base: nat)
    requires forall p :: p in parents && p in rounds ==> rounds[p] <= base
    requires base > 0 ==> exists p :: p in parents && p in rounds && rounds[p] == base
    ensures var below := set p | p in parents && p in rounds :: rounds[p];
      base == if below == {} then 0 else Max(below)
  {
    var below := set p | p in parents && p in rounds :: rounds[p];
    assert base > 0 ==> base in below;
    assert forall r :: r in below ==> r <= base;
  }

  /** Assign every event its round, note which events are witnesses, and list them by round and creator. */
  method AssignRounds(events: seq<Event>, m: set<NodeId>, cache: AncestorCache)
      returns (rounds: RoundMap, flags: map<Id, bool>, t: Table)
    requires DistinctIds(events) && Acyclic(ById(events)) && cache.Valid(ById(events))
    modifies cache
    ensures cache.Valid(ById(events))
    ensures rounds.Keys == IdsOf(events) && flags.Keys == IdsOf(events)
    ensures EntriesMatch(t, rounds) && Enrolled(ById(events), rounds, flags, t)
    ensures Topological(events) ==> Climbing(ById(events), IdsOf(events), rounds)
    ensures Sound(events) ==>
      var d := ById(events);
      && rounds == RoundsOf(d, m) && t == TableOf(d, m)
      && forall x :: x in d ==> flags[x] == IsWitness(d, RoundsOf(d, m), x)
  {
    var d := ById(events);
    forall i: nat | i < |events|
      ensures Ready(d, events, i, Sound(events), Topological(events))
    {
      StepReady(events, i);
    }
    rounds, flags, t := PlaceAll(d, events, m, cache, Sound(events), Topological(events));
    if Sound(events) {
      ProgressComplete(d, m, rounds, flags, t);
    }
  }

  /** Of the events with one round and one creator exactly one is the witness, the one the table lists. */
  ghost predicate Enrolled(d: Graph, rounds: RoundMap, flags: map<Id, bool>, t: Table) {
    && (forall r, c {:trigger HasEntry(t, r, c)} :: HasEntry(t, r, c) ==> t[r][c] in d && d[t[r][c]].creator == c)
    && (forall x {:trigger Placed(d, rounds, flags, t, x)} :: x in flags ==> Placed(d, rounds, flags, t, x))
  }

  ghost predicate Placed(d: Graph, rounds: RoundMap, flags: map<Id, bool>, t: Table, x: Id)
    requires x in flags
  {
    && x in d && x in rounds && HasEntry(t, rounds[x], d[x].creator)
    && (flags[x] <==> t[rounds[x]][d[x].creator] == x)
  }

  /** What the `i`-th turn of the loop may rely on. */
  ghost predicate Ready(d: Graph, events: seq<Event>, i: nat, sound: bool, topological: bool)
    requires Acyclic(d) && i < |events|
  {
    var x, done := events[i].id, IdsOf(events[..i]);
    && x in d && d[x] == events[i] && x !in done && IdsOf(events[..i + 1]) == done + {x}
    && (topological ==> forall p :: p in Parents(events[i]) && p in d ==> p in done)
    && (sound ==> Anc(d, x) <= done && ParentsWithin(d, done))
  }

  method PlaceAll(d: Graph, events: seq<Event>, m: set<NodeId>, cache: AncestorCache, ghost sound: bool,
                  ghost topological: bool)
      returns (rounds: RoundMap, flags: map<Id, bool>, t: Table)
    requires Acyclic(d) && cache.Valid(d) && (sound ==> View(d))
    requires forall i {:trigger events[i]} :: 0 <= i < |events| ==> Ready(d, events, i, sound, topological)
    modifies cache
    ensures cache.Valid(d)
    ensures rounds.Keys == IdsOf(events) && flags.Keys == IdsOf(events) && IdsOf(events) <= d.Keys
    ensures EntriesMatch(t, rounds) && Enrolled(d, rounds, flags, t)
    ensures topological ==> Climbing(d, IdsOf(events), rounds)
    ensures sound ==> Progress(d, RoundsOf(d, m), IdsOf(events), rounds, flags, t)
  {
    ghost var truth, done := if sound then RoundsOf(d, m) else map[], {};
    rounds, flags, t := map[], map[], map[];
    for i := 0 to |events|
      invariant cache.Valid(d)
      invariant done == IdsOf(events[..i]) && done <= d.Keys
      invariant Tracking(d, done, rounds, flags, t)
      invariant topological ==> Climbing(d, done, rounds)
      invariant sound ==> Progress(d, truth, done, rounds, flags, t)
    {
      assert Ready(d, events, i, sound, topological);
      ghost var before := rounds;
      rounds, flags, t := PlaceEvent(d, m, rounds, flags, t, events[i], cache, sound, truth, done);
      if topological { ClimbStep(d, done, before, rounds, events[i]); }
      done := done + {events[i].id};
    }
    assert events[..|events|] == events;
  }

  /** One turn of the loop: place `event` in its round. */
  method PlaceEvent(d: Graph, m: set<NodeId>, rounds: RoundMap, flags: map<Id, bool>, t: Table, event: Event,
                    cache: AncestorCache, ghost sound: bool, ghost truth: RoundMap, ghost done: set<Id>)
      returns (rounds': RoundMap, flags': map<Id, bool>, t': Table)
    requires Acyclic(d) && cache.Valid(d) && event.id in d && d[event.id] == event
    requires done <= d.Keys && Tracking(d, done, rounds, flags, t) && event.id !in done
    requires sound ==>
      && View(d) && ValidRounds(d, m, truth) && Progress(d, truth, done, rounds, flags, t)
      && Anc(d, event.id) <= done && ParentsWithin(d, done)
    modifies cache
    ensures cache.Valid(d)
    ensures Tracking(d, done + {event.id}, rounds', flags', t') && rounds' == rounds[event.id := rounds'[event.id]]
    ensures forall p :: p in Parents(event) && p in rounds ==> rounds[p] <= rounds'[event.id]
    ensures sound ==> Progress(d, truth, done + {event.id}, rounds', flags', t')
  {
    var round := PickRound(d, m, rounds, t, event, cache);
    var first := !HasEntry(t, round, event.creator);
    rounds' := rounds[event.id := round];
    flags' := flags[event.id := first];
    t' := if first then WithEntry(t, round, event.creator, event.id) else t;
    TrackingStep(d, done, rounds, flags, t, event, round);
    forall p | p in Parents(event) && p in rounds ensures rounds[p] <= round { ParentRound(d, rounds, event.id, p); }
    if sound {
      StepDone(d, m, truth, done, event.id, BaseRound(d, rounds, event.id), round, rounds, flags, t,
               rounds', flags', t');
    }
  }

  /** The promotion test: one above the highest parent if the event sees enough witnesses there. */
  method PickRound(d: Graph, m: set<NodeId>, rounds: RoundMap, t: Table, event: Event, cache: AncestorCache)
      returns (round: nat)
    requires Acyclic(d) && cache.Valid(d) && EntriesMatch(t, rounds) && rounds.Keys <= d.Keys
    requires event.id in d && d[event.id] == event
    modifies cache
    ensures cache.Valid(d)
    ensures var base := BaseRound(d, rounds, event.id);
      && WitnessesIn(t, base) <= d.Keys
      && round == if |VisibleCreators(d, event.id, WitnessesIn(t, base)) * m| >= Threshold(|m|) then base + 1 else base
  {
    var base := MaxParentRound(rounds, event.parents);
    ParentSet(d, rounds, event);
    EntriesAt(t, base, rounds);
    round := base;
    if WitnessesIn(t, base) != {} {
      var reached := cache.SeesSupermajority(d, m, event.id, WitnessesIn(t, base));
      if reached { round := base + 1; }
    }
  }

  lemma ParentSet(d: Graph, rounds: RoundMap, event: Event)
    requires event.id in d && d[event.id] == event
    ensures (set p | p in event.parents && p in rounds :: rounds[p])
         == set p | p in Parents(event) && p in rounds :: rounds[p]
  {
  }

  ghost predicate Tracking(d: Graph, ids: set<Id>, rounds: RoundMap, flags: map<Id, bool>, t: Table) {
    rounds.Keys == ids && flags.Keys == ids && ids <= d.Keys && EntriesMatch(t, rounds) && Enrolled(d, rounds, flags, t)
  }

  lemma TrackingStep(d: Graph, ids: set<Id>, rounds: RoundMap, flags: map<Id, bool>, t: Table, event: Event, round: nat)
    requires Tracking(d, ids, rounds, flags, t) && event.id !in ids && event.id in d && d[event.id] == event
    ensures var first := !HasEntry(t, round, event.creator);
      Tracking(d, ids + {event.id}, rounds[event.id := round], flags[event.id := first],
               if first then WithEntry(t, round, event.creator, event.id) else t)
  {
    EntriesStep(t, rounds, round, event.creator, event.id);
    EnrolledStep(d, rounds, flags, t, event, round);
  }

  lemma EnrolledStep(d: Graph, rounds: RoundMap, flags: map<Id, bool>, t: Table, event: Event, round: nat)
    requires rounds.Keys == flags.Keys && rounds.Keys <= d.Keys && EntriesMatch(t, rounds)
    requires Enrolled(d, rounds, flags, t) && event.id !in rounds && event.id in d && d[event.id] == event
    ensures var first := !HasEntry(t, round, event.creator);
      Enrolled(d, rounds[event.id := round], flags[event.id := first],
               if first then WithEntry(t, round, event.creator, event.id) else t)
  {
    var first := !HasEntry(t, round, event.creator);
    var rounds', flags' := rounds[event.id := round], flags[event.id := first];
    var t' := if first then WithEntry(t, round, event.creator, event.id) else t;
    forall r, c | HasEntry(t', r, c) ensures t'[r][c] in d && d[t'[r][c]].creator == c {
      EntryAdded(t, round, event.creator, event.id, r, c);
      assert HasEntry(t, r, c) || t'[r][c] == event.id;
    }
    forall x | x in flags' ensures Placed(d, rounds', flags', t', x) {
      EntryAdded(t, round, event.creator, event.id, rounds'[x], d[x].creator);
      if x in flags { assert Placed(d, rounds, flags, t, x); }
    }
  }

  lemma EntriesStep(t: Table, rounds: RoundMap, r: nat, c: NodeId, w: Id)
    requires EntriesMatch(t, rounds) && w !in rounds
    ensures EntriesMatch(t, rounds[w := r]) && EntriesMatch(WithEntry(t, r, c, w), rounds[w := r])
  {
    var t', rounds' := WithEntry(t, r, c, w), rounds[w := r];
    forall s, e | HasEntry(t', s, e) ensures t'[s][e] in rounds' && rounds'[t'[s][e]] == s {
      EntryAdded(t, r, c, w, s, e);
    }
  }

  lemma EntriesAt(t: Table, r: nat, rounds: RoundMap)
    requires EntriesMatch(t, rounds)
    ensures WitnessesIn(t, r) <= rounds.Keys
  {
    forall w | w in WitnessesIn(t, r) ensures w in rounds {
      var c :| c in t[r] && t[r][c] == w;
      assert HasEntry(t, r, c);
    }
  }

  lemma ClimbStep(d: Graph, done: set<Id>, rounds: RoundMap, rounds': RoundMap, event: Event)
    requires Climbing(d, done, rounds) && rounds.Keys == done && event.id !in done && event.id in d
    requires d[event.id] == event
    requires event.id in rounds' && rounds' == rounds[event.id := rounds'[event.id]]
    requires forall p :: p in Parents(event) && p in d ==> p in done
    requires forall p :: p in Parents(event) && p in rounds ==> rounds[p] <= rounds'[event.id]
    ensures Climbing(d, done + {event.id}, rounds')
  {
  }

  lemma PrefixIds(events: seq<Event>, i: nat)
    requires i < |events|
    ensures IdsOf(events[..i + 1]) == IdsOf(events[..i]) + {events[i].id}
    ensures IdsOf(events[..i + 1]) <= IdsOf(events)
  {
    assert events[..i + 1] == events[..i] + [events[i]];
  }

  lemma NotYet(events: seq<Event>, i: nat)
    requires DistinctIds(events) && i < |events|
    ensures events[i].id !in IdsOf(events[..i])
  {
    if events[i].id in IdsOf(events[..i]) {
      var j := IndexOf(events, i, events[i].id);
    }
  }

  lemma {:induction false} StepReady(events: seq<Event>, i: nat)
    requires DistinctIds(events) && Acyclic(ById(events)) && i < |events|
    ensures events[i].id in ById(events) && ById(events)[events[i].id] == events[i]
    ensures IdsOf(events[..i + 1]) == IdsOf(events[..i]) + {events[i].id}
    ensures events[i].id !in IdsOf(events[..i])
    ensures Topological(events) ==> forall p :: p in Parents(events[i]) && p in ById(events) ==> p in IdsOf(events[..i])
    ensures Sound(events) ==>
      Anc(ById(events), events[i].id) <= IdsOf(events[..i]) && ParentsWithin(ById(events), IdsOf(events[..i]))
  {
    var d, done, x := ById(events), IdsOf(events[..i]), events[i].id;
    ByIdAt(events, i);
    PrefixIds(events, i);
    NotYet(events, i);
    if Sound(events) {
      PrefixWithin(events, i);
      forall p | p in Parents(d[x]) ensures Anc(d, p) <= done { AncWithin(d, done, p); }
    }
  }

  /** One step of the pass extends the true assignment. */
  lemma {:induction false} StepDone(d: Graph, m: set<NodeId>, truth: RoundMap, done: set<Id>, x: Id, base: nat,
                                    round: nat, rounds: RoundMap, flags: map<Id, bool>, t: Table, rounds': RoundMap,
                                    flags': map<Id, bool>, t': Table)
    requires View(d) && ValidRounds(d, m, truth) && Progress(d, truth, done, rounds, flags, t)
    requires x in d && x !in done && Anc(d, x) <= done && ParentsWithin(d, done)
    requires base == BaseRound(d, rounds, x) && WitnessesIn(t, base) <= d.Keys
    requires round == if |VisibleCreators(d, x, WitnessesIn(t, base)) * m| >= Threshold(|m|) then base + 1 else base
    requires rounds' == rounds[x := round]
    requires flags' == flags[x := !HasEntry(t, round, d[x].creator)]
    requires t' == if HasEntry(t, round, d[x].creator) then t else WithEntry(t, round, d[x].creator, x)
    ensures Progress(d, truth, done + {x}, rounds', flags', t')
  {
    Promotion(d, m, truth, done, rounds, t, x, base);
    ProgressStep(d, truth, done, rounds, flags, t, x, rounds', flags', t');
  }

  lemma {:induction false} Promotion(d: Graph, m: set<NodeId>, truth: RoundMap, done: set<Id>, rounds: RoundMap,
                                     t: Table, x: Id, base: nat)
    requires View(d) && ValidRounds(d, m, truth) && done <= d.Keys && RoundsDone(truth, done, rounds)
    requires TableDone(d, truth, done, t)
    requires x in d && x !in done && Anc(d, x) <= done
    requires WitnessesIn(t, base) <= d.Keys && base == BaseRound(d, rounds, x)
    ensures truth[x] == if |VisibleCreators(d, x, WitnessesIn(t, base)) * m| >= Threshold(|m|) then base + 1 else base
  {
    BaseIsTrue(d, truth, done, rounds, x);
    SeenSoFar(d, m, truth, done, t, x, base);
    assert ObeysRule(d, m, truth, x);
  }
}
