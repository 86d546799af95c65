/** When an event counts as received, and why that verdict is final (mdrj/consensus.py:261-287). */
module Received {
  import opened Prelude
  import opened Quorum
  import opened Dag
  import opened Rounds
  import opened Voting
  import opened FameSafety

  type FameTable = map<nat, map<Id, Fame>>

  predicate AllDecided(f: FameTable, r: nat) {
    r in f && f[r] != map[] && forall w :: w in f[r] ==> f[r][w].decided
  }

  predicate AnyDecided(f: FameTable, r: nat) {
    r in f && exists w :: w in f[r] && f[r][w].decided
  }

  predicate FamousIn(f: FameTable, r: nat, w: Id) {
    r in f && w in f[r] && f[r][w].decided && f[r][w].famous
  }

  /** The witnesses consulted for round `r`: famous ones once all are decided, none while only some are, else all. */
  function Judges(t: Table, f: FameTable, r: nat): map<NodeId, Id>
    requires r in t
  {
    if AllDecided(f, r) then map c | c in t[r] && FamousIn(f, r, t[r][c]) :: t[r][c]
    else if AnyDecided(f, r) then map[]
    else t[r]
  }

  ghost function Onlookers(d: Graph, m: set<NodeId>, judges: map<NodeId, Id>, x: Id): set<NodeId>
    requires Acyclic(d)
  {
    set c | c in judges && c in m && Sees(d, judges[c], x)
  }

  ghost predicate ReceivedAt(d: Graph, m: set<NodeId>, t: Table, f: FameTable, r: nat, x: Id)
    requires Acyclic(d)
  {
    r in t && |Onlookers(d, m, Judges(t, f, r), x)| >= Threshold(|m|)
  }

  ghost function FirstReceived(d: Graph, m: set<NodeId>, t: Table, f: FameTable, x: Id): Option<nat>
    requires Acyclic(d)
  {
    var at := ReceivedRounds(d, m, t, f, x);
    if at == {} then None else Some(Min(at))
  }

  ghost function ReceivedRounds(d: Graph, m: set<NodeId>, t: Table, f: FameTable, x: Id): set<nat>
    requires Acyclic(d)
  {
    set r | r in t && ReceivedAt(d, m, t, f, r, x)
  }

  // ---- The receipt rule, round by round ----

  /** Creators in `m` of the listed round-`r` witnesses that are, or have in their past, event `x`. */
  ghost function SeenBy(d: Graph, m: set<NodeId>, t: Table, r: nat, x: Id): set<NodeId>
    requires Acyclic(d)
  {
    if r in t then set c | c in t[r] && c in m && (t[r][c] == x || x in Anc(d, t[r][c])) else {}
  }

  /** Every listed witness of round `r` is decided, and famous ones of a supermajority of members see `x`. */
  ghost predicate SeenByFamous(d: Graph, m: set<NodeId>, t: Table, f: FameTable, r: nat, x: Id)
    requires Acyclic(d) && SameRounds(t, f)
  {
    && r in t && (forall c :: c in t[r] ==> f[r][t[r][c]].decided)
    && |set c | c in SeenBy(d, m, t, r, x) && f[r][t[r][c]].famous| >= Threshold(|m|)
  }

  /** No listed witness of round `r` is decided, and those of a supermajority of members see `x`. */
  ghost predicate SeenUndecided(d: Graph, m: set<NodeId>, t: Table, f: FameTable, r: nat, x: Id)
    requires Acyclic(d) && SameRounds(t, f)
  {
    && r in t && (forall c :: c in t[r] ==> !f[r][t[r][c]].decided)
    && |SeenBy(d, m, t, r, x)| >= Threshold(|m|)
  }

  /** A fame record for every listed witness. */
  predicate SameRounds(t: Table, f: FameTable) {
    f.Keys == t.Keys && forall r :: r in t ==> f[r].Keys == t[r].Values
  }

  lemma ReceiptRule(d: Graph, m: set<NodeId>, t: Table, f: FameTable, r: nat, x: Id)
    requires Acyclic(d) && SameRounds(t, f)
    ensures ReceivedAt(d, m, t, f, r, x) <==> SeenByFamous(d, m, t, f, r, x) || SeenUndecided(d, m, t, f, r, x)
  {
    if r in t {
      assert forall c :: c in t[r] ==> t[r][c] in f[r];
      var crowd := Onlookers(d, m, Judges(t, f, r), x);
      if AllDecided(f, r) {
        assert crowd == set c | c in SeenBy(d, m, t, r, x) && f[r][t[r][c]].famous;
        if c :| c in SeenBy(d, m, t, r, x) { assert f[r][t[r][c]].decided; }
      } else if AnyDecided(f, r) {
        assert crowd == {};
        MixedRound(t, f, r);
      } else {
        assert crowd == SeenBy(d, m, t, r, x);
        if f[r] == map[] { assert crowd == {}; }
      }
    }
  }

  lemma MixedRound(t: Table, f: FameTable, r: nat)
    requires SameRounds(t, f) && r in t && AnyDecided(f, r) && !AllDecided(f, r)
    ensures exists c :: c in t[r] && f[r][t[r][c]].decided
    ensures exists c :: c in t[r] && !f[r][t[r][c]].decided
  {
    var v :| v in f[r] && f[r][v].decided;
    var w :| w in f[r] && !f[r][w].decided;
    var a :| a in t[r] && t[r][a] == v;
    var b :| b in t[r] && t[r][b] == w;
  }

  /** The scan stops at the first round that meets the rule, and finds nothing if none does. */
  ghost predicate ScannedBy(d: Graph, m: set<NodeId>, t: Table, f: FameTable, x: Id, received: Option<nat>)
    requires Acyclic(d) && SameRounds(t, f)
  {
    match received
    case Some(r) =>
      && (SeenByFamous(d, m, t, f, r, x) || SeenUndecided(d, m, t, f, r, x))
      && forall s: nat :: s < r ==> !SeenByFamous(d, m, t, f, s, x) && !SeenUndecided(d, m, t, f, s, x)
    case None => forall s: nat :: !SeenByFamous(d, m, t, f, s, x) && !SeenUndecided(d, m, t, f, s, x)
  }

  lemma ReceiptScanned(d: Graph, m: set<NodeId>, t: Table, f: FameTable, x: Id)
    requires Acyclic(d) && SameRounds(t, f)
    ensures ScannedBy(d, m, t, f, x, FirstReceived(d, m, t, f, x))
  {
    var received := FirstReceived(d, m, t, f, x);
    forall s: nat | received.None? || s <= received.value
      ensures SeenByFamous(d, m, t, f, s, x) || SeenUndecided(d, m, t, f, s, x) <==> received == Some(s)
    {
      ReceiptRule(d, m, t, f, s, x);
      if ReceivedAt(d, m, t, f, s, x) { FirstIsLeast(d, m, t, f, x, s); }
    }
  }

  lemma FirstIsLeast(d: Graph, m: set<NodeId>, t: Table, f: FameTable, x: Id, r: nat)
    requires Acyclic(d) && ReceivedAt(d, m, t, f, r, x)
    ensures FirstReceived(d, m, t, f, x).Some? && FirstReceived(d, m, t, f, x).value <= r
  {
    assert r in ReceivedRounds(d, m, t, f, x);
  }

  // ---- The verdicts of a view ----

  ghost predicate IsFameTable(d: Graph, m: set<NodeId>, coin: (Id, nat) -> bool, t: Table, f: FameTable)
    requires View(d)
  {
    && f.Keys == t.Keys
    && (forall r {:trigger f[r]} :: r in f ==> f[r].Keys == t[r].Values)
    && (forall r, w {:trigger IsFame(d, m, coin, w, f[r][w])} :: r in f && w in f[r] ==> IsFame(d, m, coin, w, f[r][w]))
  }

  ghost predicate IsFame(d: Graph, m: set<NodeId>, coin: (Id, nat) -> bool, w: Id, fame: Fame)
    requires View(d)
  {
    w in d && fame == FameOf(d, m, coin, w)
  }

  ghost function FamesOf(d: Graph, m: set<NodeId>, coin: (Id, nat) -> bool): (f: FameTable)
    requires View(d)
    ensures IsFameTable(d, m, coin, TableOf(d, m), f)
  {
    FamesExist(d, m, coin, TableOf(d, m));
    var f :| IsFameTable(d, m, coin, TableOf(d, m), f);
    f
  }

  ghost function FamesAt(d: Graph, m: set<NodeId>, coin: (Id, nat) -> bool, witnesses: set<Id>): (fames: map<Id, Fame>)
    requires View(d) && witnesses <= d.Keys
    ensures fames.Keys == witnesses
    ensures forall w {:trigger IsFame(d, m, coin, w, fames[w])} :: w in fames ==> IsFame(d, m, coin, w, fames[w])
  {
    map w | w in witnesses :: FameOf(d, m, coin, w)
  }

  lemma FamesExist(d: Graph, m: set<NodeId>, coin: (Id, nat) -> bool, t: Table)
    requires View(d) && IsTable(d, RoundsOf(d, m), t)
    ensures exists f :: IsFameTable(d, m, coin, t, f)
  {
    EntriesPresent(d, RoundsOf(d, m), t);
    FamesListed(d, m, coin, t);
  }

  lemma FamesListed(d: Graph, m: set<NodeId>, coin: (Id, nat) -> bool, t: Table)
    requires View(d) && forall r :: r in t ==> t[r].Values <= d.Keys
    ensures exists f :: IsFameTable(d, m, coin, t, f)
  {
    var f: FameTable := map r | r in t :: FamesAt(d, m, coin, t[r].Values);
    forall r, w | r in f && w in f[r] ensures IsFame(d, m, coin, w, f[r][w]) {
      assert f[r] == FamesAt(d, m, coin, t[r].Values);
    }
    assert IsFameTable(d, m, coin, t, f);
  }

  lemma EntriesPresent(d: Graph, rounds: RoundMap, t: Table)
    requires Acyclic(d) && IsTable(d, rounds, t)
    ensures forall r, w :: r in t && w in t[r].Values ==> w in d
  {
    forall r, w | r in t && w in t[r].Values ensures w in d {
      var c :| c in t[r] && t[r][c] == w;
      assert HasEntry(t, r, c);
    }
  }

  /** The round in which view `d` considers `x` received, if any. */
  ghost function RoundReceived(d: Graph, m: set<NodeId>, coin: (Id, nat) -> bool, x: Id): Option<nat>
    requires View(d)
  {
    FirstReceived(d, m, TableOf(d, m), FamesOf(d, m, coin), x)
  }

  ghost predicate ReceivedBy(d: Graph, m: set<NodeId>, coin: (Id, nat) -> bool, x: Id, r0: nat)
    requires View(d)
  {
    RoundReceived(d, m, coin, x).Some? && RoundReceived(d, m, coin, x).value <= r0
  }

  // ---- Causal cut ----

  lemma OnlookersMonotone(d: Graph, m: set<NodeId>, judges: map<NodeId, Id>, a: Id, b: Id)
    requires Acyclic(d) && Sees(d, b, a)
    ensures |Onlookers(d, m, judges, b)| <= |Onlookers(d, m, judges, a)|
  {
    forall c | c in Onlookers(d, m, judges, b) ensures c in Onlookers(d, m, judges, a) {
      SeesTransitive(d, judges[c], b, a);
    }
    SubsetCard(Onlookers(d, m, judges, b), Onlookers(d, m, judges, a));
  }

  /** In any store, whatever ancestors it lacks, a present ancestor is received no later than its descendant. */
  lemma CausalCut(d: Graph, m: set<NodeId>, t: Table, f: FameTable, a: Id, b: Id)
    requires Acyclic(d) && Sees(d, b, a) && FirstReceived(d, m, t, f, b).Some?
    ensures FirstReceived(d, m, t, f, a).Some?
    ensures FirstReceived(d, m, t, f, a).value <= FirstReceived(d, m, t, f, b).value
  {
    var r := FirstReceived(d, m, t, f, b).value;
    OnlookersMonotone(d, m, Judges(t, f, r), a, b);
    FirstIsLeast(d, m, t, f, a, r);
  }

  /** And no event is received in a round below its own. */
  lemma ReceivedNotBeforeRound(d: Graph, m: set<NodeId>, rounds: RoundMap, t: Table, f: FameTable, x: Id)
    requires Acyclic(d) && rounds.Keys == d.Keys && Climbing(d, d.Keys, rounds) && EntriesMatch(t, rounds)
    requires x in d && FirstReceived(d, m, t, f, x).Some?
    ensures rounds[x] <= FirstReceived(d, m, t, f, x).value
  {
    var r := FirstReceived(d, m, t, f, x).value;
    var crowd := Onlookers(d, m, Judges(t, f, r), x);
    assert crowd != {};
    var c :| c in crowd;
    assert HasEntry(t, r, c);
    ClimbingAncestry(d, rounds, t[r][c], x);
  }

  // ---- Finality ----

  /** Every witness up to round `r0` has been decided by vote. */
  ghost predicate VotedUpTo(d: Graph, m: set<NodeId>, coin: (Id, nat) -> bool, r0: nat)
    requires View(d)
  {
    forall w {:trigger FameOf(d, m, coin, w)} ::
      w in d && IsWitness(d, RoundsOf(d, m), w) && RoundsOf(d, m)[w] <= r0 ==> FameOf(d, m, coin, w).kind == ByVote
  }

  /** They have, and the view has reached round `r0 + 2`. */
  ghost predicate Settled(d: Graph, m: set<NodeId>, coin: (Id, nat) -> bool, r0: nat)
    requires View(d)
  {
    Reaches(d, m, r0 + 2) && VotedUpTo(d, m, coin, r0)
  }

  /** The events received in rounds up to `r0`, with those rounds. */
  ghost function FinalPart(d: Graph, m: set<NodeId>, coin: (Id, nat) -> bool, r0: nat): map<Id, nat>
    requires View(d)
  {
    map x | x in d && ReceivedBy(d, m, coin, x, r0) :: RoundReceived(d, m, coin, x).value
  }

  /** In a settled view every later view settles the same witnesses the same way; newcomers are not famous. */
  lemma SettledWitness(small: Graph, big: Graph, m: set<NodeId>, coin: (Id, nat) -> bool, r0: nat, w: Id)
    requires View(small) && View(big) && Extends(small, big) && Settled(small, m, coin, r0)
    requires w in big && IsWitness(big, RoundsOf(big, m), w) && RoundsOf(big, m)[w] <= r0
    ensures FameOf(big, m, coin, w).decided
    ensures w in small ==>
      FameOf(small, m, coin, w).decided && FameOf(small, m, coin, w).famous == FameOf(big, m, coin, w).famous
    ensures w !in small ==> !FameOf(big, m, coin, w).famous
  {
    var r := RoundsOf(big, m)[w];
    if w in small {
      GrownViews(small, big, m);
      WitnessStable(small, big, m, RoundsOf(small, m), RoundsOf(big, m), w, r, big[w].creator);
      assert FameOf(small, m, coin, w).kind == ByVote;
      FameSafe(small, big, m, coin, w);
    } else {
      LateWitnessLoses(small, big, m, coin, w, r);
    }
  }

  lemma RoundListed(d: Graph, m: set<NodeId>, high: nat, r: nat)
    requires View(d) && Reaches(d, m, high) && r <= high
    ensures r in TableOf(d, m)
  {
    var rounds := RoundsOf(d, m);
    var x :| x in d && rounds[x] >= high;
    var y := LowerRounds(d, m, rounds, x, r);
    assert Listed(d, rounds, TableOf(d, m), y);
  }

  lemma ListedWitness(d: Graph, m: set<NodeId>, coin: (Id, nat) -> bool, r: nat, w: Id)
    requires View(d) && r in FamesOf(d, m, coin) && w in FamesOf(d, m, coin)[r]
    ensures w in d && FamesOf(d, m, coin)[r][w] == FameOf(d, m, coin, w)
    ensures WitnessOf(d, RoundsOf(d, m), w, r, d[w].creator)
  {
    var t := TableOf(d, m);
    var c :| c in t[r] && t[r][c] == w;
    assert HasEntry(t, r, c);
    assert IsFame(d, m, coin, w, FamesOf(d, m, coin)[r][w]);
  }

  lemma AllSettled(small: Graph, big: Graph, m: set<NodeId>, coin: (Id, nat) -> bool, r0: nat, r: nat)
    requires View(small) && View(big) && Extends(small, big) && Settled(small, m, coin, r0) && r <= r0
    ensures r in TableOf(big, m) && AllDecided(FamesOf(big, m, coin), r)
  {
    GrownViews(small, big, m);
    RoundListed(small, m, r0 + 2, r);
    var t1, t2 := TableOf(small, m), TableOf(big, m);
    var c :| c in t1[r];
    assert HasEntry(t1, r, c);
    TableGrows(small, RoundsOf(small, m), t1, big, RoundsOf(big, m), t2, m, r, c);
    var f: FameTable := FamesOf(big, m, coin);
    assert t2[r][c] in f[r];
    forall w | w in f[r] ensures f[r][w].decided {
      ListedWitness(big, m, coin, r, w);
      SettledWitness(small, big, m, coin, r0, w);
    }
  }

  lemma JudgeKept(small: Graph, big: Graph, m: set<NodeId>, coin: (Id, nat) -> bool, r0: nat, r: nat, c: NodeId)
    requires View(small) && View(big) && Extends(small, big) && Settled(small, m, coin, r0) && r <= r0
    requires r in TableOf(small, m) && r in TableOf(big, m)
    requires HasEntry(TableOf(small, m), r, c) && FamousIn(FamesOf(small, m, coin), r, TableOf(small, m)[r][c])
    ensures HasEntry(TableOf(big, m), r, c) && TableOf(big, m)[r][c] == TableOf(small, m)[r][c]
    ensures FamousIn(FamesOf(big, m, coin), r, TableOf(big, m)[r][c])
  {
    GrownViews(small, big, m);
    var t1, t2 := TableOf(small, m), TableOf(big, m);
    var w := t1[r][c];
    TableGrows(small, RoundsOf(small, m), t1, big, RoundsOf(big, m), t2, m, r, c);
    ListedWitness(small, m, coin, r, w);
    assert w in FamesOf(big, m, coin)[r];
    ListedWitness(big, m, coin, r, w);
    SettledWitness(small, big, m, coin, r0, w);
  }

  lemma JudgeOld(small: Graph, big: Graph, m: set<NodeId>, coin: (Id, nat) -> bool, r0: nat, r: nat, c: NodeId)
    requires View(small) && View(big) && Extends(small, big) && Settled(small, m, coin, r0) && r <= r0
    requires r in TableOf(small, m) && r in TableOf(big, m)
    requires HasEntry(TableOf(big, m), r, c) && FamousIn(FamesOf(big, m, coin), r, TableOf(big, m)[r][c])
    ensures HasEntry(TableOf(small, m), r, c) && TableOf(small, m)[r][c] == TableOf(big, m)[r][c]
    ensures FamousIn(FamesOf(small, m, coin), r, TableOf(small, m)[r][c])
  {
    GrownViews(small, big, m);
    var t1, t2 := TableOf(small, m), TableOf(big, m);
    var w := t2[r][c];
    ListedWitness(big, m, coin, r, w);
    SettledWitness(small, big, m, coin, r0, w);
    WitnessStable(small, big, m, RoundsOf(small, m), RoundsOf(big, m), w, r, c);
    TableWitness(small, m, RoundsOf(small, m), t1, w, r, c);
    assert w in FamesOf(small, m, coin)[r];
    ListedWitness(small, m, coin, r, w);
  }

  lemma JudgeFinal(small: Graph, big: Graph, m: set<NodeId>, coin: (Id, nat) -> bool, r0: nat, r: nat, c: NodeId,
                   j1: map<NodeId, Id>, j2: map<NodeId, Id>)
    requires View(small) && View(big) && Extends(small, big) && Settled(small, m, coin, r0) && r <= r0
    requires r in TableOf(small, m) && j1 == Judges(TableOf(small, m), FamesOf(small, m, coin), r)
    requires AllDecided(FamesOf(small, m, coin), r)
    requires r in TableOf(big, m) && j2 == Judges(TableOf(big, m), FamesOf(big, m, coin), r)
    requires AllDecided(FamesOf(big, m, coin), r)
    ensures c in j1 <==> c in j2
    ensures c in j1 ==> j1[c] == j2[c] && j1[c] in small
  {
    var t1, t2 := TableOf(small, m), TableOf(big, m);
    if c in j1 {
      JudgeKept(small, big, m, coin, r0, r, c);
      ListedWitness(small, m, coin, r, t1[r][c]);
    } else if c in j2 {
      JudgeOld(small, big, m, coin, r0, r, c);
    }
  }

  /** The witnesses consulted for a settled round never change again. */
  lemma JudgesFinal(small: Graph, big: Graph, m: set<NodeId>, coin: (Id, nat) -> bool, r0: nat, r: nat)
      returns (judges: map<NodeId, Id>)
    requires View(small) && View(big) && Extends(small, big) && Settled(small, m, coin, r0) && r <= r0
    ensures r in TableOf(small, m) && r in TableOf(big, m)
    ensures judges == Judges(TableOf(small, m), FamesOf(small, m, coin), r)
    ensures judges == Judges(TableOf(big, m), FamesOf(big, m, coin), r)
    ensures forall c :: c in judges ==> judges[c] in small
  {
    AllSettled(small, small, m, coin, r0, r);
    AllSettled(small, big, m, coin, r0, r);
    judges := Judges(TableOf(small, m), FamesOf(small, m, coin), r);
    var j2 := Judges(TableOf(big, m), FamesOf(big, m, coin), r);
    SameJudges(small, big, m, coin, r0, r, judges, j2);
  }

  lemma SameJudges(small: Graph, big: Graph, m: set<NodeId>, coin: (Id, nat) -> bool, r0: nat, r: nat,
                   j1: map<NodeId, Id>, j2: map<NodeId, Id>)
    requires View(small) && View(big) && Extends(small, big) && Settled(small, m, coin, r0) && r <= r0
    requires r in TableOf(small, m) && AllDecided(FamesOf(small, m, coin), r)
    requires j1 == Judges(TableOf(small, m), FamesOf(small, m, coin), r)
    requires r in TableOf(big, m) && AllDecided(FamesOf(big, m, coin), r)
    requires j2 == Judges(TableOf(big, m), FamesOf(big, m, coin), r)
    ensures j1 == j2 && forall c :: c in j1 ==> j1[c] in small
  {
    forall c
      ensures c in j1 <==> c in j2
      ensures c in j1 ==> j1[c] == j2[c] && j1[c] in small
    {
      JudgeFinal(small, big, m, coin, r0, r, c, j1, j2);
    }
  }

  lemma OnlookersFinal(small: Graph, big: Graph, m: set<NodeId>, judges: map<NodeId, Id>, x: Id)
    requires View(small) && View(big) && Extends(small, big)
    requires forall c :: c in judges ==> judges[c] in small
    ensures Onlookers(small, m, judges, x) == Onlookers(big, m, judges, x)
    ensures x !in small ==> Onlookers(big, m, judges, x) == {}
  {
    forall c | c in judges
      ensures Sees(small, judges[c], x) == Sees(big, judges[c], x)
      ensures x !in small ==> !Sees(big, judges[c], x)
    {
      SightGrows(small, big, judges[c], x);
      AncPresent(small, judges[c]);
    }
  }

  lemma ReceiptFinal(small: Graph, big: Graph, m: set<NodeId>, coin: (Id, nat) -> bool, r0: nat, r: nat, x: Id)
    requires View(small) && View(big) && Extends(small, big) && Settled(small, m, coin, r0) && r <= r0
    ensures ReceivedAt(small, m, TableOf(small, m), FamesOf(small, m, coin), r, x)
       <==> ReceivedAt(big, m, TableOf(big, m), FamesOf(big, m, coin), r, x)
    ensures ReceivedAt(big, m, TableOf(big, m), FamesOf(big, m, coin), r, x) ==> x in small
  {
    var judges := JudgesFinal(small, big, m, coin, r0, r);
    OnlookersFinal(small, big, m, judges, x);
  }

  /** Two scans that agree on every round up to `r0` agree on whether, and in which of them, an event is received. */
  lemma SameScan(d1: Graph, d2: Graph, m: set<NodeId>, t1: Table, f1: FameTable, t2: Table, f2: FameTable, x: Id,
                 r0: nat)
    requires Acyclic(d1) && Acyclic(d2)
    requires forall r: nat {:trigger ReceivedAt(d1, m, t1, f1, r, x)} :: r <= r0 ==>
      ReceivedAt(d1, m, t1, f1, r, x) == ReceivedAt(d2, m, t2, f2, r, x)
    requires FirstReceived(d1, m, t1, f1, x).Some? && FirstReceived(d1, m, t1, f1, x).value <= r0
    ensures FirstReceived(d2, m, t2, f2, x) == FirstReceived(d1, m, t1, f1, x)
  {
    var a := FirstReceived(d1, m, t1, f1, x).value;
    FirstIsLeast(d2, m, t2, f2, x, a);
    var b := FirstReceived(d2, m, t2, f2, x).value;
    assert ReceivedAt(d1, m, t1, f1, b, x);
    FirstIsLeast(d1, m, t1, f1, x, b);
  }

  lemma FinalScan(small: Graph, big: Graph, m: set<NodeId>, coin: (Id, nat) -> bool, r0: nat, x: Id)
    requires View(small) && View(big) && Extends(small, big) && Settled(small, m, coin, r0)
    ensures var a, b := RoundReceived(small, m, coin, x), RoundReceived(big, m, coin, x);
      a == b || ((a.None? || a.value > r0) && (b.None? || b.value > r0))
  {
    var t1, t2 := TableOf(small, m), TableOf(big, m);
    var f1, f2 := FamesOf(small, m, coin), FamesOf(big, m, coin);
    forall r: nat | r <= r0 ensures ReceivedAt(small, m, t1, f1, r, x) == ReceivedAt(big, m, t2, f2, r, x) {
      ReceiptFinal(small, big, m, coin, r0, r, x);
    }
    SameScans(small, big, m, t1, f1, t2, f2, x, r0);
  }

  lemma FinalPresent(small: Graph, big: Graph, m: set<NodeId>, coin: (Id, nat) -> bool, r0: nat, x: Id)
    requires View(small) && View(big) && Extends(small, big) && Settled(small, m, coin, r0)
    requires ReceivedBy(big, m, coin, x, r0)
    ensures x in small
  {
    ReceiptFinal(small, big, m, coin, r0, RoundReceived(big, m, coin, x).value, x);
  }

  lemma FinalEvent(small: Graph, big: Graph, m: set<NodeId>, coin: (Id, nat) -> bool, r0: nat, x: Id)
    requires View(small) && View(big) && Extends(small, big) && Settled(small, m, coin, r0)
    ensures ReceivedBy(small, m, coin, x, r0) <==> ReceivedBy(big, m, coin, x, r0)
    ensures ReceivedBy(big, m, coin, x, r0) ==>
      x in small && RoundReceived(small, m, coin, x) == RoundReceived(big, m, coin, x)
  {
    FinalScan(small, big, m, coin, r0, x);
    if ReceivedBy(big, m, coin, x, r0) { FinalPresent(small, big, m, coin, r0, x); }
  }

  lemma SameScans(d1: Graph, d2: Graph, m: set<NodeId>, t1: Table, f1: FameTable, t2: Table, f2: FameTable, x: Id,
                  r0: nat)
    requires Acyclic(d1) && Acyclic(d2)
    requires forall r: nat {:trigger ReceivedAt(d1, m, t1, f1, r, x)} :: r <= r0 ==>
      ReceivedAt(d1, m, t1, f1, r, x) == ReceivedAt(d2, m, t2, f2, r, x)
    ensures var a, b := FirstReceived(d1, m, t1, f1, x), FirstReceived(d2, m, t2, f2, x);
      a == b || ((a.None? || a.value > r0) && (b.None? || b.value > r0))
  {
    var a, b := FirstReceived(d1, m, t1, f1, x), FirstReceived(d2, m, t2, f2, x);
    if a.Some? && a.value <= r0 {
      SameScan(d1, d2, m, t1, f1, t2, f2, x, r0);
    } else if b.Some? && b.value <= r0 {
      forall r: nat | r <= r0 ensures ReceivedAt(d2, m, t2, f2, r, x) == ReceivedAt(d1, m, t1, f1, r, x) {
        assert r <= r0 ==> ReceivedAt(d1, m, t1, f1, r, x) == ReceivedAt(d2, m, t2, f2, r, x);
      }
      SameScan(d2, d1, m, t2, f2, t1, f1, x, r0);
    }
  }

  /** Finality: once a view is settled at `r0`, every larger view receives exactly the same events up to `r0`, in the
      same rounds. */
  lemma Finality(small: Graph, big: Graph, m: set<NodeId>, coin: (Id, nat) -> bool, r0: nat)
    requires View(big) && View(small) && Extends(small, big) && Settled(small, m, coin, r0)
    ensures FinalPart(small, m, coin, r0) == FinalPart(big, m, coin, r0)
  {
    FinalKept(small, big, m, coin, r0);
    FinalOnlyOld(small, big, m, coin, r0);
  }

  lemma FinalKept(small: Graph, big: Graph, m: set<NodeId>, coin: (Id, nat) -> bool, r0: nat)
    requires View(big) && View(small) && Extends(small, big) && Settled(small, m, coin, r0)
    ensures FinalPart(small, m, coin, r0).Keys <= FinalPart(big, m, coin, r0).Keys
  {
    forall x | x in FinalPart(small, m, coin, r0) ensures x in FinalPart(big, m, coin, r0) {
      FinalEvent(small, big, m, coin, r0, x);
    }
  }

  lemma FinalOnlyOld(small: Graph, big: Graph, m: set<NodeId>, coin: (Id, nat) -> bool, r0: nat)
    requires View(big) && View(small) && Extends(small, big) && Settled(small, m, coin, r0)
    ensures forall x :: x in FinalPart(big, m, coin, r0) ==>
      x in FinalPart(small, m, coin, r0) && FinalPart(small, m, coin, r0)[x] == FinalPart(big, m, coin, r0)[x]
  {
    forall x | x in FinalPart(big, m, coin, r0)
      ensures x in FinalPart(small, m, coin, r0) && FinalPart(small, m, coin, r0)[x] == FinalPart(big, m, coin, r0)[x]
    {
      FinalEvent(small, big, m, coin, r0, x);
    }
  }

  /** Agreement: two settled views of one history receive the same events up to `r0`, in the same rounds. */
  lemma {:induction false} Agreement(d1: Graph, d2: Graph, all: Graph, m: set<NodeId>, coin: (Id, nat) -> bool, r0: nat)
    requires View(all) && Extends(d1, all) && Extends(d2, all)
    requires View(d1) && View(d2) && Settled(d1, m, coin, r0) && Settled(d2, m, coin, r0)
    ensures FinalPart(d1, m, coin, r0) == FinalPart(d2, m, coin, r0)
  {
    Finality(d1, all, m, coin, r0);
    Finality(d2, all, m, coin, r0);
  }
}
