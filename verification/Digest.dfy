/** The finalized prefix behind the consistency digest: everything received at least two rounds below the newest
    received round (mdrj/node.py:2130-2148), and exactly when that prefix really is final. */
module Digest {
  import opened Prelude
  import opened Quorum
  import opened Dag
  import opened Rounds
  import opened Voting
  import opened FameSafety
  import opened Received
  import opened Layers

  const FINALITY_MARGIN: nat := 2

  /** `top` is the largest round in which anything has been received. */
  ghost predicate Newest(d: Graph, m: set<NodeId>, coin: (Id, nat) -> bool, top: nat)
    requires View(d)
  {
    && (exists x :: x in d && RoundReceived(d, m, coin, x) == Some(top))
    && forall x :: x in d && RoundReceived(d, m, coin, x).Some? ==> RoundReceived(d, m, coin, x).value <= top
  }

  /** Coins that agree wherever the view could have tossed them; the tosses of later rounds are still open. */
  ghost predicate SameTosses(d: Graph, m: set<NodeId>, coin: (Id, nat) -> bool, other: (Id, nat) -> bool)
    requires View(d)
  {
    forall w: Id, s: nat {:trigger other(w, s)} :: Reaches(d, m, s) ==> other(w, s) == coin(w, s)
  }

  /** No later view, whatever the coin says in rounds to come, changes what was received up to `cutoff`. */
  ghost predicate PrefixFinal(d: Graph, m: set<NodeId>, coin: (Id, nat) -> bool, cutoff: nat)
    requires View(d)
  {
    forall big: Graph, other: (Id, nat) -> bool {:trigger FinalPart(big, m, other, cutoff)} ::
      View(big) && Extends(d, big) && SameTosses(d, m, coin, other) ==>
      FinalPart(big, m, other, cutoff) == FinalPart(d, m, coin, cutoff)
  }

  // ---- What the fame columns say about a round ----

  predicate VotedFamous(f: FameTable, r: nat, w: Id) {
    r in f && w in f[r] && f[r][w].kind == ByVote && f[r][w].famous
  }

  predicate CoinDecided(f: FameTable, r: nat, w: Id) {
    r in f && w in f[r] && f[r][w].kind == ByCoin
  }

  /** The witnesses of round `r` that are famous by vote. */
  function Certain(t: Table, f: FameTable, r: nat): map<NodeId, Id> {
    if r in t then map c | c in t[r] && VotedFamous(f, r, t[r][c]) :: t[r][c] else map[]
  }

  /** And those together with the ones a coin decided, either way. */
  function Possible(t: Table, f: FameTable, r: nat): map<NodeId, Id> {
    if r in t then map c | c in t[r] && (VotedFamous(f, r, t[r][c]) || CoinDecided(f, r, t[r][c])) :: t[r][c] else map[]
  }

  /** The witnesses famous by vote alone suffice to receive `x` in round `r`. */
  ghost predicate Surely(d: Graph, m: set<NodeId>, coin: (Id, nat) -> bool, r: nat, x: Id)
    requires View(d)
  {
    |Onlookers(d, m, Certain(TableOf(d, m), FamesOf(d, m, coin), r), x)| >= Threshold(|m|)
  }

  /** They would with every coin coming up yes. */
  ghost predicate Possibly(d: Graph, m: set<NodeId>, coin: (Id, nat) -> bool, r: nat, x: Id)
    requires View(d)
  {
    |Onlookers(d, m, Possible(TableOf(d, m), FamesOf(d, m, coin), r), x)| >= Threshold(|m|)
  }

  /** No receipt up to `cutoff` hangs on a coin: what coins could bring in, votes bring in no later. */
  ghost predicate CoinFree(d: Graph, m: set<NodeId>, coin: (Id, nat) -> bool, cutoff: nat)
    requires View(d)
  {
    forall x: Id, r: nat {:trigger Possibly(d, m, coin, r, x)} :: r <= cutoff && Possibly(d, m, coin, r, x) ==>
      exists s: nat :: s <= r && Surely(d, m, coin, s, x)
  }

  // ---- The rounds up to the cutoff are decided ----

  /** Members hold witnesses in every round up to `top`. */
  ghost predicate VotersUpTo(d: Graph, m: set<NodeId>, top: nat)
    requires View(d)
  {
    forall s: nat {:trigger Voters(m, TableOf(d, m), s)} :: s <= top ==> Voters(m, TableOf(d, m), s) != {}
  }

  lemma ReceiptVoters(d: Graph, m: set<NodeId>, coin: (Id, nat) -> bool, x: Id, r: nat)
    requires View(d) && RoundReceived(d, m, coin, x) == Some(r)
    ensures Voters(m, TableOf(d, m), r) != {}
  {
    var t := TableOf(d, m);
    var crowd := Onlookers(d, m, Judges(t, FamesOf(d, m, coin), r), x);
    assert |crowd| >= Threshold(|m|);
    var c :| c in crowd;
    assert c in Voters(m, t, r);
  }

  lemma VoterReaches(d: Graph, m: set<NodeId>, r: nat)
    requires View(d) && Voters(m, TableOf(d, m), r) != {}
    ensures Reaches(d, m, r)
  {
    var t := TableOf(d, m);
    var c :| c in Voters(m, t, r);
    assert HasEntry(t, r, c);
    assert RoundsOf(d, m)[t[r][c]] >= r;
  }

  lemma NewestVoters(d: Graph, m: set<NodeId>, coin: (Id, nat) -> bool, top: nat)
    requires View(d) && Newest(d, m, coin, top)
    ensures m != {} && VotersUpTo(d, m, top) && Reaches(d, m, top)
  {
    var x :| x in d && RoundReceived(d, m, coin, x) == Some(top);
    ReceiptVoters(d, m, coin, x, top);
    VoterReaches(d, m, top);
    forall s: nat | s < top ensures Voters(m, TableOf(d, m), s) != {} { LowerVoters(d, m, top, s); }
  }

  lemma LowerVoters(d: Graph, m: set<NodeId>, top: nat, s: nat)
    requires View(d) && Reaches(d, m, top) && s < top
    ensures Voters(m, TableOf(d, m), s) != {}
  {
    assert Reaches(d, m, s + 1);
    QuorumOfWitnesses(d, m, s);
  }

  lemma VotersGrow(d: Graph, big: Graph, m: set<NodeId>, top: nat)
    requires View(d) && View(big) && Extends(d, big) && VotersUpTo(d, m, top)
    ensures VotersUpTo(big, m, top)
  {
    GrownViews(d, big, m);
    forall s: nat | s <= top ensures Voters(m, TableOf(big, m), s) != {} {
      var c :| c in Voters(m, TableOf(d, m), s);
      TableGrows(d, RoundsOf(d, m), TableOf(d, m), big, RoundsOf(big, m), TableOf(big, m), m, s, c);
      assert c in Voters(m, TableOf(big, m), s);
    }
  }

  lemma RoundDecided(d: Graph, m: set<NodeId>, coin: (Id, nat) -> bool, r: nat)
    requires View(d) && VotersUpTo(d, m, r + 2)
    ensures r in TableOf(d, m) && AllDecided(FamesOf(d, m, coin), r)
  {
    var t := TableOf(d, m);
    var f: FameTable := FamesOf(d, m, coin);
    var c :| c in Voters(m, t, r);
    assert t[r][c] in f[r];
    forall w | w in f[r] ensures f[r][w].decided {
      ListedWitness(d, m, coin, r, w);
      TwoVotesDecide(d, m, coin, w);
    }
  }

  // ---- The witnesses a later view consults lie between the two sets ----

  /** A view, a larger one, their coins, and a round that both have decided. */
  ghost predicate Later(d: Graph, big: Graph, m: set<NodeId>, r: nat) {
    View(d) && View(big) && Extends(d, big) && VotersUpTo(d, m, r + 2) && Reaches(d, m, r + 2)
  }

  ghost function Consulted(d: Graph, m: set<NodeId>, coin: (Id, nat) -> bool, r: nat): map<NodeId, Id>
    requires View(d) && r in TableOf(d, m)
  {
    Judges(TableOf(d, m), FamesOf(d, m, coin), r)
  }

  predicate Within(a: map<NodeId, Id>, b: map<NodeId, Id>) {
    forall c :: c in a ==> c in b && b[c] == a[c]
  }

  lemma VotesIgnoreCoins(d: Graph, m: set<NodeId>, coin: (Id, nat) -> bool, other: (Id, nat) -> bool, w: Id)
    requires View(d) && w in d
    ensures FameOf(d, m, coin, w).kind == FameOf(d, m, other, w).kind
    ensures FameOf(d, m, coin, w).kind == ByVote ==> FameOf(d, m, coin, w).famous == FameOf(d, m, other, w).famous
  {
  }

  lemma CertainKept(d: Graph, big: Graph, m: set<NodeId>, coin: (Id, nat) -> bool, other: (Id, nat) -> bool, r: nat,
                    c: NodeId)
    requires Later(d, big, m, r) && c in Certain(TableOf(d, m), FamesOf(d, m, coin), r)
    ensures HasEntry(TableOf(big, m), r, c) && TableOf(big, m)[r][c] == TableOf(d, m)[r][c]
    ensures FamousIn(FamesOf(big, m, other), r, TableOf(big, m)[r][c])
  {
    var t1, t2 := TableOf(d, m), TableOf(big, m);
    var w := t1[r][c];
    GrownViews(d, big, m);
    TableGrows(d, RoundsOf(d, m), t1, big, RoundsOf(big, m), t2, m, r, c);
    ListedWitness(d, m, coin, r, w);
    VotesIgnoreCoins(d, m, coin, other, w);
    FameSafe(d, big, m, other, w);
    assert w in FamesOf(big, m, other)[r];
    ListedWitness(big, m, other, r, w);
  }

  lemma OnlyPossible(d: Graph, big: Graph, m: set<NodeId>, coin: (Id, nat) -> bool, other: (Id, nat) -> bool, r: nat,
                     c: NodeId)
    requires Later(d, big, m, r) && HasEntry(TableOf(big, m), r, c)
    requires FamousIn(FamesOf(big, m, other), r, TableOf(big, m)[r][c])
    ensures c in Possible(TableOf(d, m), FamesOf(d, m, coin), r)
    ensures TableOf(d, m)[r][c] == TableOf(big, m)[r][c]
  {
    var t1, t2 := TableOf(d, m), TableOf(big, m);
    var w := t2[r][c];
    GrownViews(d, big, m);
    ListedWitness(big, m, other, r, w);
    if w !in d { LateWitnessLoses(d, big, m, other, w, r); }
    WitnessStable(d, big, m, RoundsOf(d, m), RoundsOf(big, m), w, r, c);
    TableWitness(d, m, RoundsOf(d, m), t1, w, r, c);
    assert w in FamesOf(d, m, coin)[r];
    ListedWitness(d, m, coin, r, w);
    FamousBefore(d, big, m, coin, other, w);
  }

  lemma FamousBefore(d: Graph, big: Graph, m: set<NodeId>, coin: (Id, nat) -> bool, other: (Id, nat) -> bool, w: Id)
    requires View(d) && View(big) && Extends(d, big) && w in d && FameOf(big, m, other, w).famous
    requires VotersUpTo(d, m, RoundsOf(d, m)[w] + 2)
    ensures FameOf(d, m, coin, w).kind != Pending
    ensures FameOf(d, m, coin, w).kind == ByVote ==> FameOf(d, m, coin, w).famous
  {
    TwoVotesDecide(d, m, coin, w);
    if FameOf(d, m, coin, w).kind == ByVote {
      VotesIgnoreCoins(d, m, coin, other, w);
      FameSafe(d, big, m, other, w);
    }
  }

  lemma ConsultedBetween(d: Graph, big: Graph, m: set<NodeId>, coin: (Id, nat) -> bool, other: (Id, nat) -> bool,
                         r: nat)
    requires Later(d, big, m, r)
    ensures r in TableOf(big, m)
    ensures Within(Certain(TableOf(d, m), FamesOf(d, m, coin), r), Consulted(big, m, other, r))
    ensures Within(Consulted(big, m, other, r), Possible(TableOf(d, m), FamesOf(d, m, coin), r))
  {
    VotersGrow(d, big, m, r + 2);
    RoundDecided(big, m, other, r);
    forall c | c in Certain(TableOf(d, m), FamesOf(d, m, coin), r)
      ensures c in Consulted(big, m, other, r) && Consulted(big, m, other, r)[c] == TableOf(d, m)[r][c]
    {
      CertainKept(d, big, m, coin, other, r, c);
    }
    forall c | c in Consulted(big, m, other, r)
      ensures c in Possible(TableOf(d, m), FamesOf(d, m, coin), r)
      ensures TableOf(d, m)[r][c] == Consulted(big, m, other, r)[c]
    {
      OnlyPossible(d, big, m, coin, other, r, c);
    }
  }

  lemma PossiblePresent(d: Graph, m: set<NodeId>, coin: (Id, nat) -> bool, r: nat, c: NodeId)
    requires View(d) && c in Possible(TableOf(d, m), FamesOf(d, m, coin), r)
    ensures Possible(TableOf(d, m), FamesOf(d, m, coin), r)[c] in d
  {
    assert HasEntry(TableOf(d, m), r, c);
  }

  /** More witnesses of `d`, more onlookers, whichever of the two views is asked. */
  lemma CrowdsWithin(d: Graph, big: Graph, m: set<NodeId>, a: map<NodeId, Id>, b: map<NodeId, Id>, x: Id)
    requires View(d) && View(big) && Extends(d, big) && Within(a, b) && forall c :: c in b ==> b[c] in d
    ensures |Onlookers(d, m, a, x)| <= |Onlookers(big, m, b, x)|
    ensures |Onlookers(big, m, a, x)| <= |Onlookers(d, m, b, x)|
  {
    OnlookersFinal(d, big, m, a, x);
    OnlookersFinal(d, big, m, b, x);
    SubsetCard(Onlookers(d, m, a, x), Onlookers(d, m, b, x));
  }

  /** What is certain happens in every later view; what happens in one was possible. */
  lemma ReceiptBetween(d: Graph, big: Graph, m: set<NodeId>, coin: (Id, nat) -> bool, other: (Id, nat) -> bool, r: nat,
                       x: Id)
    requires Later(d, big, m, r)
    ensures Surely(d, m, coin, r, x) ==> ReceivedAt(big, m, TableOf(big, m), FamesOf(big, m, other), r, x)
    ensures ReceivedAt(big, m, TableOf(big, m), FamesOf(big, m, other), r, x) ==> Possibly(d, m, coin, r, x)
  {
    var least, most := Certain(TableOf(d, m), FamesOf(d, m, coin), r), Possible(TableOf(d, m), FamesOf(d, m, coin), r);
    ConsultedBetween(d, big, m, coin, other, r);
    forall c | c in most ensures most[c] in d { PossiblePresent(d, m, coin, r, c); }
    CrowdsWithin(d, big, m, least, Consulted(big, m, other, r), x);
    CrowdsWithin(d, big, m, Consulted(big, m, other, r), most, x);
  }

  // ---- A coin-free prefix is final ----

  lemma NoLater(d: Graph, a: Graph, b: Graph, m: set<NodeId>, coin: (Id, nat) -> bool, coinA: (Id, nat) -> bool,
                coinB: (Id, nat) -> bool, cutoff: nat, x: Id)
    requires Later(d, a, m, cutoff) && Later(d, b, m, cutoff) && CoinFree(d, m, coin, cutoff)
    requires ReceivedBy(a, m, coinA, x, cutoff)
    ensures x in d && ReceivedBy(b, m, coinB, x, cutoff)
    ensures RoundReceived(b, m, coinB, x).value <= RoundReceived(a, m, coinA, x).value
  {
    var r := RoundReceived(a, m, coinA, x).value;
    assert ReceivedAt(a, m, TableOf(a, m), FamesOf(a, m, coinA), r, x);
    LaterDown(d, a, m, cutoff, r);
    ReceiptBetween(d, a, m, coin, coinA, r, x);
    PossibleSeen(d, m, coin, r, x);
    var s: nat :| s <= r && Surely(d, m, coin, s, x);
    LaterDown(d, b, m, cutoff, s);
    ReceiptBetween(d, b, m, coin, coinB, s, x);
    FirstIsLeast(b, m, TableOf(b, m), FamesOf(b, m, coinB), x, s);
  }

  lemma LaterDown(d: Graph, big: Graph, m: set<NodeId>, cutoff: nat, r: nat)
    requires Later(d, big, m, cutoff) && r <= cutoff
    ensures Later(d, big, m, r)
  {
    var x :| x in d && RoundsOf(d, m)[x] >= cutoff + 2;
  }

  lemma PossibleSeen(d: Graph, m: set<NodeId>, coin: (Id, nat) -> bool, r: nat, x: Id)
    requires View(d) && Possibly(d, m, coin, r, x)
    ensures x in d
  {
    var most := Possible(TableOf(d, m), FamesOf(d, m, coin), r);
    assert |Onlookers(d, m, most, x)| >= Threshold(|m|);
    var c :| c in Onlookers(d, m, most, x);
    PossiblePresent(d, m, coin, r, c);
    SeesPresent(d, most[c], x);
  }

  lemma SamePrefixes(d: Graph, a: Graph, b: Graph, m: set<NodeId>, coin: (Id, nat) -> bool, coinA: (Id, nat) -> bool,
                     coinB: (Id, nat) -> bool, cutoff: nat)
    requires Later(d, a, m, cutoff) && Later(d, b, m, cutoff) && CoinFree(d, m, coin, cutoff)
    ensures FinalPart(a, m, coinA, cutoff) == FinalPart(b, m, coinB, cutoff)
  {
    forall x
      ensures x in FinalPart(a, m, coinA, cutoff) <==> x in FinalPart(b, m, coinB, cutoff)
      ensures x in FinalPart(a, m, coinA, cutoff) ==>
        FinalPart(a, m, coinA, cutoff)[x] == FinalPart(b, m, coinB, cutoff)[x]
    {
      if ReceivedBy(a, m, coinA, x, cutoff) { NoLater(d, a, b, m, coin, coinA, coinB, cutoff, x); }
      if ReceivedBy(b, m, coinB, x, cutoff) { NoLater(d, b, a, m, coin, coinB, coinA, cutoff, x); }
    }
  }

  // ---- A final prefix is coin-free: a crowned view tosses every coin again ----

  /** Nobody outside the view can cast a ballot below its top round. */
  lemma SameVoters(d: Graph, big: Graph, m: set<NodeId>, s: nat, c: NodeId)
    requires View(d) && View(big) && Crowns(big, d, m) && Reaches(d, m, s + 1) && HasEntry(TableOf(big, m), s, c)
    ensures HasEntry(TableOf(d, m), s, c)
  {
    var rounds, u := RoundsOf(big, m), TableOf(big, m)[s][c];
    GrownViews(d, big, m);
    if u !in d {
      var x :| x in d && RoundsOf(d, m)[x] >= s + 1;
      RoundMonotone(big, m, rounds, u, x);
      assert false;
    }
    WitnessStable(d, big, m, RoundsOf(d, m), rounds, u, s, c);
    TableWitness(d, m, RoundsOf(d, m), TableOf(d, m), u, s, c);
  }

  ghost function BallotsOn(d: Graph, m: set<NodeId>, w: Id, r: nat): History
    requires View(d)
  {
    HistoryOf(d, m, TableOf(d, m), w, r)
  }

  lemma SameBallots(d: Graph, big: Graph, m: set<NodeId>, w: Id, r: nat, s: nat)
    requires View(d) && View(big) && Crowns(big, d, m) && w in d && s > r && Reaches(d, m, s + 1)
    ensures VotesAt(BallotsOn(big, m, w, r), s) == VotesAt(BallotsOn(d, m, w, r), s)
  {
    var h1, h2 := BallotsOn(d, m, w, r), BallotsOn(big, m, w, r);
    GrownViews(d, big, m);
    forall c | c in VotesAt(h1, s) ensures c in VotesAt(h2, s) && VotesAt(h2, s)[c] == VotesAt(h1, s)[c] {
      HistoryGrows(d, RoundsOf(d, m), TableOf(d, m), big, RoundsOf(big, m), TableOf(big, m), m, w, r, h1, h2, s, c);
    }
    forall c | c in VotesAt(h2, s) ensures c in VotesAt(h1, s) {
      BallotListed(big, m, TableOf(big, m), w, r, h2, s, c);
      SameVoters(d, big, m, s, c);
      BallotListed(d, m, TableOf(d, m), w, r, h1, s, c);
    }
  }

  ghost predicate Undecided(votes: RoundVotes, threshold: nat) {
    |Tally(votes, Yes)| < threshold && |Tally(votes, No)| < threshold
  }

  /** Round `s` carries no supermajority on `w` either way. */
  ghost predicate OpenAt(d: Graph, m: set<NodeId>, w: Id, r: nat, s: nat)
    requires View(d)
  {
    Undecided(VotesAt(BallotsOn(d, m, w, r), s), Threshold(|m|))
  }

  lemma OpenStep(d: Graph, m: set<NodeId>, w: Id, r: nat, s: nat)
    requires View(d) && s > r + 1 && OpenAt(d, m, w, r, s - 1)
    ensures OpenAt(d, m, w, r, s)
  {
    var t, h := TableOf(d, m), BallotsOn(d, m, w, r);
    NoneFollow(d, m, t, w, r, h, s, Yes);
    NoneFollow(d, m, t, w, r, h, s, No);
  }

  /** Once a round is undecided every later one is: its voters find no majority to follow. */
  lemma {:induction false} OpenFrom(d: Graph, m: set<NodeId>, w: Id, r: nat, k: nat, s: nat)
    requires View(d) && r < k <= s && OpenAt(d, m, w, r, k)
    ensures OpenAt(d, m, w, r, s)
    decreases s
  {
    if k < s {
      OpenFrom(d, m, w, r, k, s - 1);
      OpenStep(d, m, w, r, s);
    }
  }

  /** And no newcomer votes in the first round. */
  lemma StaysOpen(d: Graph, big: Graph, m: set<NodeId>, w: Id, r: nat, s: nat)
    requires View(d) && View(big) && Crowns(big, d, m) && w in d && Reaches(d, m, r + 2) && s > r
    requires OpenAt(d, m, w, r, r + 1)
    ensures OpenAt(big, m, w, r, s)
  {
    SameBallots(d, big, m, w, r, r + 1);
    OpenFrom(big, m, w, r, r + 1, s);
  }

  lemma CoinMeansOpen(d: Graph, m: set<NodeId>, coin: (Id, nat) -> bool, w: Id, k: nat)
    requires View(d) && w in d && FameOf(d, m, coin, w).kind == ByCoin
    ensures OpenAt(d, m, w, RoundsOf(d, m)[w], k)
  {
    var deciding := DecidingRounds(BallotsOn(d, m, w, RoundsOf(d, m)[w]), Threshold(|m|));
    assert deciding == {};
    assert k !in deciding;
  }

  lemma CreatorVotes(d: Graph, m: set<NodeId>, x: Id)
    requires View(d) && x in d && d[x].creator in m
    ensures Voters(m, TableOf(d, m), RoundsOf(d, m)[x]) != {}
  {
    var rounds, t := RoundsOf(d, m), TableOf(d, m);
    var v := WitnessBelow(d, rounds, x);
    TableWitness(d, m, rounds, t, v, rounds[x], d[x].creator);
    assert d[x].creator in Voters(m, t, rounds[x]);
  }

  lemma CrownAbove(d: Graph, big: Graph, m: set<NodeId>, x: Id)
    requires View(d) && View(big) && Extends(d, big) && Crown(big, d, m, x)
    ensures !Reaches(d, m, RoundsOf(big, m)[x])
  {
    GrownViews(d, big, m);
    forall y | y in d ensures RoundsOf(d, m)[y] < RoundsOf(big, m)[x] {
      assert RoundsOf(big, m)[y] < RoundsOf(big, m)[x];
    }
  }

  lemma NotBelow(d: Graph, m: set<NodeId>, w: Id, s: nat)
    requires View(d) && w in d && !Reaches(d, m, s)
    ensures RoundsOf(d, m)[w] < s
  {
  }

  lemma CrownVotes(d: Graph, big: Graph, m: set<NodeId>, w: Id, r: nat) returns (s: nat)
    requires View(d) && View(big) && Crowns(big, d, m) && w in d && RoundsOf(d, m)[w] == r
    ensures s in BallotsOn(big, m, w, r) && !Reaches(d, m, s)
  {
    var x :| Crown(big, d, m, x);
    s := RoundsOf(big, m)[x];
    CrownAbove(d, big, m, x);
    CreatorVotes(big, m, x);
    NotBelow(d, m, w, s);
    RoundRecorded(big, m, TableOf(big, m), w, r, BallotsOn(big, m, w, r), s);
  }

  lemma NothingDecides(d: Graph, big: Graph, m: set<NodeId>, coin: (Id, nat) -> bool, w: Id, r: nat)
    requires View(d) && View(big) && Crowns(big, d, m) && w in d && FameOf(d, m, coin, w).kind == ByCoin
    requires RoundsOf(d, m)[w] == r && Reaches(d, m, r + 2)
    ensures DecidingRounds(BallotsOn(big, m, w, r), Threshold(|m|)) == {}
  {
    var h := BallotsOn(big, m, w, r);
    CoinMeansOpen(d, m, coin, w, r + 1);
    forall k | k in h ensures !Decides(h[k], Threshold(|m|)) {
      StaysOpen(d, big, m, w, r, k);
      assert OpenAt(big, m, w, r, k);
    }
  }

  /** So in a crowned view its fame is tossed again, in a round the smaller view has not reached. */
  lemma TossedAgain(d: Graph, big: Graph, m: set<NodeId>, coin: (Id, nat) -> bool, other: (Id, nat) -> bool, w: Id)
      returns (last: nat)
    requires View(d) && View(big) && Crowns(big, d, m) && w in d && FameOf(d, m, coin, w).kind == ByCoin
    requires VotersUpTo(d, m, RoundsOf(d, m)[w] + 2) && Reaches(d, m, RoundsOf(d, m)[w] + 2)
    ensures !Reaches(d, m, last)
    ensures FameOf(big, m, other, w).kind == ByCoin && FameOf(big, m, other, w).famous == other(w, last)
  {
    var r := RoundsOf(d, m)[w];
    var h := BallotsOn(big, m, w, r);
    var s := CrownVotes(d, big, m, w, r);
    GrownViews(d, big, m);
    NothingDecides(d, big, m, coin, w, r);
    VotersGrow(d, big, m, r + 2);
    TwoVotesDecide(big, m, other, w);
    last := Max(h.Keys);
    NotReached(d, m, s, last);
  }

  lemma NotReached(d: Graph, m: set<NodeId>, s: nat, last: nat)
    requires View(d) && !Reaches(d, m, s) && s <= last
    ensures !Reaches(d, m, last)
  {
  }

  /** `coin` so far, `answer` from the next round on. */
  ghost function Forced(d: Graph, m: set<NodeId>, coin: (Id, nat) -> bool, answer: bool): (other: (Id, nat) -> bool)
    requires View(d)
    ensures SameTosses(d, m, coin, other)
    ensures forall w: Id, s: nat {:trigger other(w, s)} :: !Reaches(d, m, s) ==> other(w, s) == answer
  {
    (w: Id, s: nat) => if Reaches(d, m, s) then coin(w, s) else answer
  }

  lemma YesConsults(d: Graph, big: Graph, m: set<NodeId>, coin: (Id, nat) -> bool, r: nat, c: NodeId)
    requires Later(d, big, m, r) && Crowns(big, d, m) && c in Possible(TableOf(d, m), FamesOf(d, m, coin), r)
    ensures r in TableOf(big, m) && c in Consulted(big, m, Forced(d, m, coin, true), r)
    ensures Consulted(big, m, Forced(d, m, coin, true), r)[c] == TableOf(d, m)[r][c]
  {
    var w, yes := TableOf(d, m)[r][c], Forced(d, m, coin, true);
    ConsultedBetween(d, big, m, coin, yes, r);
    ListedWitness(d, m, coin, r, w);
    if CoinDecided(FamesOf(d, m, coin), r, w) {
      GrownViews(d, big, m);
      TableGrows(d, RoundsOf(d, m), TableOf(d, m), big, RoundsOf(big, m), TableOf(big, m), m, r, c);
      var last := TossedAgain(d, big, m, coin, yes, w);
      VotersGrow(d, big, m, r + 2);
      RoundDecided(big, m, yes, r);
      assert w in FamesOf(big, m, yes)[r];
      ListedWitness(big, m, yes, r, w);
    }
  }

  lemma NoConsults(d: Graph, big: Graph, m: set<NodeId>, coin: (Id, nat) -> bool, r: nat, c: NodeId)
    requires Later(d, big, m, r) && Crowns(big, d, m)
    requires r in TableOf(big, m) && c in Consulted(big, m, Forced(d, m, coin, false), r)
    ensures c in Certain(TableOf(d, m), FamesOf(d, m, coin), r)
    ensures Consulted(big, m, Forced(d, m, coin, false), r)[c] == TableOf(d, m)[r][c]
  {
    var no := Forced(d, m, coin, false);
    ConsultedBetween(d, big, m, coin, no, r);
    var w := TableOf(d, m)[r][c];
    ListedWitness(d, m, coin, r, w);
    if CoinDecided(FamesOf(d, m, coin), r, w) {
      var last := TossedAgain(d, big, m, coin, no, w);
      VotersGrow(d, big, m, r + 2);
      RoundDecided(big, m, no, r);
      ListedWitness(big, m, no, r, w);
    }
  }

  lemma YesReceives(d: Graph, big: Graph, m: set<NodeId>, coin: (Id, nat) -> bool, r: nat, x: Id)
    requires Later(d, big, m, r) && Crowns(big, d, m) && Possibly(d, m, coin, r, x)
    ensures ReceivedBy(big, m, Forced(d, m, coin, true), x, r)
  {
    var yes, most := Forced(d, m, coin, true), Possible(TableOf(d, m), FamesOf(d, m, coin), r);
    ConsultedBetween(d, big, m, coin, yes, r);
    forall c | c in most ensures c in Consulted(big, m, yes, r) && Consulted(big, m, yes, r)[c] == most[c] {
      YesConsults(d, big, m, coin, r, c);
    }
    forall c | c in Consulted(big, m, yes, r) ensures Consulted(big, m, yes, r)[c] in d {
      PossiblePresent(d, m, coin, r, c);
    }
    CrowdsWithin(d, big, m, most, Consulted(big, m, yes, r), x);
    FirstIsLeast(big, m, TableOf(big, m), FamesOf(big, m, yes), x, r);
  }

  lemma NoReceives(d: Graph, big: Graph, m: set<NodeId>, coin: (Id, nat) -> bool, r: nat, x: Id)
    requires Later(d, big, m, r) && Crowns(big, d, m)
    requires ReceivedAt(big, m, TableOf(big, m), FamesOf(big, m, Forced(d, m, coin, false)), r, x)
    ensures Surely(d, m, coin, r, x)
  {
    var no, least := Forced(d, m, coin, false), Certain(TableOf(d, m), FamesOf(d, m, coin), r);
    forall c | c in Consulted(big, m, no, r) ensures c in least && Consulted(big, m, no, r)[c] == least[c] {
      NoConsults(d, big, m, coin, r, c);
    }
    forall c | c in least ensures least[c] in d { PossiblePresent(d, m, coin, r, c); }
    CrowdsWithin(d, big, m, Consulted(big, m, no, r), least, x);
  }

  lemma FinalIsCoinFree(d: Graph, m: set<NodeId>, coin: (Id, nat) -> bool, cutoff: nat, x: Id, r: nat) returns (s: nat)
    requires View(d) && Newest(d, m, coin, cutoff + FINALITY_MARGIN) && PrefixFinal(d, m, coin, cutoff)
    requires r <= cutoff && Possibly(d, m, coin, r, x)
    ensures s <= r && Surely(d, m, coin, s, x)
  {
    NewestVoters(d, m, coin, cutoff + FINALITY_MARGIN);
    PossibleSeen(d, m, coin, r, x);
    var big := CrownExists(d, m);
    var yes, no := Forced(d, m, coin, true), Forced(d, m, coin, false);
    LaterDown(d, big, m, cutoff, r);
    YesReceives(d, big, m, coin, r, x);
    assert x in FinalPart(big, m, yes, cutoff);
    assert FinalPart(big, m, yes, cutoff) == FinalPart(big, m, no, cutoff);
    s := RoundReceived(big, m, no, x).value;
    assert s == FinalPart(big, m, no, cutoff)[x];
    LaterDown(d, big, m, cutoff, s);
    NoReceives(d, big, m, coin, s, x);
  }

  /** The digest's prefix is final exactly when no receipt in it hangs on a coin. */
  lemma PrefixFinalIff(d: Graph, m: set<NodeId>, coin: (Id, nat) -> bool, cutoff: nat)
    requires View(d) && Newest(d, m, coin, cutoff + FINALITY_MARGIN)
    ensures PrefixFinal(d, m, coin, cutoff) <==> CoinFree(d, m, coin, cutoff)
  {
    NewestVoters(d, m, coin, cutoff + FINALITY_MARGIN);
    if CoinFree(d, m, coin, cutoff) {
      forall big: Graph, other: (Id, nat) -> bool | View(big) && Extends(d, big)
        ensures FinalPart(big, m, other, cutoff) == FinalPart(d, m, coin, cutoff)
      {
        SamePrefixes(d, big, d, m, coin, other, coin, cutoff);
      }
    }
    if PrefixFinal(d, m, coin, cutoff) {
      forall x: Id, r: nat | r <= cutoff && Possibly(d, m, coin, r, x)
        ensures exists s: nat :: s <= r && Surely(d, m, coin, s, x)
      {
        var s := FinalIsCoinFree(d, m, coin, cutoff, x, r);
      }
    }
  }

  /** In particular it is final where every witness up to the cutoff is decided by vote. */
  lemma DigestFinal(d: Graph, m: set<NodeId>, coin: (Id, nat) -> bool, cutoff: nat)
    requires View(d) && Newest(d, m, coin, cutoff + FINALITY_MARGIN) && VotedUpTo(d, m, coin, cutoff)
    ensures PrefixFinal(d, m, coin, cutoff)
  {
    forall x: Id, r: nat | r <= cutoff && Possibly(d, m, coin, r, x) ensures Surely(d, m, coin, r, x) {
      VotesOnly(d, m, coin, cutoff, r);
    }
    PrefixFinalIff(d, m, coin, cutoff);
  }

  lemma VotesOnly(d: Graph, m: set<NodeId>, coin: (Id, nat) -> bool, cutoff: nat, r: nat)
    requires View(d) && VotedUpTo(d, m, coin, cutoff) && r <= cutoff
    ensures Possible(TableOf(d, m), FamesOf(d, m, coin), r) == Certain(TableOf(d, m), FamesOf(d, m, coin), r)
  {
    var t, f := TableOf(d, m), FamesOf(d, m, coin);
    forall c | c in Possible(t, f, r) ensures c in Certain(t, f, r) { ListedWitness(d, m, coin, r, t[r][c]); }
  }
}
