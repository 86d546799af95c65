/** A history in which the margin of two rounds is not enough: a coin decision below the digest's cutoff flips. */
module MarginExample {
  import opened Prelude
  import opened Quorum
  import opened Dag
  import opened Rounds
  import opened Voting
  import opened FameSafety
  import opened Received
  import opened Digest

  // Four members 0 to 3. Events 0 to 3 are their genesis events; every later one has its creator's latest event and one
  // other as parents. 5 to 8 open round 1 (8 by member 3), 10 to 12 round 2, 13 to 15 round 3, and 16 round 4. Of the
  // three round-2 witnesses 11 and 12 see 8 and 10 does not, so the fame of 8 is left to the coin of the last round.
  const MEMBERS: set<NodeId> := {0, 1, 2, 3}

  function Creator(x: Id): NodeId {
    if x < 4 then x
    else if x == 5 || x == 12 || x == 15 then 0
    else if x == 4 || x == 6 || x == 9 then 1
    else if x == 8 || x == 11 || x == 14 then 3
    else 2
  }

  function RoundNo(x: Id): nat {
    if x < 5 then 0 else if x < 10 then 1 else if x < 13 then 2 else if x < 16 then 3 else 4
  }

  function ParentList(x: Id): seq<Id> {
    if x < 4 then []
    else if x == 4 then [1, 3]
    else if x == 5 then [0, 4]
    else if x == 6 then [4, 0]
    else if x == 7 then [2, 4]
    else if x == 8 then [3, 5]
    else if x == 9 then [6, 5]
    else if x == 10 then [7, 9]
    else if x == 11 then [8, 9]
    else if x == 12 then [5, 11]
    else if x == 13 then [10, 12]
    else if x == 14 then [11, 13]
    else if x == 15 then [12, 14]
    else [13, 15]
  }

  predicate Fits(e: Event, x: Id) {
    e.id == x && e.source == Creator(x) && e.creator == Creator(x) && e.parents == ParentList(x)
  }

  /** The first `n` events, whatever their clocks, times and payloads. */
  ghost predicate Shaped(d: Graph, n: nat) {
    n <= 17 && (forall x: nat :: x in d <==> x < n) && forall x: nat :: x < n ==> Fits(d[x], x)
  }

  predicate Above(x: Id, a: Id) {
    if x < 4 then false
    else if x == 4 then a == 1 || a == 3
    else if x == 5 || x == 6 then a < 5 && a != 2
    else if x == 7 then 1 <= a < 5
    else if x == 8 then a < 6 && a != 2
    else if x == 9 then a < 7 && a != 2
    else if x == 10 then a < 10 && a != 8
    else if x == 11 then a < 10 && a != 2 && a != 7
    else if x == 12 then a < 12 && a != 2 && a != 7 && a != 10
    else a < x
  }

  lemma ParentsBefore(d: Graph, n: nat, x: Id, p: Id)
    requires Shaped(d, n) && x < n && p in Parents(d[x])
    ensures p in ParentList(x) && p < x
  {
    assert Fits(d[x], x);
  }

  lemma Keyed(d: Graph, n: nat)
    requires Shaped(d, n)
    ensures WellKeyed(d)
  {
    forall x | x in d ensures d[x].id == x { assert Fits(d[x], x); }
  }

  lemma Ordered(d: Graph, n: nat)
    requires Shaped(d, n)
    ensures Acyclic(d) && Closed(d)
  {
    var rank: map<Id, nat> := map x | x in d :: x;
    forall x, p | x in d && p in Parents(d[x]) ensures p < x && p in d { ParentsBefore(d, n, x, p); }
    assert Ranked(d, rank);
  }

  lemma AboveByParent(x: Id, a: Id)
    requires x < 17
    ensures (exists p :: p in ParentList(x) && (p == a || Above(p, a))) <==> Above(x, a)
  {
    var ps := ParentList(x);
    if |ps| > 0 { assert ps[0] in ps && ps[1] in ps; }
  }

  lemma {:induction false} AncestorsAre(d: Graph, n: nat, x: Id, a: Id)
    requires Shaped(d, n) && x < n && Acyclic(d)
    ensures a in Anc(d, x) <==> Above(x, a)
    decreases x
  {
    assert Fits(d[x], x);
    AncParent(d, x, a);
    forall p | p in ParentList(x) ensures Sees(d, p, a) <==> p == a || Above(p, a) { AncestorsAre(d, n, p, a); }
    AboveByParent(x, a);
  }

  lemma IsView(d: Graph, n: nat)
    requires Shaped(d, n)
    ensures View(d)
  {
    Keyed(d, n);
    Ordered(d, n);
    forall x, y | x in d && y in d && d[x].creator == d[y].creator ensures Related(d, x, y) {
      AncestorsAre(d, n, x, y);
      AncestorsAre(d, n, y, x);
      OneChain(x, y);
    }
  }

  lemma OneChain(x: Id, y: Id)
    requires x < 17 && y < 17 && Creator(x) == Creator(y)
    ensures x == y || Above(x, y) || Above(y, x)
  {
  }

  // ---- Rounds and witnesses ----

  /** All but 4 and 9 are the first of their creator in their round. */
  predicate IsFirst(x: Id) { x != 4 && x != 9 }

  function RoundTable(n: nat): (rounds: RoundMap)
    ensures forall x: nat :: x in rounds <==> x < n
    ensures forall x: nat :: x < n ==> rounds[x] == RoundNo(x)
  {
    map x: nat | 0 <= x < n :: RoundNo(x)
  }

  ghost predicate Stage(d: Graph, n: nat) {
    Shaped(d, n) && View(d)
  }

  lemma WitnessesAre(d: Graph, n: nat, x: Id)
    requires Stage(d, n) && x < n
    ensures IsWitness(d, RoundTable(n), x) <==> IsFirst(x)
  {
    var rounds := RoundTable(n);
    if IsFirst(x) {
      forall a | a in Anc(d, x) && a in d && a in rounds && d[a].creator == d[x].creator
        ensures rounds[a] != rounds[x]
      {
        AncestorsAre(d, n, x, a);
        FirstInRound(x, a);
      }
    } else {
      var a := if x == 4 then 1 else 6;
      AncestorsAre(d, n, x, a);
      assert Fits(d[x], x) && Fits(d[a], a);
    }
  }

  lemma FirstInRound(x: Id, a: Id)
    requires x < 17 && IsFirst(x) && Above(x, a) && Creator(a) == Creator(x)
    ensures RoundNo(a) != RoundNo(x)
  {
  }

  lemma SeenWitness(d: Graph, n: nat, x: Id, r: nat, c: NodeId)
    requires Stage(d, n) && x < n
    ensures c in SeenCreators(d, MEMBERS, RoundTable(n), x, r) <==>
      c in MEMBERS && exists w: nat :: Above(x, w) && w < n && RoundNo(w) == r && IsFirst(w) && Creator(w) == c
  {
    var rounds := RoundTable(n);
    forall w: nat ensures w in Anc(d, x) && WitnessOf(d, rounds, w, r, c) <==>
      Above(x, w) && w < n && RoundNo(w) == r && IsFirst(w) && Creator(w) == c
    {
      AncestorsAre(d, n, x, w);
      if w < n { WitnessesAre(d, n, w); assert Fits(d[w], w); }
    }
  }

  lemma BaseIs(d: Graph, n: nat, x: Id)
    requires Stage(d, n) && x < n
    ensures BaseRound(d, RoundTable(n), x) == MaxParent(x)
  {
    var rounds, ps := RoundTable(n), ParentList(x);
    assert Fits(d[x], x);
    if |ps| > 0 {
      assert ps[0] in Parents(d[x]) && ps[1] in Parents(d[x]);
      ParentRound(d, rounds, x, ps[0]);
      ParentRound(d, rounds, x, ps[1]);
    }
    if BaseRound(d, rounds, x) > 0 {
      var p := BaseParent(d, rounds, x);
      assert p in ps;
    }
  }

  function MaxParent(x: Id): nat {
    var ps := ParentList(x);
    if |ps| < 2 then 0 else if RoundNo(ps[0]) < RoundNo(ps[1]) then RoundNo(ps[1]) else RoundNo(ps[0])
  }

  // The first events of rounds 1 to 4 see three witnesses of the round before; nobody else does.
  predicate Promoted(x: Id) { x == 5 || x == 6 || x == 7 || x == 10 || x == 11 || x == 13 || x == 16 }

  function Support(x: Id): (Id, Id, Id) {
    if x == 5 || x == 6 then (0, 1, 3)
    else if x == 7 then (1, 2, 3)
    else if x == 10 then (5, 6, 7)
    else if x == 11 then (5, 6, 8)
    else if x == 13 then (10, 11, 12)
    else (13, 14, 15)
  }

  /** The creators others see in their base round: two at most. */
  function Handful(x: Id): set<NodeId> {
    if x < 4 then {} else if x == 4 then {1, 3} else if x == 8 then {0} else if x == 9 then {0, 1}
    else if x == 12 then {3} else if x == 14 then {2} else {2, 3}
  }

  lemma Supported(d: Graph, n: nat, x: Id)
    requires Stage(d, n) && x < n && Promoted(x)
    ensures |SeenCreators(d, MEMBERS, RoundTable(n), x, MaxParent(x))| >= 3
  {
    var (a, b, c) := Support(x);
    SupportFits(x);
    SeenWitness(d, n, x, MaxParent(x), Creator(a));
    SeenWitness(d, n, x, MaxParent(x), Creator(b));
    SeenWitness(d, n, x, MaxParent(x), Creator(c));
    Three(Creator(a), Creator(b), Creator(c), SeenCreators(d, MEMBERS, RoundTable(n), x, MaxParent(x)));
  }

  lemma SupportFits(x: Id)
    requires x < 17 && Promoted(x)
    ensures var (a, b, c) := Support(x);
      && Above(x, a) && Above(x, b) && Above(x, c) && a < x && b < x && c < x
      && RoundNo(a) == RoundNo(b) == RoundNo(c) == MaxParent(x) && IsFirst(a) && IsFirst(b) && IsFirst(c)
      && Creator(a) != Creator(b) && Creator(a) != Creator(c) && Creator(b) != Creator(c)
      && Creator(a) in MEMBERS && Creator(b) in MEMBERS && Creator(c) in MEMBERS
  {
  }

  lemma Three(a: NodeId, b: NodeId, c: NodeId, s: set<NodeId>)
    requires a in s && b in s && c in s && a != b && a != c && b != c
    ensures |s| >= 3
  {
    assert |{a, b, c}| == 3;
    SubsetCard({a, b, c}, s);
  }

  lemma Unsupported(d: Graph, n: nat, x: Id)
    requires Stage(d, n) && x < n && !Promoted(x)
    ensures |SeenCreators(d, MEMBERS, RoundTable(n), x, MaxParent(x))| < 3
  {
    var seen := SeenCreators(d, MEMBERS, RoundTable(n), x, MaxParent(x));
    forall c | c in seen ensures c in Handful(x) {
      SeenWitness(d, n, x, MaxParent(x), c);
      var w: nat :| Above(x, w) && w < n && RoundNo(w) == MaxParent(x) && IsFirst(w) && Creator(w) == c;
      InHandful(x, w);
    }
    SubsetCard(seen, Handful(x));
  }

  lemma InHandful(x: Id, w: Id)
    requires x < 17 && !Promoted(x) && Above(x, w) && RoundNo(w) == MaxParent(x) && IsFirst(w)
    ensures Creator(w) in Handful(x)
  {
  }

  lemma RoundIs(x: Id)
    requires x < 17
    ensures RoundNo(x) == if Promoted(x) then MaxParent(x) + 1 else MaxParent(x)
  {
  }

  lemma Obeys(d: Graph, n: nat, x: Id)
    requires Stage(d, n) && x < n
    ensures ObeysRule(d, MEMBERS, RoundTable(n), x)
  {
    BaseIs(d, n, x);
    RoundIs(x);
    if Promoted(x) { Supported(d, n, x); } else { Unsupported(d, n, x); }
    assert |MEMBERS| == 4;
  }

  lemma RoundsAre(d: Graph, n: nat)
    requires Stage(d, n)
    ensures RoundsOf(d, MEMBERS) == RoundTable(n)
  {
    var rounds := RoundTable(n);
    forall x | x in d ensures ObeysRule(d, MEMBERS, rounds, x) { Obeys(d, n, x); }
    RoundsUnique(d, MEMBERS, rounds);
  }

  // ---- The witness table ----

  function EntryAt(n: nat, r: nat, c: NodeId): Option<Id> {
    var w := if r == 0 then c
             else if r == 1 then (if c < 3 then c + 5 else 8)
             else if r == 2 then (if c == 0 then 12 else if c == 2 then 10 else 11)
             else if r == 3 then (if c == 0 then 15 else if c == 2 then 13 else 14)
             else 16;
    if c < 4 && w < n && Creator(w) == c && RoundNo(w) == r then Some(w) else None
  }

  lemma EntryThere(d: Graph, n: nat, r: nat, c: NodeId)
    requires Stage(d, n) && EntryAt(n, r, c).Some?
    ensures HasEntry(TableOf(d, MEMBERS), r, c)
    ensures TableOf(d, MEMBERS)[r][c] == EntryAt(n, r, c).value
  {
    var w := EntryAt(n, r, c).value;
    RoundsAre(d, n);
    WitnessesAre(d, n, w);
    assert Fits(d[w], w);
    TableWitness(d, MEMBERS, RoundTable(n), TableOf(d, MEMBERS), w, r, c);
  }

  lemma EntryOnly(d: Graph, n: nat, r: nat, c: NodeId)
    requires Stage(d, n) && HasEntry(TableOf(d, MEMBERS), r, c)
    ensures EntryAt(n, r, c) == Some(TableOf(d, MEMBERS)[r][c])
  {
    var w := TableOf(d, MEMBERS)[r][c];
    RoundsAre(d, n);
    assert WitnessOf(d, RoundTable(n), w, r, c);
    WitnessesAre(d, n, w);
    assert Fits(d[w], w);
    OneEntry(n, w);
  }

  lemma OneEntry(n: nat, w: Id)
    requires w < n <= 17 && IsFirst(w)
    ensures EntryAt(n, RoundNo(w), Creator(w)) == Some(w)
  {
  }

  lemma VotersAre(d: Graph, n: nat, r: nat, c: NodeId)
    requires Stage(d, n)
    ensures c in Voters(MEMBERS, TableOf(d, MEMBERS), r) <==> EntryAt(n, r, c).Some?
  {
    if EntryAt(n, r, c).Some? {
      EntryThere(d, n, r, c);
    } else if HasEntry(TableOf(d, MEMBERS), r, c) {
      EntryOnly(d, n, r, c);
    }
  }

  // ---- Votes on the round-1 witnesses ----

  /** Both moments: before event 16 and after it. */
  ghost predicate Moment(d: Graph, n: nat) {
    16 <= n && Stage(d, n)
  }

  /** The round-2 witness of member `c` votes as it sees. */
  lemma FirstVotes(d: Graph, n: nat, w: Id, c: NodeId)
    requires Moment(d, n) && 5 <= w < 9 && EntryAt(n, 2, c).Some?
    ensures var h := BallotsOn(d, MEMBERS, w, 1);
      2 in h && c in h[2] && h[2][c] == if Above(EntryAt(n, 2, c).value, w) then Yes else No
  {
    EntryThere(d, n, 2, c);
    FirstBallot(d, MEMBERS, TableOf(d, MEMBERS), w, 1, BallotsOn(d, MEMBERS, w, 1), c);
    AncestorsAre(d, n, EntryAt(n, 2, c).value, w);
  }

  lemma FirstVoters(d: Graph, n: nat, w: Id, c: NodeId)
    requires Moment(d, n) && 2 in BallotsOn(d, MEMBERS, w, 1) && c in BallotsOn(d, MEMBERS, w, 1)[2]
    ensures EntryAt(n, 2, c).Some?
  {
    BallotListed(d, MEMBERS, TableOf(d, MEMBERS), w, 1, BallotsOn(d, MEMBERS, w, 1), 2, c);
    EntryOnly(d, n, 2, c);
  }

  lemma RoundVoted(d: Graph, n: nat, w: Id, r: nat, s: nat, c: NodeId)
    requires Moment(d, n) && s > r && EntryAt(n, s, c).Some?
    ensures s in BallotsOn(d, MEMBERS, w, r)
  {
    VotersAre(d, n, s, c);
    RoundRecorded(d, MEMBERS, TableOf(d, MEMBERS), w, r, BallotsOn(d, MEMBERS, w, r), s);
  }

  lemma VotedRound(d: Graph, n: nat, w: Id, r: nat, s: nat)
    requires Moment(d, n) && s in BallotsOn(d, MEMBERS, w, r)
    ensures r < s < n - 12
  {
    var t := TableOf(d, MEMBERS);
    assert RoundObeys(d, MEMBERS, t, w, r, BallotsOn(d, MEMBERS, w, r), s);
    var c :| c in Voters(MEMBERS, t, s);
    VotersAre(d, n, s, c);
  }

  ghost function FameIn(d: Graph, coin: (Id, nat) -> bool, w: Id): Fame
    requires View(d) && w in d
  {
    FameOf(d, MEMBERS, coin, w)
  }

  /** Two rounds have voted on every round-1 witness, so each is decided one way or the other. */
  lemma Decided1(d: Graph, n: nat, coin: (Id, nat) -> bool, w: Id)
    requires Moment(d, n) && 5 <= w < 9
    ensures FameIn(d, coin, w).decided
  {
    RoundsAre(d, n);
    RoundVoted(d, n, w, 1, 2, 0);
    RoundVoted(d, n, w, 1, 3, 0);
    TwoRoundsDecide(w, BallotsOn(d, MEMBERS, w, 1), Threshold(|MEMBERS|), coin, 2, 3);
  }

  /** Events 5 and 6 are voted famous: all three round-2 witnesses see them. */
  lemma VotedYes(d: Graph, n: nat, coin: (Id, nat) -> bool, w: Id)
    requires Moment(d, n) && 5 <= w < 7
    ensures FameIn(d, coin, w).famous
  {
    var h := BallotsOn(d, MEMBERS, w, 1);
    RoundsAre(d, n);
    FirstVotes(d, n, w, 0);
    FirstVotes(d, n, w, 2);
    FirstVotes(d, n, w, 3);
    Three(0, 2, 3, Tally(h[2], Yes));
    assert DecidedBy(h, Threshold(|MEMBERS|), 2, Yes);
    FameMeaning(d, MEMBERS, coin, w);
  }

  /** On event 8 round 2 votes two to one. */
  lemma SplitVote(d: Graph, n: nat)
    requires Moment(d, n)
    ensures OpenAt(d, MEMBERS, 8, 1, 2)
  {
    var votes := VotesAt(BallotsOn(d, MEMBERS, 8, 1), 2);
    FirstVotes(d, n, 8, 0);
    FirstVotes(d, n, 8, 2);
    FirstVotes(d, n, 8, 3);
    forall c | c in votes ensures c in {0, 2, 3} { FirstVoters(d, n, 8, c); }
    SubsetCard(Tally(votes, Yes), {0, 3});
    SubsetCard(Tally(votes, No), {2});
    assert |MEMBERS| == 4;
  }

  /** So nobody ever votes on it again, and the coin of the last round that voted decides. */
  lemma CoinDecides(d: Graph, n: nat, coin: (Id, nat) -> bool)
    requires Moment(d, n)
    ensures FameIn(d, coin, 8).famous == coin(8, n - 13)
  {
    var h := BallotsOn(d, MEMBERS, 8, 1);
    RoundsAre(d, n);
    Recorded(d, n);
    NoneDecides(d, n);
    SubsetCard({2, 3}, h.Keys);
    assert |h.Keys| == |h|;
  }

  lemma NoneDecides(d: Graph, n: nat)
    requires Moment(d, n)
    ensures DecidingRounds(BallotsOn(d, MEMBERS, 8, 1), Threshold(|MEMBERS|)) == {}
  {
    var h := BallotsOn(d, MEMBERS, 8, 1);
    SplitVote(d, n);
    forall s | s in h ensures !Decides(h[s], Threshold(|MEMBERS|)) {
      OpenFrom(d, MEMBERS, 8, 1, 2, s);
      assert OpenAt(d, MEMBERS, 8, 1, s);
    }
  }

  lemma Recorded(d: Graph, n: nat)
    requires Moment(d, n)
    ensures var h := BallotsOn(d, MEMBERS, 8, 1); 2 in h && 3 in h && Max(h.Keys) == n - 13
  {
    var h := BallotsOn(d, MEMBERS, 8, 1);
    RoundVoted(d, n, 8, 1, 2, 0);
    RoundVoted(d, n, 8, 1, 3, 0);
    if n == 17 { RoundVoted(d, n, 8, 1, 4, 2); }
    VotedRound(d, n, 8, 1, Max(h.Keys));
    assert n - 13 in h;
  }

  // ---- Who is received when ----

  lemma FameListed(d: Graph, n: nat, coin: (Id, nat) -> bool, r: nat, c: NodeId)
    requires Stage(d, n) && EntryAt(n, r, c).Some?
    ensures var f: FameTable, w := FamesOf(d, MEMBERS, coin), EntryAt(n, r, c).value;
      r in f && w in f[r] && f[r][w] == FameIn(d, coin, w)
  {
    var w := EntryAt(n, r, c).value;
    var f: FameTable := FamesOf(d, MEMBERS, coin);
    EntryThere(d, n, r, c);
    assert w in f[r];
    ListedWitness(d, MEMBERS, coin, r, w);
  }

  lemma ListedRound(d: Graph, n: nat, coin: (Id, nat) -> bool, r: nat, w: Id)
    requires Stage(d, n) && r in FamesOf(d, MEMBERS, coin) && w in FamesOf(d, MEMBERS, coin)[r]
    ensures w < n && RoundNo(w) == r && IsFirst(w) && FamesOf(d, MEMBERS, coin)[r][w] == FameIn(d, coin, w)
  {
    RoundsAre(d, n);
    ListedWitness(d, MEMBERS, coin, r, w);
    WitnessesAre(d, n, w);
  }

  /** Round 1 is fully decided, so its consulted witnesses are the famous ones: 5, 6, and 8 as the coin says. */
  lemma ConsultedAtOne(d: Graph, n: nat, coin: (Id, nat) -> bool, c: NodeId)
    requires Moment(d, n) && c < 4
    ensures 1 in TableOf(d, MEMBERS) && EntryAt(n, 1, c).Some?
    ensures c in Consulted(d, MEMBERS, coin, 1) <==> FameIn(d, coin, EntryAt(n, 1, c).value).famous
  {
    var f: FameTable := FamesOf(d, MEMBERS, coin);
    EntryThere(d, n, 1, c);
    FameListed(d, n, coin, 1, c);
    Decided1(d, n, coin, EntryAt(n, 1, c).value);
    forall w | w in f[1] ensures f[1][w].decided {
      ListedRound(d, n, coin, 1, w);
      Decided1(d, n, coin, w);
    }
    assert AllDecided(f, 1);
  }

  ghost function Crowd(d: Graph, coin: (Id, nat) -> bool, r: nat, x: Id): set<NodeId>
    requires View(d) && r in TableOf(d, MEMBERS)
  {
    Onlookers(d, MEMBERS, Consulted(d, MEMBERS, coin, r), x)
  }

  lemma CrowdMember(d: Graph, n: nat, coin: (Id, nat) -> bool, r: nat, x: Id, c: NodeId)
    requires Stage(d, n) && r in TableOf(d, MEMBERS) && c in Crowd(d, coin, r, x)
    ensures EntryAt(n, r, c).Some? && c in Consulted(d, MEMBERS, coin, r)
    ensures EntryAt(n, r, c).value == x || Above(EntryAt(n, r, c).value, x)
  {
    EntryOnly(d, n, r, c);
    AncestorsAre(d, n, EntryAt(n, r, c).value, x);
  }

  lemma JoinsCrowd(d: Graph, n: nat, coin: (Id, nat) -> bool, r: nat, x: Id, c: NodeId)
    requires Stage(d, n) && r in TableOf(d, MEMBERS) && c in Consulted(d, MEMBERS, coin, r)
    requires EntryAt(n, r, c).Some? && Above(EntryAt(n, r, c).value, x)
    ensures c in Crowd(d, coin, r, x)
  {
    EntryThere(d, n, r, c);
    AncestorsAre(d, n, EntryAt(n, r, c).value, x);
    assert c in MEMBERS;
  }

  lemma ReceivedWithCrowd(d: Graph, coin: (Id, nat) -> bool, r: nat, x: Id)
    requires View(d) && r in TableOf(d, MEMBERS)
    ensures |Crowd(d, coin, r, x)| >= 3 ==> ReceivedBy(d, MEMBERS, coin, x, r)
    ensures |Crowd(d, coin, r, x)| < 3 ==> RoundReceived(d, MEMBERS, coin, x) != Some(r)
  {
    var t, f := TableOf(d, MEMBERS), FamesOf(d, MEMBERS, coin);
    assert |MEMBERS| == 4;
    assert ReceivedAt(d, MEMBERS, t, f, r, x) <==> |Crowd(d, coin, r, x)| >= 3;
    if |Crowd(d, coin, r, x)| >= 3 { FirstIsLeast(d, MEMBERS, t, f, x, r); }
  }

  lemma FamousAtOne(d: Graph, n: nat, coin: (Id, nat) -> bool, c: NodeId)
    requires Moment(d, n) && coin(8, n - 13) && (c == 0 || c == 1 || c == 3)
    ensures 1 in TableOf(d, MEMBERS) && c in Crowd(d, coin, 1, 0)
  {
    if c == 3 { CoinDecides(d, n, coin); } else { VotedYes(d, n, coin, c + 5); }
    ConsultedAtOne(d, n, coin, c);
    JoinsCrowd(d, n, coin, 1, 0, c);
  }

  lemma ZeroSeen(d: Graph, n: nat, coin: (Id, nat) -> bool)
    requires Moment(d, n) && coin(8, n - 13)
    ensures ReceivedBy(d, MEMBERS, coin, 0, 1)
  {
    FamousAtOne(d, n, coin, 0);
    FamousAtOne(d, n, coin, 1);
    FamousAtOne(d, n, coin, 3);
    Three(0, 1, 3, Crowd(d, coin, 1, 0));
    ReceivedWithCrowd(d, coin, 1, 0);
  }

  /** Only genesis event 0 itself sees event 0 among the round-0 witnesses. */
  lemma ZeroNotAtZero(d: Graph, n: nat, coin: (Id, nat) -> bool)
    requires Moment(d, n)
    ensures RoundReceived(d, MEMBERS, coin, 0) != Some(0)
  {
    EntryThere(d, n, 0, 0);
    forall c | c in Crowd(d, coin, 0, 0) ensures c in {0} { CrowdMember(d, n, coin, 0, 0, c); }
    SubsetCard(Crowd(d, coin, 0, 0), {0});
    ReceivedWithCrowd(d, coin, 0, 0);
  }

  /** Without the fame of 8 too few are left in round 1: event 7 does not see event 0. */
  lemma ZeroNotAtOne(d: Graph, n: nat, coin: (Id, nat) -> bool)
    requires Moment(d, n) && !coin(8, n - 13)
    ensures RoundReceived(d, MEMBERS, coin, 0) != Some(1)
  {
    CoinDecides(d, n, coin);
    ConsultedAtOne(d, n, coin, 3);
    forall c | c in Crowd(d, coin, 1, 0) ensures c in {0, 1} { CrowdMember(d, n, coin, 1, 0, c); }
    SubsetCard(Crowd(d, coin, 1, 0), {0, 1});
    ReceivedWithCrowd(d, coin, 1, 0);
  }

  lemma ZeroMissing(d: Graph, n: nat, coin: (Id, nat) -> bool)
    requires Moment(d, n) && !coin(8, n - 13)
    ensures !ReceivedBy(d, MEMBERS, coin, 0, 1)
  {
    ZeroNotAtZero(d, n, coin);
    ZeroNotAtOne(d, n, coin);
  }

  /** Event 0 is received by round 1 exactly if the coin says so. */
  lemma ZeroInPrefix(d: Graph, n: nat, coin: (Id, nat) -> bool)
    requires Moment(d, n)
    ensures 0 in FinalPart(d, MEMBERS, coin, 1) <==> coin(8, n - 13)
  {
    if coin(8, n - 13) { ZeroSeen(d, n, coin); } else { ZeroMissing(d, n, coin); }
  }

  // ---- The newest received round ----

  /** Nothing has voted on the round-3 witnesses of the first sixteen events. */
  lemma Pending3(d: Graph, coin: (Id, nat) -> bool, w: Id)
    requires Moment(d, 16) && 13 <= w < 16
    ensures !FameIn(d, coin, w).decided
  {
    var h := BallotsOn(d, MEMBERS, w, 3);
    RoundsAre(d, 16);
    forall s | s in h ensures false { VotedRound(d, 16, w, 3, s); }
    assert h == map[];
  }

  /** So all three are consulted for round 3, and event 12 is below them all. */
  lemma ConsultedAtThree(d: Graph, coin: (Id, nat) -> bool, c: NodeId)
    requires Moment(d, 16) && EntryAt(16, 3, c).Some?
    ensures 3 in TableOf(d, MEMBERS) && c in Crowd(d, coin, 3, 12)
  {
    var f: FameTable := FamesOf(d, MEMBERS, coin);
    EntryThere(d, 16, 3, c);
    FameListed(d, 16, coin, 3, c);
    forall w | w in f[3] ensures !f[3][w].decided {
      ListedRound(d, 16, coin, 3, w);
      Pending3(d, coin, w);
    }
    assert EntryAt(16, 3, c).value in f[3];
    assert !AllDecided(f, 3) && !AnyDecided(f, 3);
    JoinsCrowd(d, 16, coin, 3, 12, c);
  }

  lemma TwelveNotBefore(d: Graph, coin: (Id, nat) -> bool, r: nat)
    requires Moment(d, 16) && r < 3
    ensures RoundReceived(d, MEMBERS, coin, 12) != Some(r)
  {
    EntryThere(d, 16, r, 0);
    forall c | c in Crowd(d, coin, r, 12) ensures c in {0} { CrowdMember(d, 16, coin, r, 12, c); }
    SubsetCard(Crowd(d, coin, r, 12), {0});
    ReceivedWithCrowd(d, coin, r, 12);
  }

  lemma TwelveByThree(d: Graph, coin: (Id, nat) -> bool)
    requires Moment(d, 16)
    ensures ReceivedBy(d, MEMBERS, coin, 12, 3)
  {
    ConsultedAtThree(d, coin, 0);
    ConsultedAtThree(d, coin, 2);
    ConsultedAtThree(d, coin, 3);
    Three(0, 2, 3, Crowd(d, coin, 3, 12));
    ReceivedWithCrowd(d, coin, 3, 12);
  }

  lemma NoneLater(d: Graph, coin: (Id, nat) -> bool, x: Id)
    requires Moment(d, 16) && RoundReceived(d, MEMBERS, coin, x).Some?
    ensures RoundReceived(d, MEMBERS, coin, x).value <= 3
  {
    var r := RoundReceived(d, MEMBERS, coin, x).value;
    assert ReceivedAt(d, MEMBERS, TableOf(d, MEMBERS), FamesOf(d, MEMBERS, coin), r, x);
    var c :| c in Crowd(d, coin, r, x);
    CrowdMember(d, 16, coin, r, x, c);
  }

  lemma NewestIsThree(d: Graph, coin: (Id, nat) -> bool)
    requires Moment(d, 16)
    ensures Newest(d, MEMBERS, coin, 1 + FINALITY_MARGIN)
  {
    TwelveByThree(d, coin);
    TwelveNotBefore(d, coin, 0);
    TwelveNotBefore(d, coin, 1);
    TwelveNotBefore(d, coin, 2);
    assert 12 in d && RoundReceived(d, MEMBERS, coin, 12) == Some(3);
    forall x | x in d && RoundReceived(d, MEMBERS, coin, x).Some?
      ensures RoundReceived(d, MEMBERS, coin, x).value <= 3
    {
      NoneLater(d, coin, x);
    }
  }

  lemma OneMore(small: Graph, big: Graph, coin: (Id, nat) -> bool)
    requires Moment(small, 16) && Moment(big, 17) && Extends(small, big) && coin(8, 3) && !coin(8, 4)
    ensures Newest(small, MEMBERS, coin, 1 + FINALITY_MARGIN) && !CoinFree(small, MEMBERS, coin, 1)
    ensures 0 in FinalPart(small, MEMBERS, coin, 1) && 0 !in FinalPart(big, MEMBERS, coin, 1)
  {
    NewestIsThree(small, coin);
    ZeroInPrefix(small, 16, coin);
    ZeroInPrefix(big, 17, coin);
    PrefixFinalIff(small, MEMBERS, coin, 1);
    assert SameTosses(small, MEMBERS, coin, coin);
  }
}
