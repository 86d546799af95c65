/** Fame across growing histories: votes only accumulate, and decisions by vote never change. */
module FameSafety {
  import opened Prelude
  import opened Quorum
  import opened Dag
  import opened Rounds
  import opened Voting

  lemma TableWitness(d: Graph, m: set<NodeId>, rounds: RoundMap, t: Table, w: Id, r: nat, c: NodeId)
    requires Annotated(d, m, rounds, t) && WitnessOf(d, rounds, w, r, c)
    ensures HasEntry(t, r, c) && t[r][c] == w
  {
    assert Listed(d, rounds, t, w);
    WitnessUnique(d, rounds, w, t[r][c], r, c);
  }

  /** Two annotated views, one holding everything the other does. */
  ghost predicate Grown(d1: Graph, r1: RoundMap, t1: Table, d2: Graph, r2: RoundMap, t2: Table, m: set<NodeId>) {
    Annotated(d1, m, r1, t1) && Annotated(d2, m, r2, t2) && Extends(d1, d2)
  }

  /** The bigger table has the smaller one's entries, and anything a small witness sees it lists identically. */
  lemma TableGrows(d1: Graph, r1: RoundMap, t1: Table, d2: Graph, r2: RoundMap, t2: Table, m: set<NodeId>, s: nat,
                   c: NodeId)
    requires Grown(d1, r1, t1, d2, r2, t2, m) && HasEntry(t1, s, c)
    ensures HasEntry(t2, s, c) && t2[s][c] == t1[s][c]
  {
    var w := t1[s][c];
    WitnessStable(d1, d2, m, r1, r2, w, s, c);
    TableWitness(d2, m, r2, t2, w, s, c);
  }

  lemma SeenEntry(d1: Graph, r1: RoundMap, t1: Table, d2: Graph, r2: RoundMap, t2: Table, m: set<NodeId>, v: Id,
                  s: nat, c: NodeId)
    requires Grown(d1, r1, t1, d2, r2, t2, m) && v in d1 && HasEntry(t2, s, c) && Sees(d2, v, t2[s][c])
    ensures HasEntry(t1, s, c) && t1[s][c] == t2[s][c]
  {
    AncGrow(d1, d2, v);
    var u := t2[s][c];
    SeesPresent(d1, v, u);
    WitnessStable(d1, d2, m, r1, r2, u, s, c);
    TableWitness(d1, m, r1, t1, u, s, c);
  }

  ghost predicate Keeps(fewer: RoundVotes, more: RoundVotes) {
    forall c :: c in fewer ==> c in more && more[c] == fewer[c]
  }

  lemma BackersAgree(d1: Graph, r1: RoundMap, t1: Table, d2: Graph, r2: RoundMap, t2: Table, m: set<NodeId>,
                     votes1: RoundVotes, votes2: RoundVotes, s: nat, v: Id, b: Ballot)
    requires Grown(d1, r1, t1, d2, r2, t2, m) && v in d1
    requires votes1.Keys == Voters(m, t1, s)
    requires Keeps(votes1, votes2)
    ensures Backers(d1, m, t1, votes1, s, v, b) == Backers(d2, m, t2, votes2, s, v, b)
  {
    var b1, b2 := Backers(d1, m, t1, votes1, s, v, b), Backers(d2, m, t2, votes2, s, v, b);
    AncGrow(d1, d2, v);
    forall c | c in b1 ensures c in b2 {
      assert HasEntry(t1, s, c);
      TableGrows(d1, r1, t1, d2, r2, t2, m, s, c);
    }
    forall c | c in b2 ensures c in b1 {
      assert HasEntry(t2, s, c);
      SeenEntry(d1, r1, t1, d2, r2, t2, m, v, s, c);
    }
  }

  lemma CastAgrees(d1: Graph, r1: RoundMap, t1: Table, d2: Graph, r2: RoundMap, t2: Table, m: set<NodeId>,
                   votes1: RoundVotes, votes2: RoundVotes, s: nat, v: Id)
    requires Grown(d1, r1, t1, d2, r2, t2, m) && v in d1
    requires votes1.Keys == Voters(m, t1, s) && Keeps(votes1, votes2)
    ensures CastBallot(d1, m, t1, votes1, s, v) == CastBallot(d2, m, t2, votes2, s, v)
  {
    BackersAgree(d1, r1, t1, d2, r2, t2, m, votes1, votes2, s, v, Yes);
    BackersAgree(d1, r1, t1, d2, r2, t2, m, votes1, votes2, s, v, No);
  }

  lemma BallotListed(d: Graph, m: set<NodeId>, t: Table, w: Id, r: nat, h: History, s: nat, c: NodeId)
    requires Acyclic(d) && ValidHistory(d, m, t, w, r, h) && s > r
    ensures s in h && c in h[s] <==> HasEntry(t, s, c) && c in m
  {
    assert RoundObeys(d, m, t, w, r, h, s);
  }

  lemma FirstBallot(d: Graph, m: set<NodeId>, t: Table, w: Id, r: nat, h: History, c: NodeId)
    requires Acyclic(d) && ValidHistory(d, m, t, w, r, h) && HasEntry(t, r + 1, c) && c in m
    ensures r + 1 in h && c in h[r + 1] && h[r + 1][c] == if Sees(d, t[r + 1][c], w) then Yes else No
  {
    assert RoundObeys(d, m, t, w, r, h, r + 1);
  }

  lemma LaterBallot(d: Graph, m: set<NodeId>, t: Table, w: Id, r: nat, h: History, s: nat, c: NodeId)
    requires Acyclic(d) && ValidHistory(d, m, t, w, r, h) && s > r + 1 && HasEntry(t, s, c) && c in m
    ensures s in h && c in h[s] && h[s][c] == CastBallot(d, m, t, VotesAt(h, s - 1), s - 1, t[s][c])
  {
    assert RoundObeys(d, m, t, w, r, h, s);
  }

  /** The vote history only grows: every recorded ballot stays, round by round. */
  lemma {:induction false} HistoryGrows(d1: Graph, r1: RoundMap, t1: Table, d2: Graph, r2: RoundMap, t2: Table,
                                        m: set<NodeId>, w: Id, r: nat, h1: History, h2: History, s: nat, c: NodeId)
    requires Grown(d1, r1, t1, d2, r2, t2, m) && w in d1
    requires ValidHistory(d1, m, t1, w, r, h1) && ValidHistory(d2, m, t2, w, r, h2)
    requires s in h1 && c in h1[s]
    ensures s in h2 && c in h2[s] && h2[s][c] == h1[s][c]
    decreases s
  {
    BallotListed(d1, m, t1, w, r, h1, s, c);
    TableGrows(d1, r1, t1, d2, r2, t2, m, s, c);
    if s == r + 1 {
      FirstBallot(d1, m, t1, w, r, h1, c);
      FirstBallot(d2, m, t2, w, r, h2, c);
      SightGrows(d1, d2, t1[s][c], w);
    } else {
      var votes1, votes2 := VotesAt(h1, s - 1), VotesAt(h2, s - 1);
      forall e | e in votes1 ensures e in votes2 && votes2[e] == votes1[e] {
        HistoryGrows(d1, r1, t1, d2, r2, t2, m, w, r, h1, h2, s - 1, e);
      }
      LaterBallotGrows(d1, r1, t1, d2, r2, t2, m, w, r, h1, h2, s, c);
    }
  }

  lemma LaterBallotGrows(d1: Graph, r1: RoundMap, t1: Table, d2: Graph, r2: RoundMap, t2: Table, m: set<NodeId>,
                         w: Id, r: nat, h1: History, h2: History, s: nat, c: NodeId)
    requires Grown(d1, r1, t1, d2, r2, t2, m)
    requires ValidHistory(d1, m, t1, w, r, h1) && ValidHistory(d2, m, t2, w, r, h2)
    requires s > r + 1 && c in m && HasEntry(t1, s, c) && HasEntry(t2, s, c) && t2[s][c] == t1[s][c]
    requires Keeps(VotesAt(h1, s - 1), VotesAt(h2, s - 1))
    ensures s in h1 && c in h1[s] && s in h2 && c in h2[s] && h2[s][c] == h1[s][c]
  {
    CastGrows(d1, r1, t1, d2, r2, t2, m, w, r, h1, h2, s - 1, t1[s][c]);
    SameBallot(d1, t1, d2, t2, m, w, r, h1, h2, s, c);
  }

  lemma CastGrows(d1: Graph, r1: RoundMap, t1: Table, d2: Graph, r2: RoundMap, t2: Table, m: set<NodeId>,
                  w: Id, r: nat, h1: History, h2: History, s: nat, v: Id)
    requires Grown(d1, r1, t1, d2, r2, t2, m) && v in d1
    requires s > r && ValidHistory(d1, m, t1, w, r, h1) && Keeps(VotesAt(h1, s), VotesAt(h2, s))
    ensures CastBallot(d1, m, t1, VotesAt(h1, s), s, v) == CastBallot(d2, m, t2, VotesAt(h2, s), s, v)
  {
    VotersWithin(d1, m, t1, w, r, h1, s);
    CastAgrees(d1, r1, t1, d2, r2, t2, m, VotesAt(h1, s), VotesAt(h2, s), s, v);
  }

  lemma SameBallot(d1: Graph, t1: Table, d2: Graph, t2: Table, m: set<NodeId>,
                   w: Id, r: nat, h1: History, h2: History, s: nat, c: NodeId)
    requires Acyclic(d1) && Acyclic(d2)
    requires ValidHistory(d1, m, t1, w, r, h1) && ValidHistory(d2, m, t2, w, r, h2)
    requires s > r + 1 && c in m && HasEntry(t1, s, c) && HasEntry(t2, s, c) && t2[s][c] == t1[s][c]
    requires CastBallot(d1, m, t1, VotesAt(h1, s - 1), s - 1, t1[s][c]) ==
      CastBallot(d2, m, t2, VotesAt(h2, s - 1), s - 1, t1[s][c])
    ensures s in h1 && c in h1[s] && s in h2 && c in h2[s] && h2[s][c] == h1[s][c]
  {
    LaterBallot(d1, m, t1, w, r, h1, s, c);
    LaterBallot(d2, m, t2, w, r, h2, s, c);
  }

  lemma SightGrows(d1: Graph, d2: Graph, v: Id, w: Id)
    requires Acyclic(d1) && Acyclic(d2) && Closed(d1) && Extends(d1, d2) && v in d1
    ensures Sees(d1, v, w) == Sees(d2, v, w)
  {
    AncGrow(d1, d2, v);
  }

  lemma DecidedGrows(d1: Graph, r1: RoundMap, t1: Table, d2: Graph, r2: RoundMap, t2: Table, m: set<NodeId>,
                     w: Id, r: nat, h1: History, h2: History, b: Ballot)
    requires Grown(d1, r1, t1, d2, r2, t2, m) && w in d1
    requires ValidHistory(d1, m, t1, w, r, h1) && ValidHistory(d2, m, t2, w, r, h2)
    requires Decided(h1, Threshold(|m|), b)
    ensures Decided(h2, Threshold(|m|), b)
  {
    var s: nat :| DecidedBy(h1, Threshold(|m|), s, b);
    forall c | c in h1[s] ensures s in h2 && c in h2[s] && h2[s][c] == h1[s][c] {
      HistoryGrows(d1, r1, t1, d2, r2, t2, m, w, r, h1, h2, s, c);
    }
    assert s in h2 by {
      assert Tally(h1[s], b) != {};
      var c :| c in Tally(h1[s], b);
      assert c in h1[s];
    }
    SubsetCard(Tally(h1[s], b), Tally(h2[s], b));
    assert DecidedBy(h2, Threshold(|m|), s, b);
  }

  // ---- The table and the histories of a view exist and are unique ----

  ghost function TableOf(d: Graph, m: set<NodeId>): (t: Table)
    requires View(d)
    ensures IsTable(d, RoundsOf(d, m), t)
  {
    var rounds := RoundsOf(d, m);
    TableExists(d, m, rounds);
    var t :| IsTable(d, rounds, t);
    t
  }

  lemma TableExists(d: Graph, m: set<NodeId>, rounds: RoundMap)
    requires View(d) && ValidRounds(d, m, rounds)
    ensures exists t :: IsTable(d, rounds, t)
  {
    var t: Table := map r | r in rounds.Values :: EntriesOf(d, rounds, r);
    forall x | x in d ensures Listed(d, rounds, t, x) {
      EntryListed(d, rounds, t, x);
    }
    forall r | r in t ensures t[r] != map[] {
      var x :| x in rounds && rounds[x] == r;
      assert Listed(d, rounds, t, x);
    }
    forall r, c | HasEntry(t, r, c) ensures WitnessOf(d, rounds, t[r][c], r, c) { }
    assert IsTable(d, rounds, t);
  }

  lemma EntryListed(d: Graph, rounds: RoundMap, t: Table, x: Id)
    requires Acyclic(d) && rounds.Keys == d.Keys && x in d
    requires rounds[x] in t && t[rounds[x]] == EntriesOf(d, rounds, rounds[x])
    ensures Listed(d, rounds, t, x)
  {
    var w := WitnessBelow(d, rounds, x);
  }

  ghost function CreatorsAt(d: Graph, rounds: RoundMap, r: nat): (cs: set<NodeId>)
    requires Acyclic(d)
    ensures forall c :: c in cs ==> exists w :: WitnessOf(d, rounds, w, r, c)
    ensures forall w, c :: WitnessOf(d, rounds, w, r, c) ==> c in cs
  {
    set w | w in d && WitnessOf(d, rounds, w, r, d[w].creator) :: d[w].creator
  }

  ghost function EntriesOf(d: Graph, rounds: RoundMap, r: nat): (entries: map<NodeId, Id>)
    requires Acyclic(d)
    ensures forall c :: c in entries ==> WitnessOf(d, rounds, entries[c], r, c)
    ensures forall w, c :: WitnessOf(d, rounds, w, r, c) ==> c in entries
  {
    map c | c in CreatorsAt(d, rounds, r) :: (var w :| WitnessOf(d, rounds, w, r, c); w)
  }

  lemma TableWithin(d: Graph, m: set<NodeId>, rounds: RoundMap, t1: Table, t2: Table, r: nat)
    requires Annotated(d, m, rounds, t1) && Annotated(d, m, rounds, t2) && r in t1
    ensures r in t2 && t1[r].Keys <= t2[r].Keys && forall c :: c in t1[r] ==> t2[r][c] == t1[r][c]
  {
    forall c | c in t1[r] ensures HasEntry(t2, r, c) && t2[r][c] == t1[r][c] {
      assert HasEntry(t1, r, c);
      TableWitness(d, m, rounds, t2, t1[r][c], r, c);
    }
    var c :| c in t1[r];
    assert HasEntry(t2, r, c);
  }

  lemma TableUnique(d: Graph, m: set<NodeId>, rounds: RoundMap, t1: Table, t2: Table)
    requires Annotated(d, m, rounds, t1) && Annotated(d, m, rounds, t2)
    ensures t1 == t2
  {
    forall r | r in t1 ensures r in t2 && t1[r] == t2[r] {
      TableWithin(d, m, rounds, t1, t2, r);
      TableWithin(d, m, rounds, t2, t1, r);
    }
    forall r | r in t2 ensures r in t1 { TableWithin(d, m, rounds, t2, t1, r); }
  }

  /** History of the rounds up to `top`. */
  ghost function HistoryUpTo(d: Graph, m: set<NodeId>, t: Table, w: Id, r: nat, top: nat): (h: History)
    requires Acyclic(d)
    ensures forall s :: s in h ==> r < s <= top
    decreases top
  {
    if top <= r then map[]
    else
      var below := HistoryUpTo(d, m, t, w, r, top - 1);
      if Voters(m, t, top) == {} then below
      else below[top := map c | c in Voters(m, t, top) :: BallotAt(d, m, t, w, r, below, top, t[top][c])]
  }

  lemma {:induction false} HistoryUpToObeys(d: Graph, m: set<NodeId>, t: Table, w: Id, r: nat, top: nat, s: nat)
    requires Acyclic(d) && r < s <= top
    ensures RoundObeys(d, m, t, w, r, HistoryUpTo(d, m, t, w, r, top), s)
    decreases top
  {
    if s < top {
      HistoryUpToObeys(d, m, t, w, r, top - 1, s);
    }
  }

  ghost function TopRound(t: Table): nat {
    if t == map[] then 0 else Max(t.Keys)
  }

  ghost function HistoryOf(d: Graph, m: set<NodeId>, t: Table, w: Id, r: nat): (h: History)
    requires Acyclic(d)
    ensures ValidHistory(d, m, t, w, r, h)
  {
    HistoryObeys(d, m, t, w, r);
    var h :| ValidHistory(d, m, t, w, r, h);
    h
  }

  lemma HistoryObeys(d: Graph, m: set<NodeId>, t: Table, w: Id, r: nat)
    requires Acyclic(d)
    ensures ValidHistory(d, m, t, w, r, HistoryUpTo(d, m, t, w, r, TopRound(t)))
  {
    var h := HistoryUpTo(d, m, t, w, r, TopRound(t));
    forall s: nat | s > r ensures RoundObeys(d, m, t, w, r, h, s) {
      if s <= TopRound(t) { HistoryUpToObeys(d, m, t, w, r, TopRound(t), s); } else { assert s !in t; }
    }
  }

  lemma {:induction false} HistoryRoundUnique(d: Graph, m: set<NodeId>, t: Table, w: Id, r: nat, h1: History,
                                              h2: History, s: nat)
    requires Acyclic(d) && ValidHistory(d, m, t, w, r, h1) && ValidHistory(d, m, t, w, r, h2) && s > r
    ensures VotesAt(h1, s) == VotesAt(h2, s)
    ensures s in h1 <==> s in h2
    decreases s
  {
    assert RoundObeys(d, m, t, w, r, h1, s) && RoundObeys(d, m, t, w, r, h2, s);
    if s > r + 1 {
      HistoryRoundUnique(d, m, t, w, r, h1, h2, s - 1);
    }
  }

  lemma HistoryUnique(d: Graph, m: set<NodeId>, t: Table, w: Id, r: nat, h: History)
    requires Acyclic(d) && ValidHistory(d, m, t, w, r, h)
    ensures h == HistoryOf(d, m, t, w, r)
  {
    var g := HistoryOf(d, m, t, w, r);
    forall s: nat | s > r ensures VotesAt(h, s) == VotesAt(g, s) && (s in h <==> s in g) {
      HistoryRoundUnique(d, m, t, w, r, h, g, s);
    }
  }

  // ---- Fame of a witness in a view ----

  ghost function FameOf(d: Graph, m: set<NodeId>, coin: (Id, nat) -> bool, w: Id): Fame
    requires View(d) && w in d
  {
    Resolve(w, HistoryOf(d, m, TableOf(d, m), w, RoundsOf(d, m)[w]), Threshold(|m|), coin)
  }

  ghost predicate VoteDecided(d: Graph, m: set<NodeId>, w: Id, b: Ballot)
    requires View(d) && w in d
  {
    Decided(HistoryOf(d, m, TableOf(d, m), w, RoundsOf(d, m)[w]), Threshold(|m|), b)
  }

  lemma FameMeaning(d: Graph, m: set<NodeId>, coin: (Id, nat) -> bool, w: Id)
    requires View(d) && w in d
    ensures FameOf(d, m, coin, w).kind == ByVote && FameOf(d, m, coin, w).famous <==> VoteDecided(d, m, w, Yes)
    ensures FameOf(d, m, coin, w).kind == ByVote && !FameOf(d, m, coin, w).famous <==> VoteDecided(d, m, w, No)
  {
    var t, r := TableOf(d, m), RoundsOf(d, m)[w];
    var h := HistoryOf(d, m, t, w, r);
    VoteMeaning(d, m, t, w, r, h, coin);
  }

  lemma GrownViews(small: Graph, big: Graph, m: set<NodeId>)
    requires View(big) && Closed(small) && Extends(small, big)
    ensures View(small)
    ensures Grown(small, RoundsOf(small, m), TableOf(small, m), big, RoundsOf(big, m), TableOf(big, m), m)
    ensures forall x :: x in small ==> RoundsOf(small, m)[x] == RoundsOf(big, m)[x]
  {
    ViewDown(small, big);
    forall x | x in small ensures RoundsOf(small, m)[x] == RoundsOf(big, m)[x] {
      RoundStable(small, big, m, RoundsOf(small, m), RoundsOf(big, m), x);
    }
  }

  lemma VoteDecidedGrows(small: Graph, big: Graph, m: set<NodeId>, w: Id, b: Ballot)
    requires View(small) && View(big) && Extends(small, big) && w in small
    requires VoteDecided(small, m, w, b)
    ensures VoteDecided(big, m, w, b)
  {
    GrownViews(small, big, m);
    var r1, r2 := RoundsOf(small, m), RoundsOf(big, m);
    var t1, t2 := TableOf(small, m), TableOf(big, m);
    DecidedGrows(small, r1, t1, big, r2, t2, m, w, r1[w],
                 HistoryOf(small, m, t1, w, r1[w]), HistoryOf(big, m, t2, w, r1[w]), b);
  }

  /** Fame safety: a fame value decided by vote is decided by vote, with the same value, in every larger view. */
  lemma FameSafe(small: Graph, big: Graph, m: set<NodeId>, coin: (Id, nat) -> bool, w: Id)
    requires View(big) && View(small) && Extends(small, big) && w in small
    requires FameOf(small, m, coin, w).kind == ByVote
    ensures FameOf(big, m, coin, w).kind == ByVote
    ensures FameOf(big, m, coin, w).famous == FameOf(small, m, coin, w).famous
  {
    FameMeaning(small, m, coin, w);
    FameMeaning(big, m, coin, w);
    var b := if FameOf(small, m, coin, w).famous then Yes else No;
    VoteDecidedGrows(small, big, m, w, b);
  }

  /** Two replicas never vote-decide one witness differently. */
  lemma FameAgreement(d1: Graph, d2: Graph, all: Graph, m: set<NodeId>, coin: (Id, nat) -> bool, w: Id)
    requires View(all) && Extends(d1, all) && Extends(d2, all)
    requires View(d1) && View(d2) && w in d1 && w in d2
    requires FameOf(d1, m, coin, w).kind == ByVote && FameOf(d2, m, coin, w).kind == ByVote
    ensures FameOf(d1, m, coin, w).famous == FameOf(d2, m, coin, w).famous
  {
    FameSafe(d1, all, m, coin, w);
    FameSafe(d2, all, m, coin, w);
  }

  /** Unanimity is followed: when every member witness of a round answers `b`, so does every one of the next. */
  lemma Unanimity(d: Graph, m: set<NodeId>, t: Table, w: Id, r: nat, h: History, s: nat, b: Ballot, c: NodeId)
    requires View(d) && t == TableOf(d, m) && ValidHistory(d, m, t, w, r, h) && s > r && b != Abstain
    requires forall e :: e in VotesAt(h, s) ==> VotesAt(h, s)[e] == b
    requires c in m && HasEntry(t, s + 1, c)
    ensures s + 1 in h && c in h[s + 1] && h[s + 1][c] == b
  {
    var rounds, v := RoundsOf(d, m), t[s + 1][c];
    QuorumBelow(d, m, rounds, v, s);
    var seen, heard := SeenCreators(d, m, rounds, v, s), Heard(d, m, t, VotesAt(h, s), s, v, b);
    forall e | e in seen ensures e in heard {
      var u :| u in Anc(d, v) && WitnessOf(d, rounds, u, s, e);
      TableWitness(d, m, rounds, t, u, s, e);
      BallotListed(d, m, t, w, r, h, s, e);
    }
    SubsetCard(seen, heard);
    LaterVotes(d, m, t, w, r, h, s, c);
  }

  // ---- Late witnesses ----

  ghost predicate Reaches(d: Graph, m: set<NodeId>, r: nat)
    requires View(d)
  {
    exists x :: x in d && RoundsOf(d, m)[x] >= r
  }

  /** A view that reached round r+2 holds round-(r+1) witnesses of a supermajority of members. */
  lemma QuorumOfWitnesses(d: Graph, m: set<NodeId>, r: nat)
    requires View(d) && Reaches(d, m, r + 1)
    ensures |Voters(m, TableOf(d, m), r)| >= Threshold(|m|)
  {
    var rounds, t := RoundsOf(d, m), TableOf(d, m);
    var x :| x in d && rounds[x] >= r + 1;
    var y := LowerRounds(d, m, rounds, x, r + 1);
    QuorumBelow(d, m, rounds, y, r);
    forall c | c in SeenCreators(d, m, rounds, y, r) ensures c in Voters(m, t, r) {
      var w :| w in Anc(d, y) && WitnessOf(d, rounds, w, r, c);
      TableWitness(d, m, rounds, t, w, r, c);
    }
    SubsetCard(SeenCreators(d, m, rounds, y, r), Voters(m, t, r));
  }

  /** Round-(r+1) witnesses of the smaller view cannot see a witness outside it, and say so. */
  lemma EarlyVotesNo(small: Graph, big: Graph, m: set<NodeId>, w: Id, r: nat, h: History)
    requires View(big) && View(small) && Extends(small, big) && w !in small
    requires ValidHistory(big, m, TableOf(big, m), w, r, h)
    ensures Voters(m, TableOf(small, m), r + 1) <= Tally(VotesAt(h, r + 1), No)
  {
    GrownViews(small, big, m);
    var r1, r2 := RoundsOf(small, m), RoundsOf(big, m);
    var t1, t2 := TableOf(small, m), TableOf(big, m);
    assert RoundObeys(big, m, t2, w, r, h, r + 1);
    var early, noes := Voters(m, t1, r + 1), Tally(VotesAt(h, r + 1), No);
    forall c | c in early ensures c in noes {
      assert HasEntry(t1, r + 1, c);
      TableGrows(small, r1, t1, big, r2, t2, m, r + 1, c);
      var v := t1[r + 1][c];
      AncGrow(small, big, v);
      AncPresent(small, v);
    }
  }

  /** A supermajority in the first voting round settles the scan there. */
  lemma FirstRoundDecides(w: Id, r: nat, h: History, q: nat, coin: (Id, nat) -> bool)
    requires forall s :: s in h ==> s > r
    requires DecidedBy(h, q, r + 1, No)
    ensures Resolve(w, h, q, coin).decisionRound == Some(r + 1)
  {
    assert r + 1 in DecidingRounds(h, q);
  }

  /** Late witnesses lose: once a view reached round r+2, a round-r witness outside it is voted not famous
      everywhere. */
  lemma LateWitnessLoses(small: Graph, big: Graph, m: set<NodeId>, coin: (Id, nat) -> bool, w: Id, r: nat)
    requires View(big) && View(small) && Extends(small, big)
    requires Reaches(small, m, r + 2)
    requires w in big && w !in small && RoundsOf(big, m)[w] == r
    ensures FameOf(big, m, coin, w).kind == ByVote && !FameOf(big, m, coin, w).famous
    ensures FameOf(big, m, coin, w).decisionRound == Some(r + 1)
  {
    var h := HistoryOf(big, m, TableOf(big, m), w, r);
    QuorumOfWitnesses(small, m, r + 1);
    EarlyVotesNo(small, big, m, w, r, h);
    SubsetCard(Voters(m, TableOf(small, m), r + 1), Tally(VotesAt(h, r + 1), No));
    assert VotesAt(h, r + 1) != map[];
    assert DecidedBy(h, Threshold(|m|), r + 1, No);
    FirstRoundDecides(w, r, h, Threshold(|m|), coin);
    FameMeaning(big, m, coin, w);
  }

  lemma TwoRoundsDecide(w: Id, h: History, q: nat, coin: (Id, nat) -> bool, s1: nat, s2: nat)
    requires s1 in h && s2 in h && s1 != s2
    ensures Resolve(w, h, q, coin).decided
  {
    SubsetCard({s1, s2}, h.Keys);
    assert |h.Keys| == |h|;
  }

  /** Where members hold witnesses in both of the next two rounds, a witness is decided, by vote or by coin. */
  lemma TwoVotesDecide(d: Graph, m: set<NodeId>, coin: (Id, nat) -> bool, w: Id)
    requires View(d) && w in d
    requires Voters(m, TableOf(d, m), RoundsOf(d, m)[w] + 1) != {}
    requires Voters(m, TableOf(d, m), RoundsOf(d, m)[w] + 2) != {}
    ensures FameOf(d, m, coin, w).decided
  {
    var r, t := RoundsOf(d, m)[w], TableOf(d, m);
    var h := HistoryOf(d, m, t, w, r);
    RoundRecorded(d, m, t, w, r, h, r + 1);
    RoundRecorded(d, m, t, w, r, h, r + 2);
    TwoRoundsDecide(w, h, Threshold(|m|), coin, r + 1, r + 2);
  }

  /** Every witness at least three rounds below the top is decided, by vote or by coin. */
  lemma DecisionLag(d: Graph, m: set<NodeId>, coin: (Id, nat) -> bool, w: Id)
    requires View(d) && w in d && Reaches(d, m, RoundsOf(d, m)[w] + 3)
    ensures FameOf(d, m, coin, w).decided
  {
    var r := RoundsOf(d, m)[w];
    QuorumOfWitnesses(d, m, r + 2);
    QuorumOfWitnesses(d, m, r + 1);
    TwoVotesDecide(d, m, coin, w);
  }

  lemma RoundRecorded(d: Graph, m: set<NodeId>, t: Table, w: Id, r: nat, h: History, s: nat)
    requires Acyclic(d) && ValidHistory(d, m, t, w, r, h) && s > r && Voters(m, t, s) != {}
    ensures s in h
  {
    assert RoundObeys(d, m, t, w, r, h, s);
  }
}
