/** Fame voting over witness visibility (mdrj/consensus.py:289-408). */
module Voting {
  import opened Prelude
  import opened Quorum
  import opened Dag
  import opened Rounds

  /** round -> creator -> witness, the `witnesses_by_round` dictionary. */
  type Table = map<nat, map<NodeId, Id>>

  datatype Ballot = Yes | No | Abstain
  type RoundVotes = map<NodeId, Ballot>
  type History = map<nat, RoundVotes>

  datatype Kind = Pending | ByVote | ByCoin

  datatype Fame = Fame(
    famous: bool,
    decided: bool,
    decisionRound: Option<nat>,
    kind: Kind,
    needsCoin: bool,
    coinUsed: bool,
    coinRound: Option<nat>,
    voteRound: Option<nat>,
    voteYes: nat,
    voteNo: nat)

  predicate HasEntry(t: Table, r: nat, c: NodeId) {
    r in t && c in t[r]
  }

  predicate Listed(d: Graph, rounds: RoundMap, t: Table, x: Id)
    requires x in d
  {
    x in rounds && HasEntry(t, rounds[x], d[x].creator)
  }

  /** The table lists exactly the witnesses of the history. */
  ghost predicate IsTable(d: Graph, rounds: RoundMap, t: Table)
    requires Acyclic(d)
  {
    && rounds.Keys == d.Keys
    && (forall r {:trigger t[r]} :: r in t ==> t[r] != map[])
    && (forall r, c {:trigger HasEntry(t, r, c)} :: HasEntry(t, r, c) ==> WitnessOf(d, rounds, t[r][c], r, c))
    && (forall x {:trigger Listed(d, rounds, t, x)} :: x in d ==> Listed(d, rounds, t, x))
  }

  /** The table lists events under rounds they were given. */
  ghost predicate EntriesMatch(t: Table, rounds: RoundMap) {
    forall r, c {:trigger HasEntry(t, r, c)} :: HasEntry(t, r, c) ==> t[r][c] in rounds && rounds[t[r][c]] == r
  }

  /** A view together with its rounds and its witness table. */
  ghost predicate Annotated(d: Graph, m: set<NodeId>, rounds: RoundMap, t: Table) {
    View(d) && ValidRounds(d, m, rounds) && IsTable(d, rounds, t)
  }

  ghost function Voters(m: set<NodeId>, t: Table, s: nat): set<NodeId> {
    if s in t then t[s].Keys * m else {}
  }

  /** Voters of round `s` that cast `b` in `votes` and whose witness `v` can see. */
  ghost function Backers(d: Graph, m: set<NodeId>, t: Table, votes: RoundVotes, s: nat, v: Id, b: Ballot): set<NodeId>
    requires Acyclic(d)
  {
    set c | c in Voters(m, t, s) && c in votes && votes[c] == b && Sees(d, v, t[s][c])
  }

  function Judge(yes: nat, no: nat, threshold: nat): Ballot {
    if yes >= threshold then Yes else if no >= threshold then No else Abstain
  }

  /** The vote a later witness `v` casts from the visible votes of round `s`. */
  ghost function CastBallot(d: Graph, m: set<NodeId>, t: Table, votes: RoundVotes, s: nat, v: Id): Ballot
    requires Acyclic(d)
  {
    Judge(|Backers(d, m, t, votes, s, v, Yes)|, |Backers(d, m, t, votes, s, v, No)|, Threshold(|m|))
  }

  ghost function VotesAt(h: History, s: nat): RoundVotes {
    if s in h then h[s] else map[]
  }

  ghost function BallotAt(d: Graph, m: set<NodeId>, t: Table, w: Id, r: nat, h: History, s: nat, v: Id): Ballot
    requires Acyclic(d) && s > r
  {
    if s == r + 1 then (if Sees(d, v, w) then Yes else No)
    else CastBallot(d, m, t, VotesAt(h, s - 1), s - 1, v)
  }

  ghost predicate RoundObeys(d: Graph, m: set<NodeId>, t: Table, w: Id, r: nat, h: History, s: nat)
    requires Acyclic(d) && s > r
  {
    && (s in h <==> Voters(m, t, s) != {})
    && VotesAt(h, s).Keys == Voters(m, t, s)
    && forall c :: c in Voters(m, t, s) ==> VotesAt(h, s)[c] == BallotAt(d, m, t, w, r, h, s, t[s][c])
  }

  /** The vote history of round-`r` witness `w`: every later round with a member witness, every ballot by the rule. */
  ghost predicate ValidHistory(d: Graph, m: set<NodeId>, t: Table, w: Id, r: nat, h: History)
    requires Acyclic(d)
  {
    && (forall s :: s in h ==> s > r)
    && (forall s: nat {:trigger RoundObeys(d, m, t, w, r, h, s)} :: s > r ==> RoundObeys(d, m, t, w, r, h, s))
  }

  function Tally(votes: RoundVotes, b: Ballot): set<NodeId> {
    set c | c in votes && votes[c] == b
  }

  ghost predicate Decides(votes: RoundVotes, threshold: nat) {
    |Tally(votes, Yes)| >= threshold || |Tally(votes, No)| >= threshold
  }

  ghost predicate DecidedBy(h: History, threshold: nat, s: nat, b: Ballot) {
    s in h && |Tally(h[s], b)| >= threshold
  }

  /** Some round of the history carries a supermajority for `b`. */
  ghost predicate Decided(h: History, threshold: nat, b: Ballot) {
    exists s: nat :: DecidedBy(h, threshold, s, b)
  }

  ghost function DecidingRounds(h: History, threshold: nat): set<nat> {
    set s | s in h && Decides(h[s], threshold)
  }

  /** What the scan over a vote history concludes. */
  ghost function Resolve(w: Id, h: History, threshold: nat, coin: (Id, nat) -> bool): Fame {
    var deciding := DecidingRounds(h, threshold);
    if deciding != {} then
      var s := Min(deciding);
      Fame(|Tally(h[s], Yes)| >= threshold, true, Some(s), ByVote, false, false, None,
           Some(s), |Tally(h[s], Yes)|, |Tally(h[s], No)|)
    else if h == map[] then
      Fame(false, false, None, Pending, false, false, None, None, 0, 0)
    else
      var last := Max(h.Keys);
      var yes, no := |Tally(h[last], Yes)|, |Tally(h[last], No)|;
      if |h| >= 2 then Fame(coin(w, last), true, Some(last), ByCoin, false, true, Some(last), Some(last), yes, no)
      else Fame(false, false, None, Pending, false, false, None, Some(last), yes, no)
  }

  // ---- Safety of votes inside one history ----

  function Opposite(b: Ballot): Ballot {
    match b case Yes => No case No => Yes case Abstain => Abstain
  }

  lemma VotersWithin(d: Graph, m: set<NodeId>, t: Table, w: Id, r: nat, h: History, s: nat)
    requires Acyclic(d) && ValidHistory(d, m, t, w, r, h) && s > r
    ensures VotesAt(h, s).Keys <= m && VotesAt(h, s).Keys == Voters(m, t, s)
  {
    assert RoundObeys(d, m, t, w, r, h, s);
  }

  /** The member voters of round `s` that answered `b` and whose witness is at or below `v`. */
  ghost function Heard(d: Graph, m: set<NodeId>, t: Table, votes: RoundVotes, s: nat, v: Id, b: Ballot): set<NodeId>
    requires Acyclic(d)
  {
    set e | e in votes && e in m && HasEntry(t, s, e) && votes[e] == b && (t[s][e] == v || t[s][e] in Anc(d, v))
  }

  /** From its second round on, a vote is Yes exactly on hearing a supermajority of Yes, No exactly on hearing a
      supermajority of No, and abstains otherwise. */
  lemma LaterVotes(d: Graph, m: set<NodeId>, t: Table, w: Id, r: nat, h: History, s: nat, c: NodeId)
    requires Acyclic(d) && ValidHistory(d, m, t, w, r, h) && s > r && c in m && HasEntry(t, s + 1, c)
    ensures s + 1 in h && c in h[s + 1]
    ensures h[s + 1][c] == Yes <==> |Heard(d, m, t, VotesAt(h, s), s, t[s + 1][c], Yes)| >= Threshold(|m|)
    ensures h[s + 1][c] == No <==> |Heard(d, m, t, VotesAt(h, s), s, t[s + 1][c], No)| >= Threshold(|m|)
  {
    var votes, v := VotesAt(h, s), t[s + 1][c];
    assert RoundObeys(d, m, t, w, r, h, s + 1);
    VotersWithin(d, m, t, w, r, h, s);
    var yes, no := Heard(d, m, t, votes, s, v, Yes), Heard(d, m, t, votes, s, v, No);
    assert yes == Backers(d, m, t, votes, s, v, Yes) && no == Backers(d, m, t, votes, s, v, No);
    if |yes| >= Threshold(|m|) { MinorityOutside(yes, no, m); }
  }

  /** What a vote history says, ballot by ballot: the first voting round answers what it sees, every later one follows
      the supermajority it hears. */
  ghost predicate Truthful(d: Graph, m: set<NodeId>, t: Table, w: Id, r: nat, h: History)
    requires Acyclic(d)
  {
    && (forall s, c :: s in h && c in h[s] ==> s > r && c in m && HasEntry(t, s, c))
    && (forall s :: s in h ==> h[s] != map[])
    && forall s: nat, c {:trigger HasEntry(t, s, c)} :: s > r && c in m && HasEntry(t, s, c) ==>
         && s in h && c in h[s]
         && if s == r + 1 then h[s][c] == if t[s][c] == w || w in Anc(d, t[s][c]) then Yes else No
            else
              && (h[s][c] == Yes <==> |Heard(d, m, t, VotesAt(h, s - 1), s - 1, t[s][c], Yes)| >= Threshold(|m|))
              && (h[s][c] == No <==> |Heard(d, m, t, VotesAt(h, s - 1), s - 1, t[s][c], No)| >= Threshold(|m|))
  }

  lemma HistoryTruthful(d: Graph, m: set<NodeId>, t: Table, w: Id, r: nat, h: History)
    requires Acyclic(d) && ValidHistory(d, m, t, w, r, h)
    ensures Truthful(d, m, t, w, r, h)
  {
    forall s | s in h ensures h[s] != map[] && forall c :: c in h[s] ==> c in m && HasEntry(t, s, c) {
      assert RoundObeys(d, m, t, w, r, h, s);
    }
    forall s: nat, c | s > r && c in m && HasEntry(t, s, c) ensures s in h && c in h[s] {
      assert RoundObeys(d, m, t, w, r, h, s);
    }
    forall s: nat, c | s > r + 1 && c in m && HasEntry(t, s, c)
      ensures s in h && c in h[s]
      ensures h[s][c] == Yes <==> |Heard(d, m, t, VotesAt(h, s - 1), s - 1, t[s][c], Yes)| >= Threshold(|m|)
      ensures h[s][c] == No <==> |Heard(d, m, t, VotesAt(h, s - 1), s - 1, t[s][c], No)| >= Threshold(|m|)
    {
      LaterVotes(d, m, t, w, r, h, s - 1, c);
    }
    forall c | c in m && HasEntry(t, r + 1, c)
      ensures r + 1 in h && c in h[r + 1]
      ensures h[r + 1][c] == if t[r + 1][c] == w || w in Anc(d, t[r + 1][c]) then Yes else No
    {
      assert RoundObeys(d, m, t, w, r, h, r + 1);
    }
  }

  /** A minority of one round convinces nobody in the next. */
  lemma NoneFollow(d: Graph, m: set<NodeId>, t: Table, w: Id, r: nat, h: History, later: nat, v: Ballot)
    requires Acyclic(d) && ValidHistory(d, m, t, w, r, h) && later > r + 1 && v != Abstain
    requires |Tally(VotesAt(h, later - 1), v)| < Threshold(|m|)
    ensures Tally(VotesAt(h, later), v) == {}
  {
    var prev := VotesAt(h, later - 1);
    assert RoundObeys(d, m, t, w, r, h, later);
    forall c | c in VotesAt(h, later) ensures VotesAt(h, later)[c] != v {
      SubsetCard(Backers(d, m, t, prev, later - 1, t[later][c], v), Tally(prev, v));
    }
  }

  /** Once a supermajority agrees at one round, no later witness casts the opposite vote. */
  lemma {:induction false} NoOppositeVote(d: Graph, m: set<NodeId>, t: Table, w: Id, r: nat, h: History, s: nat,
                                          later: nat, b: Ballot)
    requires Acyclic(d) && ValidHistory(d, m, t, w, r, h) && b != Abstain
    requires DecidedBy(h, Threshold(|m|), s, b) && later > s
    ensures Tally(VotesAt(h, later), Opposite(b)) == {}
    decreases later
  {
    var prev := VotesAt(h, later - 1);
    VotersWithin(d, m, t, w, r, h, later - 1);
    assert |Tally(prev, Opposite(b))| < Threshold(|m|) by {
      if later == s + 1 {
        MinorityOutside(Tally(prev, b), Tally(prev, Opposite(b)), m);
      } else {
        NoOppositeVote(d, m, t, w, r, h, s, later - 1, b);
      }
    }
    NoneFollow(d, m, t, w, r, h, later, Opposite(b));
  }

  /** No history carries supermajorities both ways. */
  lemma NotBothWays(d: Graph, m: set<NodeId>, t: Table, w: Id, r: nat, h: History)
    requires Acyclic(d) && ValidHistory(d, m, t, w, r, h)
    ensures !(Decided(h, Threshold(|m|), Yes) && Decided(h, Threshold(|m|), No))
  {
    if Decided(h, Threshold(|m|), Yes) && Decided(h, Threshold(|m|), No) {
      var a: nat :| DecidedBy(h, Threshold(|m|), a, Yes);
      var b: nat :| DecidedBy(h, Threshold(|m|), b, No);
      if a < b {
        NoOppositeVote(d, m, t, w, r, h, a, b, Yes);
      } else if b < a {
        NoOppositeVote(d, m, t, w, r, h, b, a, No);
      } else {
        VotersWithin(d, m, t, w, r, h, a);
        MinorityOutside(Tally(h[a], Yes), Tally(h[a], No), m);
      }
    }
  }

  /** A decision of kind "vote" means exactly that some round holds a supermajority for that value. */
  lemma VoteMeaning(d: Graph, m: set<NodeId>, t: Table, w: Id, r: nat, h: History, coin: (Id, nat) -> bool)
    requires Acyclic(d) && ValidHistory(d, m, t, w, r, h)
    ensures var fame := Resolve(w, h, Threshold(|m|), coin);
      && (fame.kind == ByVote && fame.famous <==> Decided(h, Threshold(|m|), Yes))
      && (fame.kind == ByVote && !fame.famous <==> Decided(h, Threshold(|m|), No))
  {
    NotBothWays(d, m, t, w, r, h);
    var q := Threshold(|m|);
    var deciding := DecidingRounds(h, q);
    if deciding != {} {
      var s := Min(deciding);
      assert DecidedBy(h, q, s, Yes) || DecidedBy(h, q, s, No);
    } else {
      forall s: nat, b | DecidedBy(h, q, s, b) && b != Abstain ensures s in deciding { }
    }
  }
}
