/** The voting loops: histories, their resolution, and the fame table (mdrj/consensus.py:289-412). */
module Counting {
  import opened Prelude
  import opened Quorum
  import opened Dag
  import opened Voting
  import opened Visibility
  import opened Sorting

  predicate NatLe(a: nat, b: nat) { a <= b }

  predicate Increasing(s: seq<nat>) {
    forall i, j :: 0 <= i < j < |s| ==> s[i] < s[j]
  }

  lemma SortedDistinct(s: seq<nat>)
    requires Distinct(s)
    ensures Increasing(Sort(s, NatLe)) && SameElements(s, Sort(s, NatLe))
  {
    assert TotalPreorder(NatLe);
    SortSorts(s, NatLe);
    PermutedDistinct(s, Sort(s, NatLe));
  }

  /** `sorted(keys)` */
  method SortedKeys(keys: set<nat>) returns (ordered: seq<nat>)
    ensures Increasing(ordered) && forall r :: r in ordered <==> r in keys
  {
    var list: seq<nat> := [];
    var rest := keys;
    while rest != {}
      invariant rest <= keys && Distinct(list)
      invariant forall r :: r in list <==> r in keys - rest
      decreases rest
    {
      var r :| r in rest;
      assert r !in list;
      rest := rest - {r};
      list := list + [r];
    }
    SortedDistinct(list);
    ordered := Sort(list, NatLe);
  }

  // ---- One round of voting ----

  /** Direct votes: each member witness of round `s` says whether it can see `w`. */
  method DirectVotes(d: Graph, m: set<NodeId>, t: Table, w: Id, s: nat, cache: AncestorCache)
      returns (votes: RoundVotes)
    requires Acyclic(d) && cache.Valid(d)
    modifies cache
    ensures cache.Valid(d)
    ensures votes.Keys == Voters(m, t, s)
    ensures forall c :: c in votes ==> votes[c] == if Sees(d, t[s][c], w) then Yes else No
  {
    votes := map[];
    var entries: map<NodeId, Id> := if s in t then t[s] else map[];
    var rest := entries.Keys;
    while rest != {}
      invariant cache.Valid(d) && rest <= entries.Keys
      invariant votes.Keys == (entries.Keys - rest) * m
      invariant forall c :: c in votes ==> votes[c] == if Sees(d, entries[c], w) then Yes else No
      decreases rest
    {
      var c :| c in rest;
      rest := rest - {c};
      if c in m {
        var sees := cache.CanSee(d, entries[c], w);
        votes := votes[c := if sees then Yes else No];
      }
    }
  }

  method TallyVotes(votes: RoundVotes) returns (yes: nat, no: nat)
    ensures yes == |Tally(votes, Yes)| && no == |Tally(votes, No)|
  {
    yes, no := 0, 0;
    ghost var inFavor, against := Tally(votes, Yes), Tally(votes, No);
    var rest := votes.Keys;
    while rest != {}
      invariant rest <= votes.Keys
      invariant yes == |inFavor * (votes.Keys - rest)| && no == |against * (votes.Keys - rest)|
      decreases rest
    {
      var c :| c in rest;
      ghost var done := votes.Keys - rest;
      CountStep(inFavor, done, c);
      CountStep(against, done, c);
      rest := rest - {c};
      assert votes.Keys - rest == done + {c};
      if votes[c] == Yes { yes := yes + 1; }
      if votes[c] == No { no := no + 1; }
    }
    CountAll(inFavor, votes.Keys - rest);
    CountAll(against, votes.Keys - rest);
  }

  /** A member of round `s` cast `c`'s vote, and `v` can see that witness. */
  ghost predicate Counts(d: Graph, m: set<NodeId>, t: Table, votes: RoundVotes, s: nat, v: Id, c: NodeId)
    requires Acyclic(d)
  {
    c in votes && votes[c] != Abstain && c in Voters(m, t, s) && Sees(d, v, t[s][c])
  }

  /** The votes of round `s` that `v` can see. */
  method VisibleVotes(d: Graph, m: set<NodeId>, t: Table, votes: RoundVotes, s: nat, v: Id, cache: AncestorCache)
      returns (visible: RoundVotes)
    requires Acyclic(d) && cache.Valid(d)
    modifies cache
    ensures cache.Valid(d)
    ensures forall c :: c in visible <==> Counts(d, m, t, votes, s, v, c)
    ensures forall c :: c in visible ==> c in votes && visible[c] == votes[c]
  {
    visible := map[];
    var rest := votes.Keys;
    while rest != {}
      invariant cache.Valid(d) && rest <= votes.Keys
      invariant forall c :: c in visible <==> c !in rest && Counts(d, m, t, votes, s, v, c)
      invariant forall c :: c in visible ==> visible[c] == votes[c]
      decreases rest
    {
      var c :| c in rest;
      rest := rest - {c};
      if c in m && s in t && c in t[s] && votes[c] != Abstain {
        var sees := cache.CanSee(d, v, t[s][c]);
        if sees { visible := visible[c := votes[c]]; }
      }
    }
  }

  lemma VisibleTally(d: Graph, m: set<NodeId>, t: Table, votes: RoundVotes, s: nat, v: Id, visible: RoundVotes,
                     b: Ballot)
    requires Acyclic(d) && b != Abstain
    requires forall c :: c in visible <==> Counts(d, m, t, votes, s, v, c)
    requires forall c :: c in visible ==> c in votes && visible[c] == votes[c]
    ensures Tally(visible, b) == Backers(d, m, t, votes, s, v, b)
  {
    forall c ensures c in Tally(visible, b) <==> c in Backers(d, m, t, votes, s, v, b) {
      assert c in visible <==> Counts(d, m, t, votes, s, v, c);
    }
  }

  /** The vote of a later witness: with a supermajority it can see, or undecided. */
  method FollowMajority(d: Graph, m: set<NodeId>, t: Table, votes: RoundVotes, s: nat, v: Id, cache: AncestorCache)
      returns (ballot: Ballot)
    requires Acyclic(d) && cache.Valid(d)
    modifies cache
    ensures cache.Valid(d)
    ensures ballot == CastBallot(d, m, t, votes, s, v)
  {
    var visible := VisibleVotes(d, m, t, votes, s, v, cache);
    var yes, no := TallyVotes(visible);
    VisibleTally(d, m, t, votes, s, v, visible, Yes);
    VisibleTally(d, m, t, votes, s, v, visible, No);
    ballot := Judge(yes, no, Threshold(|m|));
  }

  /** Indirect votes: each member witness of round `later` follows a visible supermajority of round `s`, or abstains. */
  method IndirectVotes(d: Graph, m: set<NodeId>, t: Table, previous: RoundVotes, s: nat, later: nat,
                       cache: AncestorCache)
      returns (votes: RoundVotes)
    requires Acyclic(d) && cache.Valid(d)
    modifies cache
    ensures cache.Valid(d)
    ensures votes.Keys == Voters(m, t, later)
    ensures forall c :: c in votes ==> votes[c] == CastBallot(d, m, t, previous, s, t[later][c])
  {
    votes := map[];
    var entries: map<NodeId, Id> := if later in t then t[later] else map[];
    var rest := entries.Keys;
    while rest != {}
      invariant cache.Valid(d) && rest <= entries.Keys
      invariant votes.Keys == (entries.Keys - rest) * m
      invariant forall c :: c in votes ==> votes[c] == CastBallot(d, m, t, previous, s, entries[c])
      decreases rest
    {
      var c :| c in rest;
      rest := rest - {c};
      if c in m {
        var ballot := FollowMajority(d, m, t, previous, s, entries[c], cache);
        votes := votes[c := ballot];
      }
    }
  }

  // ---- The whole history of one witness ----

  /** The history is complete and correct up to round `top`, and empty above. */
  ghost predicate ObeysUpTo(d: Graph, m: set<NodeId>, t: Table, w: Id, r: nat, h: History, top: nat)
    requires Acyclic(d)
  {
    && (forall s :: s in h ==> r < s <= top)
    && (forall s: nat {:trigger RoundObeys(d, m, t, w, r, h, s)} :: r < s <= top ==> RoundObeys(d, m, t, w, r, h, s))
  }

  function WithVotes(h: History, s: nat, votes: RoundVotes): History {
    if votes == map[] then h else h[s := votes]
  }

  lemma OlderRoundKept(d: Graph, m: set<NodeId>, t: Table, w: Id, r: nat, h: History, s: nat, later: nat,
                       votes: RoundVotes)
    requires Acyclic(d) && r < s < later && RoundObeys(d, m, t, w, r, h, s)
    ensures RoundObeys(d, m, t, w, r, WithVotes(h, later, votes), s)
  {
    var h' := WithVotes(h, later, votes);
    assert VotesAt(h', s) == VotesAt(h, s);
    assert s > r + 1 ==> VotesAt(h', s - 1) == VotesAt(h, s - 1);
  }

  lemma EmptyRoundObeys(d: Graph, m: set<NodeId>, t: Table, w: Id, r: nat, h: History, s: nat)
    requires Acyclic(d) && s > r && s !in h && s !in t
    ensures RoundObeys(d, m, t, w, r, h, s)
  {
  }

  /** Votes of a round without witnesses are never counted. */
  lemma NoBackers(d: Graph, m: set<NodeId>, t: Table, a: RoundVotes, b: RoundVotes, s: nat, v: Id)
    requires Acyclic(d) && s !in t
    ensures CastBallot(d, m, t, a, s, v) == CastBallot(d, m, t, b, s, v)
  {
    assert Backers(d, m, t, a, s, v, Yes) == Backers(d, m, t, b, s, v, Yes);
    assert Backers(d, m, t, a, s, v, No) == Backers(d, m, t, b, s, v, No);
  }

  lemma NewRoundObeys(d: Graph, m: set<NodeId>, t: Table, w: Id, r: nat, h: History, p: nat, later: nat,
                      previous: RoundVotes, votes: RoundVotes)
    requires Acyclic(d) && p > r && later == p + 1 && later !in h
    requires p in t ==> previous == VotesAt(h, p)
    requires votes.Keys == Voters(m, t, later)
    requires forall c :: c in votes ==> votes[c] == CastBallot(d, m, t, previous, p, t[later][c])
    ensures RoundObeys(d, m, t, w, r, WithVotes(h, later, votes), later)
  {
    var h' := WithVotes(h, later, votes);
    assert VotesAt(h', later) == votes && VotesAt(h', p) == VotesAt(h, p);
    forall c | c in votes ensures votes[c] == CastBallot(d, m, t, VotesAt(h', p), p, t[later][c]) {
      if p !in t { NoBackers(d, m, t, previous, VotesAt(h', p), p, t[later][c]); }
    }
  }

  lemma HistoryStep(d: Graph, m: set<NodeId>, t: Table, w: Id, r: nat, h: History, top: nat, p: nat, later: nat,
                    previous: RoundVotes, votes: RoundVotes)
    requires Acyclic(d) && ObeysUpTo(d, m, t, w, r, h, top) && r < top < later && later == p + 1
    requires forall s :: top < s < later ==> s !in t
    requires previous == VotesAt(h, top) && votes.Keys == Voters(m, t, later)
    requires forall c :: c in votes ==> votes[c] == CastBallot(d, m, t, previous, p, t[later][c])
    ensures ObeysUpTo(d, m, t, w, r, WithVotes(h, later, votes), later)
    ensures VotesAt(WithVotes(h, later, votes), later) == votes
  {
    var h' := WithVotes(h, later, votes);
    forall s: nat | r < s <= later ensures RoundObeys(d, m, t, w, r, h', s) {
      if s <= top {
        assert RoundObeys(d, m, t, w, r, h, s);
        OlderRoundKept(d, m, t, w, r, h, s, later, votes);
      } else if s < later {
        EmptyRoundObeys(d, m, t, w, r, h', s);
      } else {
        NewRoundObeys(d, m, t, w, r, h, p, later, previous, votes);
      }
    }
  }

  lemma HistoryComplete(d: Graph, m: set<NodeId>, t: Table, w: Id, r: nat, h: History, top: nat)
    requires Acyclic(d) && ObeysUpTo(d, m, t, w, r, h, top) && forall s :: s in t ==> s <= top
    ensures ValidHistory(d, m, t, w, r, h)
  {
    forall s: nat | s > r ensures RoundObeys(d, m, t, w, r, h, s) {
      if s > top { EmptyRoundObeys(d, m, t, w, r, h, s); }
    }
  }

  /** One turn of the voting loop. */
  method ExtendHistory(d: Graph, m: set<NodeId>, t: Table, w: Id, r: nat, h: History, previous: RoundVotes, later: nat,
                       cache: AncestorCache, ghost top: nat)
      returns (h': History, votes: RoundVotes)
    requires Acyclic(d) && cache.Valid(d)
    requires ObeysUpTo(d, m, t, w, r, h, top) && r < top < later
    requires forall s :: top < s < later ==> s !in t
    requires previous == VotesAt(h, top)
    modifies cache
    ensures cache.Valid(d)
    ensures ObeysUpTo(d, m, t, w, r, h', later) && votes == VotesAt(h', later)
  {
    var p: nat := later - 1;
    votes := IndirectVotes(d, m, t, previous, p, later, cache);
    HistoryStep(d, m, t, w, r, h, top, p, later, previous, votes);
    h' := WithVotes(h, later, votes);
  }

  method CollectVotes(d: Graph, m: set<NodeId>, t: Table, ordered: seq<nat>, w: Id, r: nat, cache: AncestorCache)
      returns (h: History)
    requires Acyclic(d) && cache.Valid(d)
    requires Increasing(ordered) && forall s :: s in ordered <==> s in t
    modifies cache
    ensures cache.Valid(d)
    ensures ValidHistory(d, m, t, w, r, h) && Truthful(d, m, t, w, r, h)
  {
    var previous := DirectVotes(d, m, t, w, r + 1, cache);
    h := WithVotes(map[], r + 1, previous);
    ghost var top := r + 1;
    for k := 0 to |ordered|
      invariant cache.Valid(d) && top > r && ObeysUpTo(d, m, t, w, r, h, top)
      invariant previous == VotesAt(h, top)
      invariant forall j :: 0 <= j < k ==> ordered[j] <= top
      invariant forall s :: s in t && s > top ==> s in ordered[k..]
      invariant top == r + 1 || (k > 0 && top == ordered[k - 1])
    {
      var later := ordered[k];
      if later > r + 1 {
        h, previous := ExtendHistory(d, m, t, w, r, h, previous, later, cache, top);
        top := later;
      }
    }
    HistoryComplete(d, m, t, w, r, h, top);
    HistoryTruthful(d, m, t, w, r, h);
  }

  // ---- Reading a decision off a history ----

  lemma FirstDeciding(w: Id, h: History, threshold: nat, coin: (Id, nat) -> bool, s: nat)
    requires s in h && Decides(h[s], threshold)
    requires forall x :: x in h && x < s ==> !Decides(h[x], threshold)
    ensures Resolve(w, h, threshold, coin) ==
      Fame(|Tally(h[s], Yes)| >= threshold, true, Some(s), ByVote, false, false, None,
           Some(s), |Tally(h[s], Yes)|, |Tally(h[s], No)|)
  {
    assert s in DecidingRounds(h, threshold);
  }

  lemma NoneDeciding(w: Id, h: History, threshold: nat, coin: (Id, nat) -> bool, last: nat)
    requires forall x :: x in h ==> !Decides(h[x], threshold)
    requires h != map[] ==> last in h && forall x :: x in h ==> x <= last
    ensures h == map[] ==>
      Resolve(w, h, threshold, coin) == Fame(false, false, None, Pending, false, false, None, None, 0, 0)
    ensures h != map[] ==> var yes, no := |Tally(h[last], Yes)|, |Tally(h[last], No)|;
      Resolve(w, h, threshold, coin) ==
        if |h| >= 2 then Fame(coin(w, last), true, Some(last), ByCoin, false, true, Some(last), Some(last), yes, no)
        else Fame(false, false, None, Pending, false, false, None, Some(last), yes, no)
  {
    assert DecidingRounds(h, threshold) == {};
  }

  /** `s` is the first round with a supermajority of either ballot. */
  ghost predicate DecidesFirst(h: History, threshold: nat, s: nat) {
    && s in h && Decides(h[s], threshold)
    && forall x :: x in h && x < s ==> !Decides(h[x], threshold)
  }

  ghost predicate LastOpen(h: History, threshold: nat, last: nat) {
    && last in h && (forall x :: x in h ==> x <= last)
    && forall x :: x in h ==> !Decides(h[x], threshold)
  }

  /** The fame a history gives: decided by vote in its first deciding round; failing that, tossed in its last round once
      two rounds have voted; failing that, pending. The tallies are those of the round last looked at. */
  ghost predicate ReadOff(w: Id, h: History, threshold: nat, coin: (Id, nat) -> bool, fame: Fame) {
    && (forall s: nat :: DecidesFirst(h, threshold, s) ==>
          && fame.decided && fame.kind == ByVote && fame.decisionRound == fame.voteRound == Some(s)
          && !fame.coinUsed && fame.coinRound == None
          && (fame.famous <==> |Tally(h[s], Yes)| >= threshold))
    && (forall last: nat :: LastOpen(h, threshold, last) ==>
          && fame.voteRound == Some(last)
          && if |h| >= 2 then
               && fame.decided && fame.kind == ByCoin && fame.famous == coin(w, last)
               && fame.coinUsed && fame.decisionRound == fame.coinRound == Some(last)
             else
               && !fame.decided && !fame.famous && fame.kind == Pending
               && !fame.coinUsed && fame.decisionRound == fame.coinRound == None)
    && (h == map[] ==> !fame.decided && !fame.famous && fame.kind == Pending && fame.voteRound == None)
    && !fame.needsCoin
    && (match fame.voteRound
        case Some(s) => s in h && fame.voteYes == |Tally(h[s], Yes)| && fame.voteNo == |Tally(h[s], No)|
        case None => fame.voteYes == fame.voteNo == 0)
  }

  lemma ResolveMeaning(w: Id, h: History, threshold: nat, coin: (Id, nat) -> bool)
    ensures ReadOff(w, h, threshold, coin, Resolve(w, h, threshold, coin))
  {
    forall s: nat | DecidesFirst(h, threshold, s) ensures s in DecidingRounds(h, threshold) { }
    forall last: nat | LastOpen(h, threshold, last)
      ensures DecidingRounds(h, threshold) == {} && last == Max(h.Keys)
    {
    }
  }

  /** Scan the vote rounds in order; the first supermajority decides, else a coin once two rounds have voted. */
  method ResolveFame(w: Id, h: History, threshold: nat, coin: (Id, nat) -> bool) returns (fame: Fame)
    ensures fame == Resolve(w, h, threshold, coin) && ReadOff(w, h, threshold, coin, fame)
  {
    ResolveMeaning(w, h, threshold, coin);
    fame := Fame(false, false, None, Pending, false, false, None, None, 0, 0);
    var ordered := SortedKeys(h.Keys);
    for k := 0 to |ordered|
      invariant forall j :: 0 <= j < k ==> !Decides(h[ordered[j]], threshold)
      invariant k == 0 ==> fame == Fame(false, false, None, Pending, false, false, None, None, 0, 0)
      invariant k > 0 ==> fame == Fame(false, false, None, Pending, false, false, None, Some(ordered[k - 1]),
                                       |Tally(h[ordered[k - 1]], Yes)|, |Tally(h[ordered[k - 1]], No)|)
    {
      var s := ordered[k];
      assert s in ordered;
      var yes, no := TallyVotes(h[s]);
      fame := fame.(voteRound := Some(s), voteYes := yes, voteNo := no);
      if yes >= threshold || no >= threshold {
        FirstDeciding(w, h, threshold, coin, s);
        fame := fame.(famous := yes >= threshold, decided := true, decisionRound := Some(s), kind := ByVote);
        return;
      }
    }
    LastScanned(h, ordered, threshold);
    if |h| >= 2 {
      var last := ordered[|ordered| - 1];
      NoneDeciding(w, h, threshold, coin, last);
      fame := fame.(famous := coin(w, last), decided := true, decisionRound := Some(last), kind := ByCoin,
                    coinUsed := true, coinRound := Some(last));
    } else {
      NoneDeciding(w, h, threshold, coin, if ordered == [] then 0 else ordered[|ordered| - 1]);
    }
  }

  lemma LastScanned(h: History, ordered: seq<nat>, threshold: nat)
    requires Increasing(ordered) && (forall r :: r in ordered <==> r in h)
    requires forall j :: 0 <= j < |ordered| ==> ordered[j] in h && !Decides(h[ordered[j]], threshold)
    ensures forall x :: x in h ==> !Decides(h[x], threshold)
    ensures h != map[] <==> ordered != []
    ensures ordered != [] ==> ordered[|ordered| - 1] in h && forall x :: x in h ==> x <= ordered[|ordered| - 1]
  {
    forall x | x in h ensures ordered != [] && x <= ordered[|ordered| - 1] && !Decides(h[x], threshold) {
      var j :| 0 <= j < |ordered| && ordered[j] == x;
    }
    if ordered != [] { assert ordered[0] in h; }
  }
}
