/** Checkpoint records: which root a round is pinned to, who signed it, when it is confirmed
    (mdrj/node.py:1790-1860, mdrj/checkpoint.py:112-119, mdrj/storage.py:690-719). */
module Checkpoints {
  import opened Prelude
  import opened Dag

  type Digest = seq<char>

  datatype Proposal = Proposal(round: nat, root: Digest, membersHash: Digest, proposer: NodeId, signature: Digest)

  datatype Status = Pending | Confirmed

  datatype Checkpoint = Checkpoint(
    root: Digest,
    membersHash: Digest,
    signatures: map<NodeId, Digest>,
    status: Status,
    confirmedAt: Option<real>)

  type Table = map<nat, Checkpoint>

  /** Two thirds of the members, rounded up. */
  function QuorumSize(members: set<NodeId>): (q: nat)
    ensures 3 * q >= 2 * |members| && 3 * q <= 2 * |members| + 2
  {
    (2 * |members| + 2) / 3
  }

  predicate IsQuorumReached(signers: set<NodeId>, members: set<NodeId>) {
    members != {} && |members * signers| >= QuorumSize(members)
  }

  /** At least two thirds of the members signed, and there is somebody to sign. */
  lemma QuorumMeaning(signers: set<NodeId>, members: set<NodeId>)
    ensures IsQuorumReached(signers, members) <==> members != {} && 3 * |members * signers| >= 2 * |members|
  {
  }

  function Recorded(existing: Option<Checkpoint>, p: Proposal, members: set<NodeId>, now: real): Checkpoint {
    if existing.Some? && existing.value.root != p.root then existing.value
    else
      var signatures := (if existing.Some? then existing.value.signatures else map[])[p.proposer := p.signature];
      if IsQuorumReached(signatures.Keys, members) then
        Checkpoint(p.root, p.membersHash, signatures, Confirmed, Some(now))
      else
        Checkpoint(p.root, p.membersHash, signatures,
                   if existing.Some? then existing.value.status else Pending,
                   if existing.Some? then existing.value.confirmedAt else None)
  }

  function At(t: Table, r: nat): Option<Checkpoint> {
    if r in t then Some(t[r]) else None
  }

  function ConfirmedRounds(t: Table): set<nat> {
    set r | r in t && t[r].status == Confirmed
  }

  class CheckpointLedger {
    var table: Table
    var confirmedCount: nat

    constructor ()
      ensures table == map[] && confirmedCount == 0
      ensures forall members :: Valid(members)
    {
      table, confirmedCount := map[], 0;
    }

    /** Status follows the signatures, and the counter counts the confirmed rounds. */
    ghost predicate Valid(members: set<NodeId>)
      reads this
    {
      Consistent(table, members) && confirmedCount == |ConfirmedRounds(table)|
    }

    /** `_record_proposal_signature` */
    method RecordProposal(p: Proposal, members: set<NodeId>, now: real) returns (checkpoint: Checkpoint)
      modifies this
      ensures checkpoint == Recorded(At(old(table), p.round), p, members, now)
      ensures table == old(table)[p.round := checkpoint]
      ensures p.round in old(table) && old(table)[p.round].status == Confirmed ==>
        checkpoint.status == Confirmed && checkpoint.confirmedAt in {old(table)[p.round].confirmedAt, Some(now)}
      ensures old(Valid(members)) ==> Valid(members)
    {
      var existing := At(table, p.round);
      RecordConsistent(table, p, members, now);
      CountConfirmed(table, p.round, Recorded(existing, p, members, now));
      if existing.Some? && existing.value.root != p.root {
        assert table == table[p.round := existing.value];
        return existing.value;
      }
      var signatures: map<NodeId, Digest> := if existing.Some? then existing.value.signatures else map[];
      signatures := signatures[p.proposer := p.signature];
      var wasConfirmed := existing.Some? && existing.value.status == Confirmed;
      var status, confirmedAt;
      if IsQuorumReached(signatures.Keys, members) {
        status, confirmedAt := Confirmed, Some(now);
        if !wasConfirmed { confirmedCount := confirmedCount + 1; }
      } else {
        status := if existing.Some? && existing.value.status == Confirmed then existing.value.status else Pending;
        confirmedAt := if existing.Some? && existing.value.confirmedAt.Some? then existing.value.confirmedAt else None;
      }
      checkpoint := Checkpoint(p.root, p.membersHash, signatures, status, confirmedAt);
      table := table[p.round := checkpoint];
    }
  }

  // ---- One step ----

  /** Status follows the signatures. */
  ghost predicate Consistent(t: Table, members: set<NodeId>) {
    forall r :: r in t ==> (t[r].status == Confirmed <==> IsQuorumReached(t[r].signatures.Keys, members))
  }

  lemma {:induction false} MoreSigners(a: set<NodeId>, b: set<NodeId>, members: set<NodeId>)
    requires a <= b && IsQuorumReached(a, members)
    ensures IsQuorumReached(b, members)
  {
    SubsetCard(members * a, members * b);
  }

  /** A round whose status follows its signatures keeps doing so, and stays confirmed once it is. */
  lemma {:induction false} RecordStays(c: Checkpoint, p: Proposal, members: set<NodeId>, now: real)
    requires c.status == Confirmed <==> IsQuorumReached(c.signatures.Keys, members)
    ensures var r := Recorded(Some(c), p, members, now);
      && (r.status == Confirmed <==> IsQuorumReached(r.signatures.Keys, members))
      && (c.status == Confirmed ==> r.status == Confirmed)
  {
    if c.status == Confirmed {
      MoreSigners(c.signatures.Keys, c.signatures.Keys + {p.proposer}, members);
      assert c.signatures[p.proposer := p.signature].Keys == c.signatures.Keys + {p.proposer};
    }
  }

  lemma {:induction false} RecordConsistent(t: Table, p: Proposal, members: set<NodeId>, now: real)
    ensures Consistent(t, members) ==> Consistent(t[p.round := Recorded(At(t, p.round), p, members, now)], members)
    ensures Consistent(t, members) && p.round in t && t[p.round].status == Confirmed ==>
      Recorded(At(t, p.round), p, members, now).status == Confirmed
  {
    if Consistent(t, members) && p.round in t {
      RecordStays(t[p.round], p, members, now);
    }
  }

  lemma {:induction false} ConfirmedAfter(t: Table, r: nat, c: Checkpoint)
    ensures ConfirmedRounds(t[r := c]) == ConfirmedRounds(t) - {r} + if c.status == Confirmed then {r} else {}
  {
  }

  lemma {:induction false} CountWith(s: set<nat>, r: nat, present: bool)
    ensures |s - {r} + if present then {r} else {}| == |s| + (if present then 1 else 0) - (if r in s then 1 else 0)
  {
    assert s == s - {r} + if r in s then {r} else {};
  }

  lemma {:induction false} CountConfirmed(t: Table, r: nat, c: Checkpoint)
    ensures |ConfirmedRounds(t[r := c])| ==
      |ConfirmedRounds(t)| + (if c.status == Confirmed then 1 else 0) - (if r in ConfirmedRounds(t) then 1 else 0)
  {
    ConfirmedAfter(t, r, c);
    CountWith(ConfirmedRounds(t), r, c.status == Confirmed);
  }

  // ---- Whole histories under one membership ----

  /** The table after recording `proposals` in order, starting empty; `times` are the clock readings. */
  function After(proposals: seq<Proposal>, members: set<NodeId>, times: seq<real>): Table
    requires |times| == |proposals|
  {
    if proposals == [] then map[]
    else
      var n := |proposals| - 1;
      var t := After(proposals[..n], members, times[..n]);
      t[proposals[n].round := Recorded(At(t, proposals[n].round), proposals[n], members, times[n])]
  }

  /** The first proposal for a round. */
  function First(proposals: seq<Proposal>, r: nat): Option<Proposal> {
    if proposals == [] then None
    else if proposals[0].round == r then Some(proposals[0])
    else First(proposals[1..], r)
  }

  lemma {:induction false} FirstStep(proposals: seq<Proposal>, p: Proposal, r: nat)
    ensures First(proposals + [p], r) ==
      if First(proposals, r).Some? then First(proposals, r) else if p.round == r then Some(p) else None
  {
    if proposals != [] {
      assert (proposals + [p])[1..] == proposals[1..] + [p];
      FirstStep(proposals[1..], p, r);
    }
  }

  /** Who proposed `root` for round `r`. */
  function Proposers(proposals: seq<Proposal>, r: nat, root: Digest): set<NodeId> {
    set p | p in proposals && p.round == r && p.root == root :: p.proposer
  }

  lemma {:induction false} ProposersStep(proposals: seq<Proposal>, p: Proposal, r: nat, root: Digest)
    ensures Proposers(proposals + [p], r, root) ==
      Proposers(proposals, r, root) + if p.round == r && p.root == root then {p.proposer} else {}
  {
    assert forall q :: q in proposals + [p] <==> q in proposals || q == p;
  }

  /** A round is pinned to the root proposed for it first; its signers are exactly those who proposed that root;
      it is confirmed exactly when they are a quorum. */
  lemma {:induction false} LedgerMeaning(proposals: seq<Proposal>, members: set<NodeId>, times: seq<real>, r: nat)
    requires |times| == |proposals|
    ensures var t := After(proposals, members, times);
      && (r in t <==> First(proposals, r).Some?)
      && (r in t ==> Pinned(t[r], proposals, members, r) && Latest(t[r], proposals, times, r))
  {
    if proposals != [] {
      var n := |proposals| - 1;
      var earlier, p := proposals[..n], proposals[n];
      assert proposals == earlier + [p] && times == times[..n] + [times[n]];
      LedgerMeaning(earlier, members, times[..n], r);
      var t := After(earlier, members, times[..n]);
      FirstStep(earlier, p, r);
      if p.round != r {
        if r in t {
          PinnedOther(t[r], earlier, members, r, p);
          LatestOther(t[r], earlier, times[..n], r, p, times[n]);
        }
      } else if r in t {
        PinnedAgain(t[r], earlier, members, r, p, times[n]);
        LatestAgain(t[r], earlier, members, times[..n], r, p, times[n]);
      } else {
        PinnedFirst(earlier, members, r, p, times[n]);
        LatestFirst(earlier, members, times[..n], r, p, times[n]);
      }
    }
  }

  /** What the record of round `r` says about the proposals made for it. */
  ghost predicate Pinned(c: Checkpoint, proposals: seq<Proposal>, members: set<NodeId>, r: nat) {
    && First(proposals, r).Some? && c.root == First(proposals, r).value.root
    && c.signatures.Keys == Proposers(proposals, r, c.root)
    && (c.status == Confirmed <==> IsQuorumReached(c.signatures.Keys, members))
    && (c.status == Confirmed <==> members != {} && 3 * |members * c.signatures.Keys| >= 2 * |members|)
  }

  predicate Backs(p: Proposal, r: nat, root: Digest) {
    p.round == r && p.root == root
  }

  /** Proposal `i` is the last of its proposer for `root`. */
  ghost predicate LastOfProposer(proposals: seq<Proposal>, r: nat, root: Digest, i: nat)
    requires i < |proposals|
  {
    && Backs(proposals[i], r, root)
    && forall j :: i < j < |proposals| && Backs(proposals[j], r, root) ==>
         proposals[j].proposer != proposals[i].proposer
  }

  /** Proposal `i` is the last of all for `root`. */
  ghost predicate LastOfAll(proposals: seq<Proposal>, r: nat, root: Digest, i: nat)
    requires i < |proposals|
  {
    Backs(proposals[i], r, root) && forall j :: i < j < |proposals| ==> !Backs(proposals[j], r, root)
  }

  /** The record keeps each signer's last signature, the membership digest of the last proposal for the pinned root and,
      once confirmed, the time of that proposal. */
  ghost predicate Latest(c: Checkpoint, proposals: seq<Proposal>, times: seq<real>, r: nat)
    requires |times| == |proposals|
  {
    && (forall i :: 0 <= i < |proposals| && LastOfProposer(proposals, r, c.root, i) ==>
          proposals[i].proposer in c.signatures && c.signatures[proposals[i].proposer] == proposals[i].signature)
    && (forall i :: 0 <= i < |proposals| && LastOfAll(proposals, r, c.root, i) ==>
          c.membersHash == proposals[i].membersHash && (c.status == Confirmed ==> c.confirmedAt == Some(times[i])))
    && (c.status == Pending ==> c.confirmedAt == None)
  }

  lemma LastBefore(proposals: seq<Proposal>, p: Proposal, r: nat, root: Digest, i: nat)
    requires i < |proposals|
    ensures LastOfProposer(proposals + [p], r, root, i)
       ==> LastOfProposer(proposals, r, root, i) && (Backs(p, r, root) ==> p.proposer != proposals[i].proposer)
    ensures LastOfAll(proposals + [p], r, root, i) ==> LastOfAll(proposals, r, root, i) && !Backs(p, r, root)
  {
    var more := proposals + [p];
    assert more[|proposals|] == p && forall j :: i <= j < |proposals| ==> more[j] == proposals[j];
  }

  lemma LastsBefore(proposals: seq<Proposal>, p: Proposal, r: nat, root: Digest)
    ensures forall i :: 0 <= i < |proposals| && LastOfProposer(proposals + [p], r, root, i) ==>
      LastOfProposer(proposals, r, root, i) && (Backs(p, r, root) ==> p.proposer != proposals[i].proposer)
    ensures forall i :: 0 <= i < |proposals| && LastOfAll(proposals + [p], r, root, i) ==>
      LastOfAll(proposals, r, root, i) && !Backs(p, r, root)
  {
    forall i | 0 <= i < |proposals|
      ensures LastOfProposer(proposals + [p], r, root, i)
         ==> LastOfProposer(proposals, r, root, i) && (Backs(p, r, root) ==> p.proposer != proposals[i].proposer)
      ensures LastOfAll(proposals + [p], r, root, i) ==> LastOfAll(proposals, r, root, i) && !Backs(p, r, root)
    {
      LastBefore(proposals, p, r, root, i);
    }
  }

  lemma LatestOther(c: Checkpoint, proposals: seq<Proposal>, times: seq<real>, r: nat, p: Proposal, now: real)
    requires |times| == |proposals| && Latest(c, proposals, times, r) && !Backs(p, r, c.root)
    ensures Latest(c, proposals + [p], times + [now], r)
  {
    LastsBefore(proposals, p, r, c.root);
  }

  lemma LatestAgain(c: Checkpoint, proposals: seq<Proposal>, members: set<NodeId>, times: seq<real>, r: nat,
                    p: Proposal, now: real)
    requires |times| == |proposals| && Latest(c, proposals, times, r) && p.round == r
    requires c.status == Confirmed <==> IsQuorumReached(c.signatures.Keys, members)
    ensures Latest(Recorded(Some(c), p, members, now), proposals + [p], times + [now], r)
  {
    if p.root != c.root {
      LatestOther(c, proposals, times, r, p, now);
    } else {
      RecordStays(c, p, members, now);
      LatestMatching(c, Recorded(Some(c), p, members, now), proposals, times, r, p, now);
    }
  }

  lemma LatestMatching(c: Checkpoint, c': Checkpoint, proposals: seq<Proposal>, times: seq<real>, r: nat, p: Proposal,
                       now: real)
    requires |times| == |proposals| && Latest(c, proposals, times, r) && Backs(p, r, c.root)
    requires c'.root == c.root && c'.signatures == c.signatures[p.proposer := p.signature]
    requires c'.membersHash == p.membersHash && c'.confirmedAt == if c'.status == Confirmed then Some(now) else None
    ensures Latest(c', proposals + [p], times + [now], r)
  {
    var more := proposals + [p];
    LastsBefore(proposals, p, r, c.root);
    forall i | 0 <= i < |more| && LastOfProposer(more, r, c.root, i)
      ensures more[i].proposer in c'.signatures && c'.signatures[more[i].proposer] == more[i].signature
    {
      if i < |proposals| { assert LastOfProposer(proposals, r, c.root, i) && more[i] == proposals[i]; }
    }
    forall i | 0 <= i < |more| && LastOfAll(more, r, c.root, i)
      ensures c'.membersHash == more[i].membersHash
      ensures c'.status == Confirmed ==> c'.confirmedAt == Some((times + [now])[i])
    {
      assert i >= |proposals|;
    }
  }

  lemma LatestFirst(proposals: seq<Proposal>, members: set<NodeId>, times: seq<real>, r: nat, p: Proposal, now: real)
    requires |times| == |proposals| && First(proposals, r).None? && p.round == r
    ensures Latest(Recorded(None, p, members, now), proposals + [p], times + [now], r)
  {
    NobodyBefore(proposals, r, p.root);
    forall q | q in proposals ensures !Backs(q, r, p.root) {
      assert q.proposer !in Proposers(proposals, r, p.root);
    }
    LastsBefore(proposals, p, r, p.root);
  }

  lemma {:induction false} PinnedOther(c: Checkpoint, proposals: seq<Proposal>, members: set<NodeId>, r: nat,
                                       p: Proposal)
    requires Pinned(c, proposals, members, r) && p.round != r
    ensures Pinned(c, proposals + [p], members, r)
  {
    FirstStep(proposals, p, r);
    ProposersStep(proposals, p, r, c.root);
  }

  lemma {:induction false} RecordSigners(c: Checkpoint, p: Proposal, members: set<NodeId>, now: real)
    ensures var r := Recorded(Some(c), p, members, now);
      r.root == c.root && r.signatures.Keys == c.signatures.Keys + if p.root == c.root then {p.proposer} else {}
  {
  }

  lemma {:induction false} PinnedAgain(c: Checkpoint, proposals: seq<Proposal>, members: set<NodeId>, r: nat,
                                       p: Proposal, now: real)
    requires Pinned(c, proposals, members, r) && p.round == r
    ensures Pinned(Recorded(Some(c), p, members, now), proposals + [p], members, r)
  {
    FirstStep(proposals, p, r);
    RecordStays(c, p, members, now);
    RecordSigners(c, p, members, now);
    QuorumMeaning(Recorded(Some(c), p, members, now).signatures.Keys, members);
    ProposersStep(proposals, p, r, c.root);
  }

  lemma {:induction false} PinnedFirst(proposals: seq<Proposal>, members: set<NodeId>, r: nat, p: Proposal, now: real)
    requires First(proposals, r).None? && p.round == r
    ensures Pinned(Recorded(None, p, members, now), proposals + [p], members, r)
  {
    var c' := Recorded(None, p, members, now);
    FirstStep(proposals, p, r);
    ProposersStep(proposals, p, r, c'.root);
    NobodyBefore(proposals, r, c'.root);
    QuorumMeaning(c'.signatures.Keys, members);
  }

  lemma {:induction false} NobodyBefore(proposals: seq<Proposal>, r: nat, root: Digest)
    requires First(proposals, r).None?
    ensures Proposers(proposals, r, root) == {}
  {
    if proposals != [] {
      assert proposals == [proposals[0]] + proposals[1..];
      NobodyBefore(proposals[1..], r, root);
      assert forall p :: p in proposals && p.round == r ==> p in proposals[1..];
    }
  }

  /** Recording more proposals never changes a root, never loses a signer, never undoes a confirmation. */
  lemma {:induction false} LedgerGrows(proposals: seq<Proposal>, members: set<NodeId>, times: seq<real>, n: nat, r: nat)
    requires |times| == |proposals| && n <= |proposals|
    requires r in After(proposals[..n], members, times[..n])
    ensures var early, late := After(proposals[..n], members, times[..n]), After(proposals, members, times);
      && r in late && late[r].root == early[r].root
      && early[r].signatures.Keys <= late[r].signatures.Keys
      && (early[r].status == Confirmed ==> late[r].status == Confirmed)
  {
    var early, late := After(proposals[..n], members, times[..n]), After(proposals, members, times);
    LedgerMeaning(proposals[..n], members, times[..n], r);
    LedgerMeaning(proposals, members, times, r);
    FirstStays(proposals, n, r);
    assert forall p :: p in proposals[..n] ==> p in proposals;
    if early[r].status == Confirmed {
      MoreSigners(early[r].signatures.Keys, late[r].signatures.Keys, members);
    }
  }

  lemma {:induction false} FirstStays(proposals: seq<Proposal>, n: nat, r: nat)
    requires n <= |proposals| && First(proposals[..n], r).Some?
    ensures First(proposals, r) == First(proposals[..n], r)
    decreases |proposals|
  {
    if n == |proposals| {
      assert proposals[..n] == proposals;
    } else {
      var last := |proposals| - 1;
      assert proposals[..last][..n] == proposals[..n];
      assert proposals == proposals[..last] + [proposals[last]];
      FirstStays(proposals[..last], n, r);
      FirstStep(proposals[..last], proposals[last], r);
    }
  }

  /** Two ledgers that confirm different roots for one round prove that at least a third of the members proposed
      both. */
  lemma {:induction false} ConflictNeedsThird(a: seq<Proposal>, timesA: seq<real>, b: seq<Proposal>,
                                              timesB: seq<real>, members: set<NodeId>, r: nat)
      returns (both: set<NodeId>)
    requires |timesA| == |a| && |timesB| == |b|
    requires r in ConfirmedRounds(After(a, members, timesA)) && r in ConfirmedRounds(After(b, members, timesB))
    ensures both <= members && 3 * |both| >= |members| && both != {}
    ensures both <= Proposers(a, r, After(a, members, timesA)[r].root)
    ensures both <= Proposers(b, r, After(b, members, timesB)[r].root)
  {
    var ta, tb := After(a, members, timesA), After(b, members, timesB);
    LedgerMeaning(a, members, timesA, r);
    LedgerMeaning(b, members, timesB, r);
    var sa, sb := members * ta[r].signatures.Keys, members * tb[r].signatures.Keys;
    Overlap(sa, sb, members);
    both := sa * sb;
    assert |members| > 0;
  }
}
