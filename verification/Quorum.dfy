/** The supermajority threshold of the consensus engine (mdrj/consensus.py `_supermajority_threshold`). */
module Quorum {
  import opened Prelude

  // The outer `max(1, ...)` of the source never changes the value.
  function Threshold(members: nat): (t: nat)
    ensures 1 <= t
    ensures 2 * members < 3 * t
    ensures 3 * t <= 2 * members + 3
  {
    2 * members / 3 + 1
  }

  lemma EverybodyIsEnough(members: nat)
    requires members > 0
    ensures Threshold(members) <= members
  {
  }

  /** Two supermajorities of the same membership share at least 2t-n members, hence one. */
  lemma QuorumsMeet<T>(a: set<T>, b: set<T>, members: set<T>)
    requires a <= members && b <= members
    requires |a| >= Threshold(|members|) && |b| >= Threshold(|members|)
    ensures |a * b| >= 2 * Threshold(|members|) - |members|
    ensures a * b != {}
  {
    Overlap(a, b, members);
  }

  /** Nothing that avoids a supermajority is itself one. */
  lemma MinorityOutside<T>(quorum: set<T>, rest: set<T>, members: set<T>)
    requires quorum <= members && rest <= members && quorum !! rest
    requires |quorum| >= Threshold(|members|)
    ensures |rest| < Threshold(|members|)
  {
    Overlap(quorum, rest, members);
    assert quorum * rest == {};
  }
}
