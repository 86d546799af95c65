/** Rounds and witnesses as properties of an event's own history (mdrj/consensus.py:56-77, 246-259). */
module Rounds {
  import opened Prelude
  import opened Quorum
  import opened Dag

  type RoundMap = map<Id, nat>

  /** `x` is the first event of its creator in its round. */
  ghost predicate IsWitness(d: Graph, rounds: RoundMap, x: Id)
    requires Acyclic(d) && x in d && x in rounds
  {
    forall a {:trigger a in Anc(d, x)} ::
      a in Anc(d, x) && a in d && a in rounds && d[a].creator == d[x].creator ==> rounds[a] != rounds[x]
  }

  ghost predicate WitnessOf(d: Graph, rounds: RoundMap, w: Id, r: nat, c: NodeId)
    requires Acyclic(d)
  {
    w in d && w in rounds && rounds[w] == r && d[w].creator == c && IsWitness(d, rounds, w)
  }

  /** Member creators of the round-`r` witnesses that `x` has as ancestors. */
  ghost function SeenCreators(d: Graph, m: set<NodeId>, rounds: RoundMap, x: Id, r: nat): set<NodeId>
    requires Acyclic(d)
  {
    set c, w | c in m && w in Anc(d, x) && WitnessOf(d, rounds, w, r, c) :: c
  }

  /** Highest round among the parents that have one, 0 when there is none. */
  ghost function BaseRound(d: Graph, rounds: RoundMap, x: Id): nat
    requires x in d
  {
    var below := set p | p in Parents(d[x]) && p in rounds :: rounds[p];
    if below == {} then 0 else Max(below)
  }

  ghost function NextRound(d: Graph, m: set<NodeId>, rounds: RoundMap, x: Id): nat
    requires Acyclic(d) && x in d
  {
    var base := BaseRound(d, rounds, x);
    if |SeenCreators(d, m, rounds, x, base)| >= Threshold(|m|) then base + 1 else base
  }

  ghost predicate ObeysRule(d: Graph, m: set<NodeId>, rounds: RoundMap, x: Id)
    requires Acyclic(d) && x in d
  {
    x in rounds && rounds[x] == NextRound(d, m, rounds, x)
  }

  /** The assignment that obeys the promotion rule at every event. */
  ghost predicate ValidRounds(d: Graph, m: set<NodeId>, rounds: RoundMap)
    requires Acyclic(d)
  {
    && rounds.Keys == d.Keys
    && forall x {:trigger ObeysRule(d, m, rounds, x)} :: x in d ==> ObeysRule(d, m, rounds, x)
  }

  /** Rounds never fall along parent links between events of `ids`, which hold all their present parents. */
  ghost predicate Climbing(d: Graph, ids: set<Id>, rounds: RoundMap) {
    forall x, p {:trigger p in Parents(d[x])} :: x in ids && x in d && p in Parents(d[x]) && p in d ==>
      p in ids && x in rounds && p in rounds && rounds[p] <= rounds[x]
  }

  /** Nor do they along ancestry, whatever is missing from the history. */
  lemma {:induction false} ClimbingAncestry(d: Graph, rounds: RoundMap, x: Id, a: Id)
    requires Acyclic(d) && Climbing(d, d.Keys, rounds) && x in d && x in rounds && a in d && Sees(d, x, a)
    ensures a in rounds && rounds[a] <= rounds[x]
    decreases Height(d, x)
  {
    if a != x {
      AncParent(d, x, a);
      var p :| p in Parents(d[x]) && Sees(d, p, a);
      if p != a { AncHeight(d, p, a); }
      ClimbingAncestry(d, rounds, p, a);
    }
  }

  lemma ParentRound(d: Graph, rounds: RoundMap, x: Id, p: Id)
    requires x in d && p in rounds && p in Parents(d[x])
    ensures rounds[p] <= BaseRound(d, rounds, x)
  {
    var below := set q | q in Parents(d[x]) && q in rounds :: rounds[q];
    assert rounds[p] in below;
  }

  lemma BaseParent(d: Graph, rounds: RoundMap, x: Id) returns (p: Id)
    requires x in d && BaseRound(d, rounds, x) > 0
    ensures p in Parents(d[x]) && p in rounds && rounds[p] == BaseRound(d, rounds, x)
  {
    var below := set q | q in Parents(d[x]) && q in rounds :: rounds[q];
    p :| p in Parents(d[x]) && p in rounds && rounds[p] == Max(below);
  }

  lemma {:induction false} RoundMonotone(d: Graph, m: set<NodeId>, rounds: RoundMap, x: Id, a: Id)
    requires Acyclic(d) && Closed(d) && ValidRounds(d, m, rounds) && x in d && a in d && Sees(d, x, a)
    ensures rounds[a] <= rounds[x]
    decreases Height(d, x)
  {
    if a != x {
      AncParent(d, x, a);
      var p :| p in Parents(d[x]) && Sees(d, p, a);
      RoundMonotone(d, m, rounds, p, a);
      ParentRound(d, rounds, x, p);
      assert ObeysRule(d, m, rounds, x);
    }
  }

  lemma SeenGrows(d: Graph, m: set<NodeId>, rounds: RoundMap, p: Id, x: Id, r: nat)
    requires Acyclic(d) && Anc(d, p) <= Anc(d, x)
    ensures |SeenCreators(d, m, rounds, p, r)| <= |SeenCreators(d, m, rounds, x, r)|
  {
    SubsetCard(SeenCreators(d, m, rounds, p, r), SeenCreators(d, m, rounds, x, r));
  }

  /** An event of round r+1 has round-r witnesses of a supermajority of members in its past. */
  lemma {:induction false} QuorumBelow(d: Graph, m: set<NodeId>, rounds: RoundMap, x: Id, r: nat)
    requires Acyclic(d) && ValidRounds(d, m, rounds) && x in d && rounds[x] == r + 1
    ensures |SeenCreators(d, m, rounds, x, r)| >= Threshold(|m|)
    decreases Height(d, x)
  {
    assert ObeysRule(d, m, rounds, x);
    if BaseRound(d, rounds, x) == r + 1 {
      var p := BaseParent(d, rounds, x);
      QuorumBelow(d, m, rounds, p, r);
      assert Anc(d, p) <= Anc(d, x);
      SeenGrows(d, m, rounds, p, x, r);
    }
  }

  /** Member creators of the round-`r` witnesses that are ancestors of both `x` and `y`. */
  ghost function SharedCreators(d: Graph, m: set<NodeId>, rounds: RoundMap, x: Id, y: Id, r: nat): set<NodeId>
    requires Acyclic(d)
  {
    set c, w | c in m && w in Anc(d, x) && w in Anc(d, y) && WitnessOf(d, rounds, w, r, c) :: c
  }

  /** Two events of round r+1 share round-r witnesses of at least 2t-n members, the very same events. */
  lemma SharedWitnesses(d: Graph, m: set<NodeId>, rounds: RoundMap, x: Id, y: Id, r: nat)
    requires View(d) && ValidRounds(d, m, rounds) && x in d && y in d
    requires rounds[x] == r + 1 && rounds[y] == r + 1
    ensures |SharedCreators(d, m, rounds, x, y, r)| >= 2 * Threshold(|m|) - |m|
  {
    QuorumBelow(d, m, rounds, x, r);
    QuorumBelow(d, m, rounds, y, r);
    var both := SharedCreators(d, m, rounds, x, y, r);
    var sx, sy := SeenCreators(d, m, rounds, x, r), SeenCreators(d, m, rounds, y, r);
    QuorumsMeet(sx, sy, m);
    forall c | c in sx * sy ensures c in both {
      var v :| v in Anc(d, x) && WitnessOf(d, rounds, v, r, c);
      var w :| w in Anc(d, y) && WitnessOf(d, rounds, w, r, c);
      WitnessUnique(d, rounds, v, w, r, c);
    }
    SubsetCard(sx * sy, both);
  }

  /** Rounds in use are contiguous from 0: below every event there is a witness of each lower round. */
  lemma {:induction false} LowerRounds(d: Graph, m: set<NodeId>, rounds: RoundMap, x: Id, r: nat) returns (w: Id)
    requires Acyclic(d) && Closed(d) && ValidRounds(d, m, rounds) && x in d && r <= rounds[x]
    ensures w in d && Sees(d, x, w) && rounds[w] == r
    ensures r < rounds[x] ==> w in Anc(d, x) && d[w].creator in m && WitnessOf(d, rounds, w, r, d[w].creator)
    decreases rounds[x] - r
  {
    if r == rounds[x] {
      w := x;
    } else {
      var above := LowerRounds(d, m, rounds, x, r + 1);
      QuorumBelow(d, m, rounds, above, r);
      var seen := SeenCreators(d, m, rounds, above, r);
      assert seen != {};
      var c :| c in seen;
      w :| w in Anc(d, above) && WitnessOf(d, rounds, w, r, c);
      if above != x { AncTransitive(d, x, above, w); }
    }
  }

  lemma WitnessUnique(d: Graph, rounds: RoundMap, v: Id, w: Id, r: nat, c: NodeId)
    requires View(d) && WitnessOf(d, rounds, v, r, c) && WitnessOf(d, rounds, w, r, c)
    ensures v == w
  {
    assert Related(d, v, w);
  }

  /** Whenever a creator has an event in a round it has a witness there: that event or one in its past. */
  lemma {:induction false} WitnessBelow(d: Graph, rounds: RoundMap, x: Id) returns (w: Id)
    requires Acyclic(d) && rounds.Keys == d.Keys && x in d
    ensures WitnessOf(d, rounds, w, rounds[x], d[x].creator) && Sees(d, x, w)
    decreases Height(d, x)
  {
    if IsWitness(d, rounds, x) {
      w := x;
    } else {
      var a :| a in Anc(d, x) && a in d && a in rounds && d[a].creator == d[x].creator && rounds[a] == rounds[x];
      AncHeight(d, x, a);
      w := WitnessBelow(d, rounds, a);
      SeesTransitive(d, x, a, w);
    }
  }

  // ---- The assignment exists, is unique, and is the same in every larger history ----

  ghost predicate AgreeBelow(small: Graph, big: Graph, r1: RoundMap, r2: RoundMap, x: Id)
    requires Acyclic(small)
  {
    forall a :: a in Anc(small, x) ==> a in small && a in r1 && a in r2 && r1[a] == r2[a]
  }

  lemma BaseRoundAgrees(small: Graph, big: Graph, r1: RoundMap, r2: RoundMap, x: Id)
    requires Acyclic(small) && Extends(small, big) && x in small && AgreeBelow(small, big, r1, r2, x)
    ensures BaseRound(small, r1, x) == BaseRound(big, r2, x)
  {
    var below1 := set p | p in Parents(small[x]) && p in r1 :: r1[p];
    var below2 := set p | p in Parents(big[x]) && p in r2 :: r2[p];
    assert forall p :: p in Parents(small[x]) ==> p in Anc(small, x);
    assert below1 == below2;
  }

  lemma SeenAgrees(small: Graph, big: Graph, m: set<NodeId>, r1: RoundMap, r2: RoundMap, x: Id, r: nat)
    requires Acyclic(small) && Acyclic(big) && Anc(small, x) == Anc(big, x)
    requires forall w, c :: w in Anc(small, x) ==> WitnessOf(small, r1, w, r, c) == WitnessOf(big, r2, w, r, c)
    ensures SeenCreators(small, m, r1, x, r) == SeenCreators(big, m, r2, x, r)
  {
  }

  lemma AgreeBelowDown(small: Graph, big: Graph, r1: RoundMap, r2: RoundMap, x: Id, w: Id)
    requires Acyclic(small) && AgreeBelow(small, big, r1, r2, x) && w in Anc(small, x)
    ensures AgreeBelow(small, big, r1, r2, w)
  {
    forall a | a in Anc(small, w) ensures a in Anc(small, x) { AncTransitive(small, x, w, a); }
  }

  lemma NextRoundAgrees(small: Graph, big: Graph, m: set<NodeId>, r1: RoundMap, r2: RoundMap, x: Id)
    requires Acyclic(small) && Acyclic(big) && Closed(small) && Extends(small, big) && x in small
    requires AgreeBelow(small, big, r1, r2, x)
    ensures NextRound(small, m, r1, x) == NextRound(big, m, r2, x)
  {
    AncGrow(small, big, x);
    BaseRoundAgrees(small, big, r1, r2, x);
    var base := BaseRound(small, r1, x);
    forall w, c | w in Anc(small, x)
      ensures WitnessOf(small, r1, w, base, c) == WitnessOf(big, r2, w, base, c)
    {
      AncGrow(small, big, w);
      AgreeBelowDown(small, big, r1, r2, x, w);
    }
    SeenAgrees(small, big, m, r1, r2, x, base);
  }

  /** Adding events never changes the round of an event already present; with `small == big`, rounds are unique. */
  lemma {:induction false} RoundStable(small: Graph, big: Graph, m: set<NodeId>, r1: RoundMap, r2: RoundMap, x: Id)
    requires Acyclic(small) && Acyclic(big) && Closed(small) && Extends(small, big)
    requires ValidRounds(small, m, r1) && ValidRounds(big, m, r2) && x in small
    ensures r1[x] == r2[x]
    decreases Height(small, x)
  {
    AncPresent(small, x);
    forall a | a in Anc(small, x) ensures r1[a] == r2[a] {
      AncHeight(small, x, a);
      RoundStable(small, big, m, r1, r2, a);
    }
    NextRoundAgrees(small, big, m, r1, r2, x);
    assert ObeysRule(small, m, r1, x) && ObeysRule(big, m, r2, x);
  }

  /** Nor does it change who is a witness. */
  lemma WitnessStable(small: Graph, big: Graph, m: set<NodeId>, r1: RoundMap, r2: RoundMap, w: Id, r: nat, c: NodeId)
    requires Acyclic(small) && Acyclic(big) && Closed(small) && Extends(small, big)
    requires ValidRounds(small, m, r1) && ValidRounds(big, m, r2) && w in small
    ensures WitnessOf(small, r1, w, r, c) == WitnessOf(big, r2, w, r, c)
  {
    AncPresent(small, w);
    AncGrow(small, big, w);
    forall a | a in small ensures r1[a] == r2[a] { RoundStable(small, big, m, r1, r2, a); }
  }

  lemma Highest(d: Graph) returns (top: Id)
    requires Acyclic(d) && d != map[]
    ensures top in d && forall x :: x in d ==> Height(d, x) <= Height(d, top)
  {
    var heights := set x | x in d :: Height(d, x);
    var any :| any in d;
    assert Height(d, any) in heights;
    var h := Max(heights);
    top :| top in d && Height(d, top) == h;
    forall x | x in d ensures Height(d, x) <= h { assert Height(d, x) in heights; }
  }

  lemma WithoutHighest(d: Graph, top: Id)
    requires Acyclic(d) && Closed(d) && top in d && forall x :: x in d ==> Height(d, x) <= Height(d, top)
    ensures Acyclic(d - {top}) && Closed(d - {top})
  {
    forall x, p | x in d && x != top && p in Parents(d[x]) ensures p != top {
      AncHeight(d, x, p);
    }
    AcyclicDown(d - {top}, d);
  }

  lemma {:induction false} RoundsExist(d: Graph, m: set<NodeId>) returns (rounds: RoundMap)
    requires Acyclic(d) && Closed(d)
    ensures ValidRounds(d, m, rounds)
    decreases |d|
  {
    if d == map[] {
      rounds := map[];
    } else {
      var top := Highest(d);
      WithoutHighest(d, top);
      var rest := d - {top};
      assert rest.Keys == d.Keys - {top};
      var below := RoundsExist(rest, m);
      AncIrreflexive(d, top);
      rounds := Extended(d, m, rest, below, top);
    }
  }

  lemma {:induction false} Extended(d: Graph, m: set<NodeId>, rest: Graph, below: RoundMap, top: Id)
      returns (rounds: RoundMap)
    requires Acyclic(d) && Closed(d) && Acyclic(rest) && Closed(rest) && ValidRounds(rest, m, below)
    requires top in d && rest == d - {top} && rest.Keys == d.Keys - {top} && top !in Anc(d, top)
    ensures ValidRounds(d, m, rounds)
  {
    rounds := below[top := NextRound(d, m, below, top)];
    forall x | x in d ensures ObeysRule(d, m, rounds, x) {
      ExtendOne(d, m, rest, below, top, rounds, x);
    }
  }

  lemma {:induction false} ExtendOne(d: Graph, m: set<NodeId>, rest: Graph, below: RoundMap, top: Id,
                                     rounds: RoundMap, x: Id)
    requires Acyclic(d) && Closed(d) && Acyclic(rest) && Closed(rest) && ValidRounds(rest, m, below)
    requires top in d && rest == d - {top} && rest.Keys == d.Keys - {top} && top !in Anc(d, top)
    requires rounds == below[top := NextRound(d, m, below, top)] && x in d
    ensures ObeysRule(d, m, rounds, x)
  {
    if x == top {
      ExtendAtTop(d, m, below, top, rounds);
    } else {
      ExtendBelow(d, m, rest, below, top, rounds, x);
    }
  }

  lemma {:induction false} ExtendAtTop(d: Graph, m: set<NodeId>, below: RoundMap, top: Id, rounds: RoundMap)
    requires Acyclic(d) && Closed(d) && top in d && below.Keys == d.Keys - {top} && top !in Anc(d, top)
    requires rounds == below[top := NextRound(d, m, below, top)]
    ensures ObeysRule(d, m, rounds, top)
  {
    AncPresent(d, top);
    NextRoundAgrees(d, d, m, below, rounds, top);
  }

  lemma ExtendBelow(d: Graph, m: set<NodeId>, rest: Graph, below: RoundMap, top: Id, rounds: RoundMap, x: Id)
    requires Acyclic(d) && Closed(d) && Acyclic(rest) && Closed(rest) && ValidRounds(rest, m, below)
    requires top in d && rest == d - {top} && rounds == below[top := NextRound(d, m, below, top)]
    requires x in rest
    ensures ObeysRule(d, m, rounds, x)
  {
    AncPresent(rest, x);
    NextRoundAgrees(rest, d, m, below, rounds, x);
    assert ObeysRule(rest, m, below, x);
  }

  lemma RoundsDefined(d: Graph, m: set<NodeId>)
    requires Acyclic(d) && Closed(d)
    ensures exists rounds :: ValidRounds(d, m, rounds)
  {
    var rounds := RoundsExist(d, m);
  }

  /** The rounds of a history. */
  ghost function RoundsOf(d: Graph, m: set<NodeId>): (rounds: RoundMap)
    requires Acyclic(d) && Closed(d)
    ensures ValidRounds(d, m, rounds)
  {
    RoundsDefined(d, m);
    var rounds :| ValidRounds(d, m, rounds);
    rounds
  }

  lemma RoundsUnique(d: Graph, m: set<NodeId>, rounds: RoundMap)
    requires Acyclic(d) && Closed(d) && ValidRounds(d, m, rounds)
    ensures rounds == RoundsOf(d, m)
  {
    forall x | x in d ensures rounds[x] == RoundsOf(d, m)[x] {
      RoundStable(d, d, m, rounds, RoundsOf(d, m), x);
    }
  }
}
