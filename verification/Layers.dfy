/** Growing a view by one layer of fresh events, and by two: enough to add a voting round to any view. */
module Layers {
  import opened Prelude
  import opened Quorum
  import opened Dag
  import opened Rounds

  ghost function Listing(s: set<Id>): (l: seq<Id>)
    ensures forall x :: x in l <==> x in s
  {
    if s == {} then [] else
      var x :| x in s;
      [x] + Listing(s - {x})
  }

  /** `x` is a fresh event of member `c` on top of everything in `d`. */
  ghost predicate FreshBy(d: Graph, big: Graph, x: Id, c: NodeId) {
    x in big && x !in d && big[x].id == x && big[x].creator == c && Parents(big[x]) == d.Keys
  }

  /** `big` is `d` with one such event per member. */
  ghost predicate IsLayer(d: Graph, big: Graph, m: set<NodeId>) {
    && Extends(d, big)
    && (forall x :: x in big && x !in d ==> big[x].creator in m && FreshBy(d, big, x, big[x].creator))
    && (forall x, y, c :: FreshBy(d, big, x, c) && FreshBy(d, big, y, c) ==> x == y)
    && (forall c :: c in m ==> exists x :: FreshBy(d, big, x, c))
  }

  ghost function Unused(d: Graph): (base: Id)
    ensures forall x :: x in d ==> x < base
  {
    if d.Keys == {} then 0 else Max(d.Keys) + 1
  }

  ghost function FreshIds(d: Graph, m: set<NodeId>): (ids: set<Id>)
    ensures forall x :: x in ids ==> x >= Unused(d) && x - Unused(d) in m
  {
    set c | c in m :: Unused(d) + c
  }

  ghost function FreshEvent(d: Graph, x: Id): Event
    requires x >= Unused(d)
  {
    Event(x, C, x - Unused(d), x - Unused(d), 0.0, map[], Listing(d.Keys), false, 0)
  }

  ghost function Layer(d: Graph, m: set<NodeId>): (big: Graph)
    ensures big.Keys == d.Keys + FreshIds(d, m) && Extends(d, big)
    ensures forall x :: x in FreshIds(d, m) ==> big[x] == FreshEvent(d, x)
  {
    map x | x in d.Keys + FreshIds(d, m) :: if x in d then d[x] else FreshEvent(d, x)
  }

  lemma LayerFresh(d: Graph, m: set<NodeId>, x: Id)
    requires x in FreshIds(d, m)
    ensures x >= Unused(d) && x - Unused(d) in m && FreshBy(d, Layer(d, m), x, x - Unused(d))
  {
    assert Layer(d, m)[x] == FreshEvent(d, x);
  }

  lemma LayerExists(d: Graph, m: set<NodeId>) returns (big: Graph)
    ensures IsLayer(d, big, m)
  {
    big := Layer(d, m);
    forall x | x in big && x !in d ensures big[x].creator in m && FreshBy(d, big, x, big[x].creator) {
      LayerFresh(d, m, x);
    }
    forall x, y, c | FreshBy(d, big, x, c) && FreshBy(d, big, y, c) ensures x == y {
      LayerFresh(d, m, x);
      LayerFresh(d, m, y);
    }
    forall c | c in m ensures FreshBy(d, big, Unused(d) + c, c) {
      assert Unused(d) + c in FreshIds(d, m);
      LayerFresh(d, m, Unused(d) + c);
    }
  }

  lemma LayerAcyclic(d: Graph, big: Graph, m: set<NodeId>)
    requires Acyclic(d) && Closed(d) && IsLayer(d, big, m)
    ensures Acyclic(big) && Closed(big)
  {
    var rank := Rank(d);
    var above := if rank.Values == {} then 0 else Max(rank.Values) + 1;
    var ranks: map<Id, nat> := map x | x in big :: if x in d then rank[x] else above;
    forall x, p | x in big && p in Parents(big[x]) ensures p in d && ranks[p] < ranks[x] {
      if x in d {
        assert p in Parents(d[x]);
      } else {
        assert FreshBy(d, big, x, big[x].creator);
        assert rank[p] in rank.Values;
      }
    }
    assert Ranked(big, ranks);
  }

  lemma FreshSees(d: Graph, big: Graph, m: set<NodeId>, x: Id, a: Id)
    requires IsLayer(d, big, m) && Acyclic(big) && x in big && x !in d && a in d
    ensures a in Parents(big[x]) && a in Anc(big, x)
  {
    assert FreshBy(d, big, x, big[x].creator);
  }

  lemma LayerView(d: Graph, big: Graph, m: set<NodeId>)
    requires View(d) && IsLayer(d, big, m)
    ensures View(big)
  {
    LayerAcyclic(d, big, m);
    forall x, y | x in big && y in big && big[x].creator == big[y].creator ensures Related(big, x, y) {
      LayerRelated(d, big, m, x, y);
    }
  }

  lemma LayerRelated(d: Graph, big: Graph, m: set<NodeId>, x: Id, y: Id)
    requires View(d) && IsLayer(d, big, m) && Acyclic(big)
    requires x in big && y in big && big[x].creator == big[y].creator
    ensures Related(big, x, y)
  {
    if x in d && y in d {
      assert Related(d, x, y);
      AncGrow(d, big, x);
      AncGrow(d, big, y);
    } else if x in d {
      FreshSees(d, big, m, y, x);
    } else if y in d {
      FreshSees(d, big, m, x, y);
    } else {
      assert FreshBy(d, big, x, big[x].creator) && FreshBy(d, big, y, big[x].creator);
    }
  }

  /** `big` adds two layers, `mid` being the first. */
  ghost predicate TwoLayers(d: Graph, mid: Graph, big: Graph, m: set<NodeId>) {
    View(d) && View(mid) && View(big) && IsLayer(d, mid, m) && IsLayer(mid, big, m)
  }

  lemma SecondSees(d: Graph, mid: Graph, big: Graph, m: set<NodeId>, x: Id)
    requires TwoLayers(d, mid, big, m) && x in big && x !in d
    ensures d.Keys <= Anc(big, x)
  {
    forall a | a in d ensures a in Anc(big, x) {
      if x in mid {
        FreshSees(d, mid, m, x, a);
        AncGrow(mid, big, x);
      } else {
        FreshSees(mid, big, m, x, a);
      }
    }
  }

  /** If the second layer does not rise above the top round, the whole first layer is in it, and promotes the second. */
  lemma SecondRises(d: Graph, mid: Graph, big: Graph, m: set<NodeId>, rounds: RoundMap, x: Id, y: Id)
    requires TwoLayers(d, mid, big, m) && m != {} && ValidRounds(big, m, rounds) && x in big && x !in mid && y in d
    ensures y in big && rounds[y] < rounds[x]
  {
    FreshSees(mid, big, m, x, y);
    RoundMonotone(big, m, rounds, x, y);
    assert ObeysRule(big, m, rounds, x);
    if rounds[x] == rounds[y] {
      forall c | c in m ensures c in SeenCreators(big, m, rounds, x, rounds[y]) {
        FirstLayerSeen(d, mid, big, m, rounds, x, y, c);
      }
      SubsetCard(m, SeenCreators(big, m, rounds, x, rounds[y]));
      EverybodyIsEnough(|m|);
      ParentRound(big, rounds, x, y);
    }
  }

  lemma FirstLayerSeen(d: Graph, mid: Graph, big: Graph, m: set<NodeId>, rounds: RoundMap, x: Id, y: Id, c: NodeId)
    requires TwoLayers(d, mid, big, m) && c in m && ValidRounds(big, m, rounds)
    requires x in big && x !in mid && y in d && y in big && rounds[x] == rounds[y]
    ensures c in SeenCreators(big, m, rounds, x, rounds[y])
  {
    var z :| FreshBy(d, mid, z, c);
    FreshSees(mid, big, m, x, z);
    SecondSees(d, mid, big, m, z);
    RoundMonotone(big, m, rounds, x, z);
    RoundMonotone(big, m, rounds, z, y);
    var w := WitnessBelow(big, rounds, z);
    if w != z { AncTransitive(big, x, z, w); }
    WitnessSeen(big, m, rounds, x, rounds[y], w, c);
  }

  lemma WitnessSeen(d: Graph, m: set<NodeId>, rounds: RoundMap, x: Id, r: nat, w: Id, c: NodeId)
    requires Acyclic(d) && c in m && w in Anc(d, x) && WitnessOf(d, rounds, w, r, c)
    ensures c in SeenCreators(d, m, rounds, x, r)
  {
  }

  /** `x` is a member's event of `big` in a later round than any event of `d`. */
  ghost predicate Crown(big: Graph, d: Graph, m: set<NodeId>, x: Id)
    requires View(big)
  {
    x in big && big[x].creator in m && forall y :: y in d ==> y in big && RoundsOf(big, m)[y] < RoundsOf(big, m)[x]
  }

  /** `big` adds to `d` only events that see all of it, a crown among them. */
  ghost predicate Crowns(big: Graph, d: Graph, m: set<NodeId>)
    requires View(big)
  {
    && Extends(d, big)
    && (forall x :: x in big && x !in d ==> d.Keys <= Anc(big, x))
    && exists x :: Crown(big, d, m, x)
  }

  lemma SecondCrowns(d: Graph, mid: Graph, big: Graph, m: set<NodeId>, x: Id)
    requires TwoLayers(d, mid, big, m) && m != {} && x in big && x !in mid
    ensures Crown(big, d, m, x)
  {
    forall y | y in d ensures y in big && RoundsOf(big, m)[y] < RoundsOf(big, m)[x] {
      SecondRises(d, mid, big, m, RoundsOf(big, m), x, y);
    }
  }

  lemma LayerMember(d: Graph, big: Graph, m: set<NodeId>) returns (x: Id)
    requires IsLayer(d, big, m) && m != {}
    ensures x in big && x !in d
  {
    var c :| c in m;
    x :| FreshBy(d, big, x, c);
  }

  lemma LayersCrown(d: Graph, mid: Graph, big: Graph, m: set<NodeId>)
    requires TwoLayers(d, mid, big, m) && m != {}
    ensures Crowns(big, d, m)
  {
    forall x | x in big && x !in d ensures d.Keys <= Anc(big, x) { SecondSees(d, mid, big, m, x); }
    var x := LayerMember(mid, big, m);
    SecondCrowns(d, mid, big, m, x);
  }

  /** Any view of a cluster with members can be crowned. */
  lemma CrownExists(d: Graph, m: set<NodeId>) returns (big: Graph)
    requires View(d) && m != {}
    ensures View(big) && Crowns(big, d, m)
  {
    var mid := LayerExists(d, m);
    LayerView(d, mid, m);
    big := LayerExists(mid, m);
    LayerView(mid, big, m);
    LayersCrown(d, mid, big, m);
  }
}
