/** Ancestor queries with a memo cache (mdrj/consensus.py `_ancestor_ids`, `_can_see`, `_sees_supermajority`). */
module Visibility {
  import opened Quorum
  import opened Dag

  /** The ancestor sets computed so far during one recomputation. */
  class AncestorCache {
    var sets: map<Id, set<Id>>

    constructor ()
      ensures sets == map[]
    {
      sets := map[];
    }

    ghost predicate Valid(d: Graph)
      reads this
      requires Acyclic(d)
    {
      forall x :: x in sets ==> sets[x] == Anc(d, x)
    }

    method AncestorIds(d: Graph, x: Id) returns (seen: set<Id>)
      requires Acyclic(d) && Valid(d)
      modifies this
      ensures Valid(d)
      ensures seen == Anc(d, x)
      decreases Height(d, x)
    {
      if x in sets {
        return sets[x];
      }
      if x !in d {
        sets := sets[x := {}];
        return {};
      }
      seen := {};
      var parents := d[x].parents;
      for i := 0 to |parents|
        invariant Valid(d)
        invariant seen == AncUpTo(d, parents[..i])
      {
        assert parents[i] in Parents(d[x]);
        var above := AncestorIds(d, parents[i]);
        AncUpToStep(d, parents, i);
        seen := seen + {parents[i]} + above;
      }
      assert parents[..|parents|] == parents;
      AncUpToAll(d, x);
      sets := sets[x := seen];
    }

    method CanSee(d: Graph, observer: Id, target: Id) returns (sees: bool)
      requires Acyclic(d) && Valid(d)
      modifies this
      ensures Valid(d)
      ensures sees <==> Sees(d, observer, target)
    {
      if observer == target {
        return true;
      }
      var above := AncestorIds(d, observer);
      sees := target in above;
    }

    /** Whether `x` sees witnesses of a supermajority of the members. */
    method SeesSupermajority(d: Graph, m: set<NodeId>, x: Id, witnesses: set<Id>) returns (reached: bool)
      requires Acyclic(d) && Valid(d) && witnesses <= d.Keys
      modifies this
      ensures Valid(d)
      ensures reached <==> |VisibleCreators(d, x, witnesses) * m| >= Threshold(|m|)
    {
      var creators: set<NodeId> := {};
      var rest := witnesses;
      while rest != {}
        invariant Valid(d) && rest <= witnesses
        invariant creators == VisibleCreators(d, x, witnesses - rest)
        decreases rest
      {
        var w :| w in rest;
        var sees := CanSee(d, x, w);
        assert witnesses - (rest - {w}) == (witnesses - rest) + {w};
        rest := rest - {w};
        if sees {
          creators := creators + {d[w].creator};
        }
      }
      assert witnesses - {} == witnesses;
      reached := |creators * m| >= Threshold(|m|);
    }
  }

  ghost function AncUpTo(d: Graph, parents: seq<Id>): set<Id>
    requires Acyclic(d)
  {
    (set p | p in parents) + (set p, a | p in parents && a in Anc(d, p) :: a)
  }

  lemma AncUpToStep(d: Graph, parents: seq<Id>, i: nat)
    requires Acyclic(d) && i < |parents|
    ensures AncUpTo(d, parents[..i + 1]) == AncUpTo(d, parents[..i]) + {parents[i]} + Anc(d, parents[i])
  {
    assert parents[..i + 1] == parents[..i] + [parents[i]];
  }

  lemma AncUpToAll(d: Graph, x: Id)
    requires Acyclic(d) && x in d
    ensures AncUpTo(d, d[x].parents) == Anc(d, x)
  {
  }

  ghost function VisibleCreators(d: Graph, x: Id, witnesses: set<Id>): set<NodeId>
    requires Acyclic(d) && witnesses <= d.Keys
  {
    set w | w in witnesses && Sees(d, x, w) :: d[w].creator
  }
}
