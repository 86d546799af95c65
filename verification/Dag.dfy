/** Events, the parent graph they form, and ancestry in it (mdrj/models.py, mdrj/consensus.py `_ancestor_ids`). */
module Dag {

  // Event and node identifiers are opaque: the program only compares them.
  type Id = nat
  type NodeId = nat

  datatype EventClass = A | B | C

  datatype Event = Event(
    id: Id,
    cls: EventClass,
    source: NodeId,
    creator: NodeId,
    tsLocal: real,
    vclock: map<NodeId, nat>,
    parents: seq<Id>,
    genesis: bool,
    payload: nat)

  type Graph = map<Id, Event>

  function Parents(e: Event): set<Id> {
    set p | p in e.parents
  }

  predicate WellKeyed(d: Graph) {
    forall x :: x in d ==> d[x].id == x
  }

  /** Ancestor-closed: every parent of a present event is present. */
  predicate Closed(d: Graph) {
    forall x, p {:trigger p in Parents(d[x])} :: x in d && p in Parents(d[x]) ==> p in d
  }

  ghost predicate Ranked(d: Graph, rank: map<Id, nat>) {
    && rank.Keys == d.Keys
    && forall x, p {:trigger p in Parents(d[x])} :: x in d && p in Parents(d[x]) && p in d ==> rank[p] < rank[x]
  }

  ghost predicate Acyclic(d: Graph) {
    exists rank :: Ranked(d, rank)
  }

  ghost function Rank(d: Graph): (rank: map<Id, nat>)
    requires Acyclic(d)
    ensures Ranked(d, rank)
  {
    var rank :| Ranked(d, rank);
    rank
  }

  ghost function Height(d: Graph, x: Id): nat
    requires Acyclic(d)
  {
    if x in d then Rank(d)[x] + 1 else 0
  }

  /** Every identifier reachable over parent links; a parent that is not present is listed but not followed. */
  ghost function Anc(d: Graph, x: Id): set<Id>
    requires Acyclic(d)
    decreases Height(d, x)
  {
    if x !in d then {}
    else Parents(d[x]) + (set p, a | p in Parents(d[x]) && a in Anc(d, p) :: a)
  }

  ghost predicate Sees(d: Graph, observer: Id, target: Id)
    requires Acyclic(d)
  {
    observer == target || target in Anc(d, observer)
  }

  ghost predicate Related(d: Graph, x: Id, y: Id)
    requires Acyclic(d)
  {
    Sees(d, x, y) || Sees(d, y, x)
  }

  /** Fork-free: any two events of one creator are ancestor-related. */
  ghost predicate ForkFree(d: Graph)
    requires Acyclic(d)
  {
    forall x, y {:trigger Related(d, x, y)} ::
      x in d && y in d && d[x].creator == d[y].creator ==> Related(d, x, y)
  }

  /** What a store must look like for the consensus guarantees: an ancestor-closed, fork-free piece of history. */
  ghost predicate View(d: Graph) {
    WellKeyed(d) && Acyclic(d) && Closed(d) && ForkFree(d)
  }

  /** `big` holds everything `small` holds, unchanged. */
  predicate Extends(small: Graph, big: Graph) {
    forall x :: x in small ==> x in big && big[x] == small[x]
  }

  lemma {:induction false} AncHeight(d: Graph, x: Id, a: Id)
    requires Acyclic(d) && a in Anc(d, x)
    ensures x in d && Height(d, a) < Height(d, x)
    decreases Height(d, x)
  {
    if a !in Parents(d[x]) {
      var p :| p in Parents(d[x]) && a in Anc(d, p);
      AncHeight(d, p, a);
    }
  }

  lemma AncIrreflexive(d: Graph, x: Id)
    requires Acyclic(d)
    ensures x !in Anc(d, x)
  {
    if x in Anc(d, x) { AncHeight(d, x, x); }
  }

  lemma AncTransitive(d: Graph, x: Id, b: Id, a: Id)
    requires Acyclic(d) && b in Anc(d, x) && a in Anc(d, b)
    ensures a in Anc(d, x)
    decreases Height(d, x)
  {
    if b !in Parents(d[x]) {
      var p :| p in Parents(d[x]) && b in Anc(d, p);
      AncTransitive(d, p, b, a);
    }
  }

  lemma SeesTransitive(d: Graph, x: Id, y: Id, z: Id)
    requires Acyclic(d) && Sees(d, x, y) && Sees(d, y, z)
    ensures Sees(d, x, z)
  {
    if x != y && y != z {
      AncTransitive(d, x, y, z);
    }
  }

  lemma SeesPresent(d: Graph, x: Id, a: Id)
    requires Acyclic(d) && Closed(d) && x in d && Sees(d, x, a)
    ensures a in d
    decreases Height(d, x)
  {
    if x != a && a !in Parents(d[x]) {
      var p :| p in Parents(d[x]) && a in Anc(d, p);
      SeesPresent(d, p, a);
    }
  }

  lemma {:induction false} AncPresent(d: Graph, x: Id)
    requires Acyclic(d) && Closed(d) && x in d
    ensures Anc(d, x) <= d.Keys
  {
    forall a | a in Anc(d, x) ensures a in d { SeesPresent(d, x, a); }
  }

  lemma AncParent(d: Graph, x: Id, a: Id)
    requires Acyclic(d) && x in d
    ensures a in Anc(d, x) <==> exists p :: p in Parents(d[x]) && Sees(d, p, a)
  {
    if a in Anc(d, x) {
      if a in Parents(d[x]) {
        assert Sees(d, a, a);
      } else {
        var p :| p in Parents(d[x]) && a in Anc(d, p);
        assert Sees(d, p, a);
      }
    }
  }

  /** Sub-histories of a view that are themselves ancestor-closed are views, and ancestry inside them is unchanged. */
  lemma AcyclicDown(small: Graph, big: Graph)
    requires Acyclic(big) && Extends(small, big)
    ensures Acyclic(small)
  {
    var rank := map x | x in small :: Rank(big)[x];
    assert Ranked(small, rank);
  }

  lemma {:induction false} AncGrow(small: Graph, big: Graph, x: Id)
    requires Acyclic(small) && Acyclic(big) && Extends(small, big) && Closed(small) && x in small
    ensures Anc(small, x) == Anc(big, x)
    decreases Height(small, x)
  {
    forall p | p in Parents(small[x])
      ensures Anc(small, p) == Anc(big, p)
    {
      AncGrow(small, big, p);
    }
  }

  lemma ViewDown(small: Graph, big: Graph)
    requires View(big) && Extends(small, big) && Closed(small)
    ensures View(small)
    ensures forall x :: x in small ==> Anc(small, x) == Anc(big, x)
  {
    AcyclicDown(small, big);
    forall x | x in small
      ensures Anc(small, x) == Anc(big, x)
    {
      AncGrow(small, big, x);
    }
    forall x, y | x in small && y in small && small[x].creator == small[y].creator
      ensures Related(small, x, y)
    {
      assert Related(big, x, y);
    }
  }
}
