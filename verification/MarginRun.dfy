/** The history of `MarginExample` is the store of a node in a run of boots, two-parent emissions and deliveries. */
module MarginRun {
  import opened Dag
  import opened Cluster
  import opened ClusterTheorems
  import opened Received
  import opened Digest
  import opened MarginExample
  import opened Scripts

  const EXAMPLE := Script(Creator, ParentList)
  const EVENTS: nat := 17

  lemma {:induction false} LatestIs(s: Script, n: NodeId, own: Id, k: nat)
    requires own == n || (own < k && s.creator(own) == n)
    requires forall x: nat :: x < k && x != n && (own == n || own < x) ==> s.creator(x) != n
    ensures LastOwn(s, n, k) == own
    decreases k
  {
    if k > 0 && (own == n || own < k - 1) { LatestIs(s, n, own, k - 1); }
  }

  lemma NoneBetween(k: nat, x: nat)
    requires 4 <= k < EVENTS && x < k && x != Creator(k)
    requires ParentList(k)[0] == Creator(k) || ParentList(k)[0] < x
    ensures Creator(x) != Creator(k)
  {
  }

  lemma ExampleJoins(k: nat)
    requires 4 <= k < EVENTS
    ensures Joins(EXAMPLE, k)
  {
    var n, own := Creator(k), ParentList(k)[0];
    forall x: nat | x < k && x != n && (own == n || own < x) ensures Creator(x) != n { NoneBetween(k, x); }
    LatestIs(EXAMPLE, n, own, k);
  }

  lemma ExamplePlayable()
    ensures Playable(EXAMPLE, EVENTS)
  {
    forall k: nat | 4 <= k < EVENTS ensures Joins(EXAMPLE, k) { ExampleJoins(k); }
  }

  lemma ScriptShape(d: Graph, k: nat)
    requires Scripted(EXAMPLE, d, k) && k <= EVENTS
    ensures Shaped(d, k)
  {
    forall x: nat | x < k ensures x in d && Fits(d[x], x) { assert FitsAt(EXAMPLE, d, x); }
  }

  /** The digest of the smaller view covers event 0, which the larger view does not receive by the same cutoff. */
  ghost predicate Flips(small: Graph, big: Graph, coin: (Id, nat) -> bool) {
    && View(small) && View(big) && Newest(small, MEMBERS, coin, 1 + FINALITY_MARGIN)
    && 0 in FinalPart(small, MEMBERS, coin, 1) && 0 !in FinalPart(big, MEMBERS, coin, 1)
  }

  lemma TwoStores(small: Graph, big: Graph, k: nat, coin: (Id, nat) -> bool)
    requires k == 16 && Scripted(EXAMPLE, small, k) && Scripted(EXAMPLE, big, k + 1) && Extends(small, big)
    requires coin(8, 3) && !coin(8, 4)
    ensures Flips(small, big, coin)
  {
    ScriptShape(small, k);
    ScriptShape(big, k + 1);
    IsView(small, k);
    IsView(big, k + 1);
    OneMore(small, big, coin);
  }

  /** The margin alone is not finality, in a run: right before node 2 emits its last event its digest's cutoff is
      round 1 and covers event 0; right after, event 0 is no longer received by round 1. Any coin will do that answers
      yes for event 8 in round 3 and no in round 4. */
  lemma MarginNotFinal(coin: (Id, nat) -> bool) returns (actions: seq<Action>, trace: seq<World>, i: nat)
    requires coin(8, 3) && !coin(8, 4)
    ensures Run(ByPayload, actions, trace) && !Collision(ByPayload, trace[|actions|].made)
    ensures i < |actions| && actions[i].Emit? && actions[i].node == 2
    ensures 2 in trace[i].nodes && 2 in trace[i + 1].nodes
    ensures Flips(StoreAt(trace, i, 2), StoreAt(trace, i + 1, 2), coin)
  {
    ExamplePlayable();
    actions, trace, i := PlayRun(EXAMPLE, EVENTS, 2, 16);
    TwoStores(StoreAt(trace, i, 2), StoreAt(trace, i + 1, 2), 16, coin);
  }
}
