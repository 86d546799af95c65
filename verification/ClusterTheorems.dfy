/** What the cluster invariant means for the history: fork-free, causally clocked, and agreed upon. */
module ClusterTheorems {
  import opened Dag
  import opened Received
  import opened Ordering
  import opened Storage
  import opened VectorClocks
  import opened Replicas
  import opened Cluster

  /** Lamport totals rank the history, so it has no cycles. */
  lemma HistoryAcyclic(h: Hash, w: World)
    requires Good(h, w)
    ensures Acyclic(w.issued) && Closed(w.issued) && WellKeyed(w.issued)
  {
    var d := w.issued;
    var rank := map x | x in d :: Total(d[x].vclock);
    forall x, p | x in d && p in Parents(d[x]) ensures p in d && rank[p] < rank[x] {
      assert EventGood(h, w, x);
      LamportRespectsOrder(d[p].vclock, d[x].vclock);
    }
    forall x | x in d ensures d[x].id == x { assert EventGood(h, w, x); }
    assert Ranked(d, rank);
  }

  lemma {:induction false} ChainSees(d: Graph, own: seq<Id>, n: NodeId, i: nat, j: nat)
    requires Acyclic(d) && Chain(d, own, n) && i <= j < |own|
    ensures Sees(d, own[j], own[i])
  {
    if i < j {
      ChainSees(d, own, n, i, j - 1);
      assert Link(d, own, n, j);
      AncParent(d, own[j], own[i]);
    }
  }

  lemma OneChain(h: Hash, w: World, x: Id, y: Id)
    requires Good(h, w) && Acyclic(w.issued) && x in w.issued && y in w.issued
    requires w.issued[x].source == w.issued[y].source
    ensures Related(w.issued, x, y)
  {
    var n := w.issued[x].source;
    var j := InChain(h, w, x);
    var k := InChain(h, w, y);
    if j <= k {
      ChainSees(w.issued, Own(w.nodes[n], n), n, j, k);
    } else {
      ChainSees(w.issued, Own(w.nodes[n], n), n, k, j);
    }
  }

  /** The history of a good world is what the consensus theorems ask for: closed, acyclic, fork-free. */
  lemma HistoryView(h: Hash, w: World)
    requires Good(h, w)
    ensures View(w.issued)
  {
    HistoryAcyclic(h, w);
    forall x, y | x in w.issued && y in w.issued && w.issued[x].creator == w.issued[y].creator
      ensures Related(w.issued, x, y)
    {
      assert EventGood(h, w, x) && EventGood(h, w, y);
      OneChain(h, w, x, y);
    }
  }

  /** A node's latest row is the tip of its chain: it sees everything the node ever issued. */
  lemma LatestIsTip(h: Hash, w: World, n: NodeId, x: Id)
    requires Good(h, w) && View(w.issued) && x in w.issued && w.issued[x].source == n
    ensures n in w.nodes && x in w.nodes[n].tables.events
    ensures Latest(w.nodes[n].tables, n).Some? && Sees(w.issued, Latest(w.nodes[n].tables, n).value, x)
  {
    var k := InChain(h, w, x);
    var own := Own(w.nodes[n], n);
    assert EventGood(h, w, x);
    ChainSees(w.issued, own, n, k, |own| - 1);
  }

  /** A node's own counter takes the values 1, 2, 3, ... on the events it emits after its genesis, across restarts. */
  lemma OwnCounters(h: Hash, w: World, n: NodeId, k: nat)
    requires Good(h, w) && n in w.nodes && k < |Own(w.nodes[n], n)|
    ensures var x := Own(w.nodes[n], n)[k]; x in w.issued && Get(w.issued[x].vclock, n) == k
  {
    assert NodeGood(w, n);
    assert Link(w.issued, Own(w.nodes[n], n), n, k);
  }

  /** Clock condition: an ancestor's clock is strictly before its descendant's, and its Lamport total smaller. */
  lemma {:induction false} ClockCondition(h: Hash, w: World, a: Id, b: Id)
    requires Good(h, w) && View(w.issued) && b in w.issued && a in Anc(w.issued, b)
    ensures a in w.issued && HappenedBefore(w.issued[a].vclock, w.issued[b].vclock)
    ensures Total(w.issued[a].vclock) < Total(w.issued[b].vclock)
    decreases Height(w.issued, b)
  {
    var d := w.issued;
    assert EventGood(h, w, b);
    AncParent(d, b, a);
    var p :| p in Parents(d[b]) && Sees(d, p, a);
    if p != a {
      ClockCondition(h, w, a, p);
      HappenedBeforeTransitive(d[a].vclock, d[p].vclock, d[b].vclock);
    }
    LamportRespectsOrder(d[a].vclock, d[b].vclock);
  }

  // ---- The same, said of every moment of every run ----

  /** The history of a run is acyclic, ancestor-closed and fork-free at every moment. */
  lemma RunView(h: Hash, actions: seq<Action>, trace: seq<World>, i: nat)
    requires Run(h, actions, trace) && i < |trace| && !Collision(h, trace[i].made)
    ensures View(trace[i].issued) && Good(h, trace[i])
  {
    RunGood(h, actions, trace, i);
    HistoryView(h, trace[i]);
  }

  lemma RunLatestIsTip(h: Hash, actions: seq<Action>, trace: seq<World>, i: nat, n: NodeId, x: Id)
    requires Run(h, actions, trace) && i < |trace| && !Collision(h, trace[i].made)
    requires x in trace[i].issued && trace[i].issued[x].source == n
    ensures View(trace[i].issued) && n in trace[i].nodes && x in StoreAt(trace, i, n)
    ensures var latest := Latest(trace[i].nodes[n].tables, n); latest.Some? && Sees(trace[i].issued, latest.value, x)
  {
    RunView(h, actions, trace, i);
    LatestIsTip(h, trace[i], n, x);
  }

  lemma RunOwnCounters(h: Hash, actions: seq<Action>, trace: seq<World>, i: nat, n: NodeId, k: nat)
    requires Run(h, actions, trace) && i < |trace| && !Collision(h, trace[i].made)
    requires n in trace[i].nodes && k < |Own(trace[i].nodes[n], n)|
    ensures var x := Own(trace[i].nodes[n], n)[k]; x in trace[i].issued && Get(trace[i].issued[x].vclock, n) == k
  {
    RunView(h, actions, trace, i);
    OwnCounters(h, trace[i], n, k);
  }

  lemma RunClockCondition(h: Hash, actions: seq<Action>, trace: seq<World>, i: nat, a: Id, b: Id)
    requires Run(h, actions, trace) && i < |trace| && !Collision(h, trace[i].made) && b in trace[i].issued
    ensures View(trace[i].issued)
    ensures a in Anc(trace[i].issued, b) ==>
      && a in trace[i].issued && HappenedBefore(trace[i].issued[a].vclock, trace[i].issued[b].vclock)
      && Total(trace[i].issued[a].vclock) < Total(trace[i].issued[b].vclock)
  {
    RunView(h, actions, trace, i);
    if a in Anc(trace[i].issued, b) { ClockCondition(h, trace[i], a, b); }
  }

  /** The events node `n` holds at time `i`. */
  function StoreAt(trace: seq<World>, i: nat, n: NodeId): Graph
    requires i < |trace| && n in trace[i].nodes
  {
    trace[i].nodes[n].tables.events
  }

  /** No store of a run ever holds a cycle, whatever it lacks: the recomputation inside `emit_event` and
      `ingest_envelopes` never raises, and emissions always take the branch that the runs model. */
  lemma StoresAcyclic(h: Hash, actions: seq<Action>, trace: seq<World>, i: nat, n: NodeId)
    requires Run(h, actions, trace) && i < |trace| && !Collision(h, trace[i].made) && n in trace[i].nodes
    ensures Acyclic(StoreAt(trace, i, n))
  {
    RunView(h, actions, trace, i);
    assert NodeGood(trace[i], n);
    AcyclicDown(StoreAt(trace, i, n), trace[i].issued);
  }

  /** In particular the store right after an emission, which is what decides whether `emit_event` raises. */
  lemma EmissionNeverRaises(h: Hash, actions: seq<Action>, trace: seq<World>, i: nat)
    requires Run(h, actions, trace) && i < |actions| && actions[i].Emit? && !Collision(h, trace[i + 1].made)
    ensures var a := actions[i];
      && a.node in trace[i].nodes
      && Acyclic(Emitted(trace[i].nodes[a.node], h, a.node, a.cls, a.ts, a.genesis, a.payload, a.other).tables.events)
  {
    assert Step(h, trace[i], actions[i], trace[i + 1]);
    StoresAcyclic(h, actions, trace, i + 1, actions[i].node);
  }

  lemma StepExtends(h: Hash, w: World, a: Action, w': World)
    requires Good(h, w) && MadeAll(h, w) && Step(h, w, a, w') && !Collision(h, w'.made)
    ensures Extends(w.issued, w'.issued)
  {
    if a.Boot? {
      var c := GenesisContent(a.node, a.ts, a.payload);
      AbsentSource(h, w, c);
      FreshId(h, w, c);
    } else if a.Emit? {
      var n := a.node;
      var c := NewContent(w.nodes[n], n, a.cls, a.ts, a.genesis, a.payload, a.other);
      NewCounter(h, w, n, a.other);
      NewContentFresh(h, w, n, c);
      FreshId(h, w, c);
    }
  }

  lemma HistoryGrowsOnce(h: Hash, actions: seq<Action>, trace: seq<World>, i: nat)
    requires Run(h, actions, trace) && i < |actions| && !Collision(h, trace[i + 1].made)
    ensures Extends(trace[i].issued, trace[i + 1].issued)
  {
    MadeGrows(h, actions, trace, i, i + 1);
    RunGood(h, actions, trace, i);
    assert Step(h, trace[i], actions[i], trace[i + 1]);
    StepExtends(h, trace[i], actions[i], trace[i + 1]);
  }

  /** Without collisions the history only grows along a run. */
  lemma {:induction false} HistoryGrowsAlong(h: Hash, actions: seq<Action>, trace: seq<World>, i: nat, j: nat)
    requires Run(h, actions, trace) && i <= j < |trace| && !Collision(h, trace[j].made)
    ensures Extends(trace[i].issued, trace[j].issued)
  {
    if i < j {
      MadeGrows(h, actions, trace, j - 1, j);
      HistoryGrowsAlong(h, actions, trace, i, j - 1);
      HistoryGrowsOnce(h, actions, trace, j - 1);
    }
  }

  /** The store of node `n` at time `i` is a piece of the final history. */
  lemma StoreWithin(h: Hash, actions: seq<Action>, trace: seq<World>, i: nat, n: NodeId)
    requires Run(h, actions, trace) && i < |trace| && n in trace[i].nodes
    requires !Collision(h, trace[|actions|].made)
    ensures View(trace[|actions|].issued)
    ensures Extends(trace[i].nodes[n].tables.events, trace[|actions|].issued)
  {
    var last := |actions|;
    RunGood(h, actions, trace, last);
    HistoryView(h, trace[last]);
    MadeGrows(h, actions, trace, i, last);
    RunGood(h, actions, trace, i);
    HistoryGrowsAlong(h, actions, trace, i, last);
    assert NodeGood(trace[i], n);
  }

  /** Any ancestor-closed store of any node at any moment is a view. */
  lemma ClosedStoreIsView(h: Hash, actions: seq<Action>, trace: seq<World>, i: nat, n: NodeId)
    requires Run(h, actions, trace) && i < |trace| && n in trace[i].nodes
    requires Closed(StoreAt(trace, i, n)) && !Collision(h, trace[|actions|].made)
    ensures View(StoreAt(trace, i, n))
  {
    StoreWithin(h, actions, trace, i, n);
    ViewDown(StoreAt(trace, i, n), trace[|actions|].issued);
  }

  /** An ancestor-closed store of a run is a view, so it makes sense to ask whether it is settled. */
  ghost predicate SettledStore(d: Graph, m: set<NodeId>, coin: (Id, nat) -> bool, r0: nat) {
    View(d) ==> Settled(d, m, coin, r0)
  }

  /** Cluster agreement: any two nodes, at any two moments of one run, whose ancestor-closed stores are settled at `r0`
      have received the same events up to `r0`, in the same rounds. */
  lemma ClusterAgreement(h: Hash, actions: seq<Action>, trace: seq<World>, i: nat, n1: NodeId, j: nat, n2: NodeId,
                         m: set<NodeId>, coin: (Id, nat) -> bool, r0: nat)
    requires Run(h, actions, trace) && !Collision(h, trace[|actions|].made)
    requires i < |trace| && n1 in trace[i].nodes && Closed(StoreAt(trace, i, n1))
    requires j < |trace| && n2 in trace[j].nodes && Closed(StoreAt(trace, j, n2))
    requires SettledStore(StoreAt(trace, i, n1), m, coin, r0) && SettledStore(StoreAt(trace, j, n2), m, coin, r0)
    ensures View(StoreAt(trace, i, n1)) && View(StoreAt(trace, j, n2))
    ensures FinalPart(StoreAt(trace, i, n1), m, coin, r0) == FinalPart(StoreAt(trace, j, n2), m, coin, r0)
  {
    StoreWithin(h, actions, trace, i, n1);
    StoreWithin(h, actions, trace, j, n2);
    ClosedStoreIsView(h, actions, trace, i, n1);
    ClosedStoreIsView(h, actions, trace, j, n2);
    Agreement(StoreAt(trace, i, n1), StoreAt(trace, j, n2), trace[|actions|].issued, m, coin, r0);
  }

  /** And where their observations of those events agree, their total orders open with the same events. */
  lemma ClusterOrder(h: Hash, actions: seq<Action>, trace: seq<World>, i: nat, n1: NodeId, j: nat, n2: NodeId,
                     m: set<NodeId>, coin: (Id, nat) -> bool, r0: nat,
                     seen1: Sightings, seen2: Sightings, keys1: seq<OrderKey>, keys2: seq<OrderKey>) returns (k: nat)
    requires Run(h, actions, trace) && !Collision(h, trace[|actions|].made)
    requires i < |trace| && n1 in trace[i].nodes && View(StoreAt(trace, i, n1))
    requires j < |trace| && n2 in trace[j].nodes && View(StoreAt(trace, j, n2))
    requires Settled(StoreAt(trace, i, n1), m, coin, r0) && Settled(StoreAt(trace, j, n2), m, coin, r0)
    requires forall x :: x in FinalPart(StoreAt(trace, i, n1), m, coin, r0) ==> SeenAt(seen1, x) == SeenAt(seen2, x)
    requires IsOrder(StoreAt(trace, i, n1), m, coin, seen1, keys1)
    requires IsOrder(StoreAt(trace, j, n2), m, coin, seen2, keys2)
    ensures k <= |keys1| && k <= |keys2| && keys1[..k] == keys2[..k]
    ensures forall i :: 0 <= i < |keys1| ==> (i < k <==> ReceivedEarly(r0, keys1[i]))
    ensures forall i :: 0 <= i < |keys2| ==> (i < k <==> ReceivedEarly(r0, keys2[i]))
  {
    StoreWithin(h, actions, trace, i, n1);
    StoreWithin(h, actions, trace, j, n2);
    k := SamePrefix(StoreAt(trace, i, n1), StoreAt(trace, j, n2), trace[|actions|].issued, m, coin, r0,
                    seen1, seen2, keys1, keys2);
  }
}
