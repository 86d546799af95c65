/** Checkpoints and consensus together: settled replicas propose the same root (mdrj/node.py:1790-1826). */
module CheckpointAgreement {
  import opened Dag
  import opened Received
  import opened Ordering
  import opened Sorting
  import opened Merkle

  /** An event with the consensus columns a recomputation gives it. */
  ghost function SealedOf(d: Graph, m: set<NodeId>, coin: (Id, nat) -> bool, seen: Sightings, x: Id): Sealed
    requires View(d) && x in d
  {
    var state := StateOf(d, m, coin, seen, x);
    Sealed(x, d[x].cls, state.creator, d[x].parents, state.consensusTs, state.roundReceived, d[x].payload)
  }

  /** `events` lists, in any order, the events received up to `target` (`_events_up_to_round_received`). */
  ghost predicate ListsCut(d: Graph, m: set<NodeId>, coin: (Id, nat) -> bool, seen: Sightings, target: nat,
                           events: seq<Sealed>)
    requires View(d)
  {
    && Distinct(events)
    && forall e :: e in events <==> InCut(d, m, coin, seen, target, e)
  }

  ghost predicate InCut(d: Graph, m: set<NodeId>, coin: (Id, nat) -> bool, seen: Sightings, target: nat, e: Sealed)
    requires View(d)
  {
    e.id in d && ReceivedBy(d, m, coin, e.id, target) && e == SealedOf(d, m, coin, seen, e.id)
  }

  lemma {:induction false} CutKept(d1: Graph, d2: Graph, all: Graph, m: set<NodeId>, coin: (Id, nat) -> bool, r0: nat,
                seen1: Sightings, seen2: Sightings, e: Sealed)
    requires View(d1) && View(d2) && Extends(d1, all) && Extends(d2, all)
    requires FinalPart(d1, m, coin, r0) == FinalPart(d2, m, coin, r0)
    requires forall x :: x in FinalPart(d1, m, coin, r0) ==> SeenAt(seen1, x) == SeenAt(seen2, x)
    requires InCut(d1, m, coin, seen1, r0, e)
    ensures InCut(d2, m, coin, seen2, r0, e)
  {
    var x := e.id;
    assert x in FinalPart(d1, m, coin, r0);
    assert x in FinalPart(d2, m, coin, r0);
    assert FinalPart(d1, m, coin, r0)[x] == FinalPart(d2, m, coin, r0)[x];
    assert RoundReceived(d1, m, coin, x) == RoundReceived(d2, m, coin, x);
    assert d1[x] == all[x] == d2[x];
  }

  lemma {:induction false} CutsEqual(d1: Graph, d2: Graph, all: Graph, m: set<NodeId>, coin: (Id, nat) -> bool, r0: nat,
                  seen1: Sightings, seen2: Sightings, e: Sealed)
    requires View(d1) && View(d2) && Extends(d1, all) && Extends(d2, all)
    requires FinalPart(d1, m, coin, r0) == FinalPart(d2, m, coin, r0)
    requires forall x :: x in FinalPart(d1, m, coin, r0) ==> SeenAt(seen1, x) == SeenAt(seen2, x)
    ensures InCut(d1, m, coin, seen1, r0, e) <==> InCut(d2, m, coin, seen2, r0, e)
  {
    if InCut(d1, m, coin, seen1, r0, e) {
      CutKept(d1, d2, all, m, coin, r0, seen1, seen2, e);
    } else if InCut(d2, m, coin, seen2, r0, e) {
      CutKept(d2, d1, all, m, coin, r0, seen2, seen1, e);
    }
  }

  /** Replicas whose settled views cut one history, and whose observations of the final events agree,
      compute the same checkpoint root for that round, whatever order their stores list the events in. */
  lemma SameRoot(s: Scheme, d1: Graph, d2: Graph, all: Graph, m: set<NodeId>, coin: (Id, nat) -> bool, r0: nat,
                 seen1: Sightings, seen2: Sightings, events1: seq<Sealed>, events2: seq<Sealed>)
    requires View(all) && View(d1) && View(d2) && Extends(d1, all) && Extends(d2, all)
    requires Settled(d1, m, coin, r0) && Settled(d2, m, coin, r0)
    requires forall x :: x in FinalPart(d1, m, coin, r0) ==> SeenAt(seen1, x) == SeenAt(seen2, x)
    requires ListsCut(d1, m, coin, seen1, r0, events1) && ListsCut(d2, m, coin, seen2, r0, events2)
    ensures Root(s, events1) == Root(s, events2)
  {
    Agreement(d1, d2, all, m, coin, r0);
    forall e ensures e in events1 <==> e in events2 {
      CutsEqual(d1, d2, all, m, coin, r0, seen1, seen2, e);
    }
    OncesEqual(events1, events2);
    RootOfPermutation(s, events1, events2);
  }
}
