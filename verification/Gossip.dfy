/** The gossip queue: what is pending, what a tick sends, and why durable events are not lost
    (mdrj/gossip.py:57-130). */
module Gossip {
  import opened Prelude
  import opened Dag
  import opened Sorting
  import opened Timestamps
  import opened Toposort
  import opened Storage
  import opened Prioritization

  type Peer = nat

  datatype GossipStats = GossipStats(sent: nat, peersContacted: nat, dropped: nat)

  /** Events the program promises to spread: classes A and B, and genesis anchors. */
  predicate Durable(e: Event) {
    e.cls == A || e.cls == B || e.genesis
  }

  /** `env` is the stored copy of its event, its stored path with the sender's own hop appended; `clock` gives the
      reading taken when each id comes off the queue. */
  predicate Outgoing(events: Graph, hops: map<Id, seq<Hop>>, stamps: map<Id, Option<real>>, env: Envelope,
                     self: NodeId, clock: Id -> real) {
    var id := env.event.id;
    && id in events && events[id] == env.event && id in stamps && env.consensusTs == stamps[id]
    && id in hops && env.path == hops[id] + [Hop(self, Some(clock(id)))]
  }

  /** The envelopes collected, in queue order, after taking `taken` off the queue. */
  ghost predicate Collected(events: Graph, hops: map<Id, seq<Hop>>, stamps: map<Id, Option<real>>,
                            envelopes: seq<Envelope>, taken: seq<Id>, self: NodeId, clock: Id -> real) {
    && (forall env :: env in envelopes ==> Outgoing(events, hops, stamps, env, self, clock))
    && IdsIn(envelopes) == Elems(taken) * events.Keys
    && forall i, j :: 0 <= i < j < |envelopes| ==> EarlierIn(taken, envelopes[i].event.id, envelopes[j].event.id)
  }

  lemma EarlierAppend(taken: seq<Id>, id: Id)
    ensures forall a, b :: EarlierIn(taken, a, b) ==> EarlierIn(taken + [id], a, b)
    ensures forall a :: a in taken ==> EarlierIn(taken + [id], a, id)
  {
    var more := taken + [id];
    forall a, b | EarlierIn(taken, a, b) ensures EarlierIn(more, a, b) {
      var i, j :| 0 <= i < j < |taken| && taken[i] == a && taken[j] == b;
      assert more[i] == a && more[j] == b;
    }
    forall a | a in taken ensures EarlierIn(more, a, id) {
      var i :| 0 <= i < |taken| && taken[i] == a;
      assert more[i] == a && more[|taken|] == id;
    }
  }

  lemma CollectedStep(events: Graph, hops: map<Id, seq<Hop>>, stamps: map<Id, Option<real>>, envelopes: seq<Envelope>,
                      taken: seq<Id>, self: NodeId, clock: Id -> real, id: Id, env: Envelope)
    requires Collected(events, hops, stamps, envelopes, taken, self, clock) && id !in taken && id in events
    requires env.event.id == id && Outgoing(events, hops, stamps, env, self, clock)
    ensures Collected(events, hops, stamps, envelopes + [env], taken + [id], self, clock)
  {
    IdsAppend(envelopes, env);
    EarlierAppend(taken, id);
    forall i | 0 <= i < |envelopes| ensures envelopes[i].event.id in taken {
      assert envelopes[i].event.id in IdsIn(envelopes);
    }
    assert Elems(taken + [id]) == Elems(taken) + {id};
  }

  lemma CollectedSkip(events: Graph, hops: map<Id, seq<Hop>>, stamps: map<Id, Option<real>>, envelopes: seq<Envelope>,
                      taken: seq<Id>, self: NodeId, clock: Id -> real, id: Id)
    requires Collected(events, hops, stamps, envelopes, taken, self, clock) && id !in events
    ensures Collected(events, hops, stamps, envelopes, taken + [id], self, clock)
  {
    EarlierAppend(taken, id);
    assert Elems(taken + [id]) == Elems(taken) + {id};
  }

  lemma NotTaken(taken: seq<Id>, rest: seq<Id>)
    requires Distinct(taken + rest) && rest != []
    ensures rest[0] !in taken
  {
    var queue := taken + rest;
    assert queue[|taken|] == rest[0] && forall i :: 0 <= i < |taken| ==> queue[i] == taken[i];
  }

  ghost predicate DistinctBatch(envelopes: seq<Envelope>) {
    forall i, j :: 0 <= i < j < |envelopes| ==> envelopes[i].event.id != envelopes[j].event.id
  }

  lemma CollectedDistinct(events: Graph, hops: map<Id, seq<Hop>>, stamps: map<Id, Option<real>>,
                          envelopes: seq<Envelope>, taken: seq<Id>, self: NodeId, clock: Id -> real)
    requires Collected(events, hops, stamps, envelopes, taken, self, clock) && Distinct(taken)
    ensures DistinctBatch(envelopes)
  {
    forall i, j | 0 <= i < j < |envelopes| ensures envelopes[i].event.id != envelopes[j].event.id {
      assert EarlierIn(taken, envelopes[i].event.id, envelopes[j].event.id);
    }
  }

  lemma RequeueOne(envelopes: seq<Envelope>, i: nat, known: set<Id>)
    requires i < |envelopes|
    ensures IdsIn(envelopes[..i + 1]) == IdsIn(envelopes[..i]) + {envelopes[i].event.id}
    ensures EventIds(envelopes[..i + 1]) == EventIds(envelopes[..i]) + [envelopes[i].event.id]
    ensures DistinctBatch(envelopes) && IdsIn(envelopes) !! known ==>
      envelopes[i].event.id !in known + IdsIn(envelopes[..i])
  {
    assert envelopes[..i + 1] == envelopes[..i] + [envelopes[i]];
    IdsAppend(envelopes[..i], envelopes[i]);
    assert envelopes[i].event.id in IdsIn(envelopes);
  }

  class GossipEngine {
    const nodeId: NodeId
    const storage: DagStorage
    const policy: Policy
    const cost: Envelope -> nat
    const fanOut: nat
    var pending: seq<Id>
    var known: set<Id>

    constructor (nodeId: NodeId, storage: DagStorage, policy: Policy, cost: Envelope -> nat, fanOut: nat)
      ensures this.nodeId == nodeId && this.storage == storage && this.policy == policy && this.fanOut == fanOut
      ensures Valid() && pending == []
    {
      this.nodeId, this.storage, this.policy, this.cost, this.fanOut := nodeId, storage, policy, cost, fanOut;
      pending, known := [], {};
    }

    /** The queue has no duplicates and `known` is its set of ids. */
    ghost predicate Valid()
      reads this
    {
      Distinct(pending) && known == Elems(pending)
    }

    method AddPending(id: Id)
      requires Valid()
      modifies this`pending, this`known
      ensures Valid()
      ensures pending == if id in old(pending) then old(pending) else old(pending) + [id]
      ensures known == old(known) + {id}
    {
      assert id in known <==> id in pending;
      if id in known {
        return;
      }
      DistinctAppend(pending, id);
      known := known + {id};
      pending := pending + [id];
    }

    method AddAll(ids: seq<Id>)
      requires Valid()
      modifies this`pending, this`known
      ensures Valid() && old(pending) <= pending
      ensures known == old(known) + Elems(ids)
      ensures Distinct(ids) && Elems(ids) !! old(known) ==> pending == old(pending) + ids
    {
      for i := 0 to |ids|
        invariant Valid() && old(pending) <= pending
        invariant known == old(known) + Elems(ids[..i])
        invariant Distinct(ids) && Elems(ids) !! old(known) ==> pending == old(pending) + ids[..i]
      {
        assert ids[..i + 1] == ids[..i] + [ids[i]];
        AddPending(ids[i]);
      }
      assert ids[..|ids|] == ids;
    }

    /** Ids already queued keep their place; the others follow in the order given. */
    method RequeueEnvelopes(envelopes: seq<Envelope>)
      requires Valid()
      modifies this`pending, this`known
      ensures Valid() && old(pending) <= pending
      ensures known == old(known) + IdsIn(envelopes)
      ensures DistinctBatch(envelopes) && IdsIn(envelopes) !! old(known) ==>
        pending == old(pending) + EventIds(envelopes)
    {
      for i := 0 to |envelopes|
        invariant Valid() && old(pending) <= pending
        invariant known == old(known) + IdsIn(envelopes[..i])
        invariant DistinctBatch(envelopes) && IdsIn(envelopes) !! old(known) ==>
          pending == old(pending) + EventIds(envelopes[..i])
      {
        RequeueOne(envelopes, i, old(known));
        AddPending(envelopes[i].event.id);
      }
      assert envelopes[..|envelopes|] == envelopes;
    }

    /** Drain the queue; ids without a stored event vanish, the others come out as envelopes with a fresh hop. */
    method CollectPending(clock: Id -> real) returns (envelopes: seq<Envelope>)
      requires Valid() && WellKeyed(storage.events)
      requires storage.envelopes.Keys == storage.events.Keys == storage.consensusTs.Keys
      modifies this`pending, this`known
      ensures Valid() && pending == [] && Distinct(old(pending))
      ensures Collected(storage.events, storage.envelopes, storage.consensusTs, envelopes, old(pending), nodeId, clock)
    {
      envelopes := [];
      ghost var taken: seq<Id>, queue := [], pending;
      while pending != []
        invariant Valid() && Distinct(queue) && taken + pending == queue
        invariant Collected(storage.events, storage.envelopes, storage.consensusTs, envelopes, taken, nodeId, clock)
        decreases |pending|
      {
        NotTaken(taken, pending);
        assert queue == taken + [pending[0]] + pending[1..];
        var id := TakeFirst();
        envelopes := CollectOne(id, clock, envelopes, taken);
        taken := taken + [id];
      }
      assert taken == queue;
    }

    method CollectOne(id: Id, clock: Id -> real, envelopes: seq<Envelope>, ghost taken: seq<Id>)
        returns (envelopes': seq<Envelope>)
      requires Collected(storage.events, storage.envelopes, storage.consensusTs, envelopes, taken, nodeId, clock)
      requires WellKeyed(storage.events) && storage.envelopes.Keys == storage.events.Keys == storage.consensusTs.Keys
      requires id !in taken
      ensures Collected(storage.events, storage.envelopes, storage.consensusTs, envelopes', taken + [id], nodeId, clock)
    {
      envelopes' := envelopes;
      if id in storage.events {
        var env := Envelope(storage.events[id], storage.envelopes[id] + [Hop(nodeId, Some(clock(id)))],
          storage.consensusTs[id]);
        CollectedStep(storage.events, storage.envelopes, storage.consensusTs, envelopes, taken, nodeId, clock, id, env);
        envelopes' := envelopes + [env];
      } else {
        CollectedSkip(storage.events, storage.envelopes, storage.consensusTs, envelopes, taken, nodeId, clock, id);
      }
    }

    method TakeFirst() returns (id: Id)
      requires Valid() && pending != []
      modifies this`pending, this`known
      ensures Valid()
      ensures id == old(pending)[0] && pending == old(pending)[1..]
      ensures id in old(known) && known == old(known) - {id}
    {
      DistinctTail(pending);
      assert pending[0] in Elems(pending);
      id := pending[0];
      pending := pending[1..];
      known := known - {id};
    }

    /** Send to the selected peers; `answers` says who accepts. */
    method SendAll(selected: seq<Peer>, envelopes: seq<Envelope>, answers: Peer -> bool) returns (sent: nat)
      ensures sent == |envelopes| * CountAnswers(selected, answers)
    {
      sent := 0;
      for i := 0 to |selected|
        invariant sent == |envelopes| * CountAnswers(selected[..i], answers)
      {
        assert selected[..i + 1][..i] == selected[..i];
        if answers(selected[i]) { sent := sent + |envelopes|; }
      }
      assert selected[..|selected|] == selected;
    }

    /** One gossip round. Ghost results: the envelopes collected, the plan made of them, the peers asked and those that
        took the batch. */
    method Tick(clock: Id -> real, peers: seq<Peer>, answers: Peer -> bool)
        returns (stats: GossipStats, ghost batch: seq<Envelope>, ghost plan: BatchPlan, ghost asked: set<Peer>,
                 ghost takers: set<Peer>)
      requires Valid() && storage.Valid() && Distinct(peers)
      modifies this`pending, this`known
      ensures Valid() && Distinct(old(pending))
      ensures pending == EventIds(plan.deferred) + if takers == {} then EventIds(plan.envelopes) else []
      ensures known == Requeued(plan, takers)
      ensures asked <= (set peer | peer in peers) && takers == set peer | peer in asked && answers(peer)
      ensures |asked| == if plan.envelopes == [] then 0 else if fanOut < |peers| then fanOut else |peers|
      ensures stats == GossipStats(|plan.envelopes| * |takers|, |asked|, plan.dropped)
      ensures Collected(storage.events, storage.envelopes, storage.consensusTs, batch, old(pending), nodeId, clock)
      ensures PlanOf(batch, policy, cost, plan)
      ensures PlanFor(storage.events, Elems(old(pending)), policy, cost, plan)
    {
      var outcome;
      outcome, batch := PlanRound(clock);
      plan := outcome;
      stats, asked, takers := SendRound(outcome, peers, answers);
    }

    /** Send what was accepted, if anything. */
    method SendRound(plan: BatchPlan, peers: seq<Peer>, answers: Peer -> bool)
        returns (stats: GossipStats, ghost asked: set<Peer>, ghost takers: set<Peer>)
      requires Valid() && Distinct(peers) && pending == EventIds(plan.deferred) && known == IdsIn(plan.deferred)
      requires DistinctBatch(plan.envelopes) && IdsIn(plan.envelopes) !! IdsIn(plan.deferred)
      modifies this`pending, this`known
      ensures Valid()
      ensures pending == EventIds(plan.deferred) + if takers == {} then EventIds(plan.envelopes) else []
      ensures known == Requeued(plan, takers)
      ensures asked <= (set peer | peer in peers) && takers == set peer | peer in asked && answers(peer)
      ensures |asked| == if plan.envelopes == [] then 0 else if fanOut < |peers| then fanOut else |peers|
      ensures stats == GossipStats(|plan.envelopes| * |takers|, |asked|, plan.dropped)
    {
      asked, takers := {}, {};
      var sent, contacted := 0, 0;
      if plan.envelopes != [] {
        sent, contacted, asked, takers := SpreadBatch(plan.envelopes, peers, answers);
      } else {
        assert IdsIn(plan.envelopes) == {} && EventIds(plan.envelopes) == [];
      }
      stats := GossipStats(sent, contacted, plan.dropped);
    }

    /** Drain the queue, plan the batch, put the deferred part back. */
    method PlanRound(clock: Id -> real) returns (plan: BatchPlan, ghost batch: seq<Envelope>)
      requires Valid() && storage.Valid()
      modifies this`pending, this`known
      ensures Valid() && Distinct(old(pending))
      ensures Collected(storage.events, storage.envelopes, storage.consensusTs, batch, old(pending), nodeId, clock)
      ensures PlanOf(batch, policy, cost, plan)
      ensures PlanFor(storage.events, Elems(old(pending)), policy, cost, plan)
      ensures pending == EventIds(plan.deferred) && known == IdsIn(plan.deferred)
    {
      var envelopes := CollectPending(clock);
      batch := envelopes;
      CollectedDistinct(storage.events, storage.envelopes, storage.consensusTs, batch, old(pending), nodeId, clock);
      plan := PlanPending(envelopes);
      CollectedPlan(storage.events, storage.envelopes, storage.consensusTs, batch, old(pending), nodeId, clock,
                    policy, cost, plan);
      assert known == {};
      RequeueEnvelopes(plan.deferred);
    }

    /** Offer the batch to some peers; with no peers, or no takers, it goes back to the queue. */
    method SpreadBatch(batch: seq<Envelope>, peers: seq<Peer>, answers: Peer -> bool)
        returns (sent: nat, contacted: nat, ghost asked: set<Peer>, ghost takers: set<Peer>)
      requires Valid() && Distinct(peers) && batch != []
      requires DistinctBatch(batch) && IdsIn(batch) !! known
      modifies this`pending, this`known
      ensures Valid()
      ensures pending == old(pending) + if takers == {} then EventIds(batch) else []
      ensures known == old(known) + if takers == {} then IdsIn(batch) else {}
      ensures asked <= (set peer | peer in peers) && takers == set peer | peer in asked && answers(peer)
      ensures |asked| == contacted == if fanOut < |peers| then fanOut else |peers|
      ensures sent == |batch| * |takers|
    {
      asked, takers := {}, {};
      if peers == [] {
        RequeueEnvelopes(batch);
        return 0, 0, asked, takers;
      }
      var selected := SamplePeers(peers);
      sent := SendAll(selected, batch, answers);
      contacted := |selected|;
      asked := Elems(selected);
      takers := set peer | peer in asked && answers(peer);
      DistinctCard(selected);
      AnswersCounted(selected, answers);
      assert takers == Takers(selected, answers);
      if sent == 0 {
        RequeueEnvelopes(batch);
      }
    }

    method SamplePeers(peers: seq<Peer>) returns (selected: seq<Peer>)
      requires Distinct(peers)
      ensures Distinct(selected) && |selected| == if fanOut < |peers| then fanOut else |peers|
      ensures forall peer :: peer in selected ==> peer in peers
    {
      var size := if fanOut < |peers| then fanOut else |peers|;
      var rest := set peer | peer in peers;
      assert rest == Elems(peers);
      DistinctCard(peers);
      selected := [];
      while |selected| < size
        invariant |selected| <= size && Distinct(selected)
        invariant rest !! Elems(selected) && |rest| == |peers| - |selected|
        invariant forall peer :: peer in rest || peer in selected ==> peer in peers
      {
        var peer :| peer in rest;
        DistinctAppend(selected, peer);
        rest := rest - {peer};
        selected := selected + [peer];
      }
    }

    /** Everything classes A and B need for causality is required in the batch. */
    method PlanPending(envelopes: seq<Envelope>) returns (plan: BatchPlan)
      requires DistinctBatch(envelopes)
      ensures PlanOf(envelopes, policy, cost, plan)
    {
      var required: set<Id> := {};
      for i := 0 to |envelopes|
        invariant RequiredBy(envelopes[..i], required)
      {
        var e := envelopes[i].event;
        RequiredStep(envelopes, i, required);
        if e.cls == A || e.cls == B {
          required := required + {e.id} + Parents(e);
        }
      }
      assert envelopes[..|envelopes|] == envelopes;
      ghost var ordered, marks;
      plan, ordered, marks := PlanBatch(policy, cost, envelopes, required);
      PlanWithinCap(policy, cost, required, ordered, marks);
      PlanKeeps(policy, cost, required, envelopes, ordered, marks, plan);
    }
  }

  function CountAnswers(selected: seq<Peer>, answers: Peer -> bool): nat {
    if selected == [] then 0
    else CountAnswers(selected[..|selected| - 1], answers) + if answers(selected[|selected| - 1]) then 1 else 0
  }

  function Takers(selected: seq<Peer>, answers: Peer -> bool): set<Peer> {
    set peer | peer in selected && answers(peer)
  }

  lemma TakersAppend(front: seq<Peer>, peer: Peer, answers: Peer -> bool)
    ensures Takers(front + [peer], answers) == Takers(front, answers) + if answers(peer) then {peer} else {}
  {
  }

  lemma {:induction false} AnswersCounted(selected: seq<Peer>, answers: Peer -> bool)
    requires Distinct(selected)
    ensures CountAnswers(selected, answers) == |Takers(selected, answers)|
  {
    if selected == [] {
      assert Takers(selected, answers) == {};
    } else {
      var last := |selected| - 1;
      var front, peer := selected[..last], selected[last];
      AnswersCounted(front, answers);
      assert selected == front + [peer];
      TakersAppend(front, peer, answers);
      assert peer !in Takers(front, answers);
    }
  }

  /** `y` brings `x` along: they are the same event, one is a parent of the other, or they share a parent. */
  ghost predicate Touches(y: Event, x: Event) {
    || x.id == y.id || x.id in y.parents || y.id in x.parents
    || exists q :: q in x.parents && q in y.parents
  }

  /** `z` makes room for `x`: `x` is a parent of `z`, or they share a parent. */
  ghost predicate Wants(z: Event, x: Event) {
    x.id in z.parents || exists q :: q in x.parents && q in z.parents
  }

  /** Some class A or B envelope of the batch brings `x` along. */
  ghost predicate BroughtAlong(envelopes: seq<Envelope>, x: Event) {
    exists y :: y in envelopes && y.event.cls != C && Touches(y.event, x)
  }

  /** Relayed, now or later, is exactly what is durable, what a class A or B envelope brings along, and what an envelope
      accepted sooner makes room for. */
  ghost predicate Kept(envelopes: seq<Envelope>, plan: BatchPlan, env: Envelope) {
    env in plan.envelopes || env in plan.deferred <==>
      || Durable(env.event) || BroughtAlong(envelopes, env.event)
      || exists z :: z in plan.envelopes && Sooner(envelopes, z, env) && Wants(z.event, env.event)
  }

  /** `env` no longer fitted when its turn came, next to the `k` accepted envelopes that came sooner. */
  ghost predicate CrowdedOut(envelopes: seq<Envelope>, p: Policy, cost: Envelope -> nat, plan: BatchPlan, env: Envelope,
                             k: nat) {
    && k <= |plan.envelopes| && TotalCost(cost, plan.envelopes[..k]) + cost(env) > BatchCap(p)
    && forall j :: 0 <= j < |plan.envelopes| ==> (j < k <==> Sooner(envelopes, plan.envelopes[j], env))
  }

  /** A plan for a batch: in priority order, within the cap, nothing deferred that would have fitted, and kept what must
      be kept. */
  ghost predicate PlanOf(envelopes: seq<Envelope>, p: Policy, cost: Envelope -> nat, plan: BatchPlan) {
    && |plan.envelopes| + |plan.deferred| + plan.dropped == |envelopes|
    && DistinctBatch(plan.envelopes) && DistinctBatch(plan.deferred)
    && IdsIn(plan.envelopes) !! IdsIn(plan.deferred)
    && InPriorityOrder(envelopes, plan.envelopes) && InPriorityOrder(envelopes, plan.deferred)
    && (forall env :: env in plan.envelopes || env in plan.deferred ==> env in envelopes)
    && (forall env :: env in envelopes ==> Kept(envelopes, plan, env))
    && plan.totalBytes <= BatchCap(p) && plan.totalBytes == TotalCost(cost, plan.envelopes)
    && (forall env :: env in plan.deferred ==> exists k :: CrowdedOut(envelopes, p, cost, plan, env, k))
    && forall env :: env in plan.deferred ==> plan.totalBytes + cost(env) > BatchCap(p)
  }

  /** The queued event `x` is durable, or a queued class A or B event brings it along. */
  ghost predicate Needed(events: Graph, queued: set<Id>, x: Id)
    requires x in events
  {
    Durable(events[x]) || exists y :: y in queued && y in events && events[y].cls != C && Touches(events[y], events[x])
  }

  /** What this means for the ids that were queued: whatever is needed is kept, and whatever else is kept some accepted
      event makes room for. */
  ghost predicate PlanFor(events: Graph, queued: set<Id>, p: Policy, cost: Envelope -> nat, plan: BatchPlan) {
    var kept := IdsIn(plan.envelopes) + IdsIn(plan.deferred);
    && |plan.envelopes| + |plan.deferred| + plan.dropped == |queued * events.Keys| && kept <= queued * events.Keys
    && (forall x :: x in queued && x in events && Needed(events, queued, x) ==> x in kept)
    && (forall x :: x in kept && !Needed(events, queued, x) ==>
         exists z :: z in IdsIn(plan.envelopes) && z != x && Wants(events[z], events[x]))
    && plan.totalBytes <= BatchCap(p) && plan.totalBytes == TotalCost(cost, plan.envelopes)
    && forall env :: env in plan.deferred ==> plan.totalBytes + cost(env) > BatchCap(p)
  }

  lemma CollectedPlan(events: Graph, hops: map<Id, seq<Hop>>, stamps: map<Id, Option<real>>, envelopes: seq<Envelope>,
                      queue: seq<Id>, self: NodeId, clock: Id -> real, p: Policy, cost: Envelope -> nat,
                      plan: BatchPlan)
    requires Collected(events, hops, stamps, envelopes, queue, self, clock)
    requires DistinctBatch(envelopes) && PlanOf(envelopes, p, cost, plan)
    ensures PlanFor(events, Elems(queue), p, cost, plan)
  {
    BatchCard(envelopes);
    KeptWithin(envelopes, plan);
    forall x | x in Elems(queue) && x in events ensures KeptId(events, Elems(queue), plan, x) {
      assert x in IdsIn(envelopes);
      var env :| env in envelopes && env.event.id == x;
      IdKept(events, hops, stamps, envelopes, queue, self, clock, plan, env);
    }
  }

  lemma KeptWithin(envelopes: seq<Envelope>, plan: BatchPlan)
    requires forall env :: env in plan.envelopes || env in plan.deferred ==> env in envelopes
    ensures IdsIn(plan.envelopes) <= IdsIn(envelopes) && IdsIn(plan.deferred) <= IdsIn(envelopes)
  {
  }

  ghost predicate KeptId(events: Graph, queued: set<Id>, plan: BatchPlan, x: Id)
    requires x in events && IdsIn(plan.envelopes) <= events.Keys
  {
    var kept := IdsIn(plan.envelopes) + IdsIn(plan.deferred);
    && (Needed(events, queued, x) ==> x in kept)
    && (x in kept && !Needed(events, queued, x) ==>
         exists z :: z in IdsIn(plan.envelopes) && z != x && Wants(events[z], events[x]))
  }

  lemma {:induction false} BatchCard(envelopes: seq<Envelope>)
    requires DistinctBatch(envelopes)
    ensures |IdsIn(envelopes)| == |envelopes|
  {
    if envelopes != [] {
      var last := |envelopes| - 1;
      assert envelopes == envelopes[..last] + [envelopes[last]];
      BatchCard(envelopes[..last]);
      IdsAppend(envelopes[..last], envelopes[last]);
    }
  }

  lemma SameId(envelopes: seq<Envelope>, a: Envelope, b: Envelope)
    requires DistinctBatch(envelopes) && a in envelopes && b in envelopes && a.event.id == b.event.id
    ensures a == b
  {
  }

  lemma IdKept(events: Graph, hops: map<Id, seq<Hop>>, stamps: map<Id, Option<real>>, envelopes: seq<Envelope>,
               queue: seq<Id>, self: NodeId, clock: Id -> real, plan: BatchPlan, env: Envelope)
    requires Collected(events, hops, stamps, envelopes, queue, self, clock) && DistinctBatch(envelopes)
    requires forall e :: e in plan.envelopes || e in plan.deferred ==> e in envelopes
    requires env in envelopes && Kept(envelopes, plan, env) && Distinct(envelopes)
    requires IdsIn(plan.envelopes) <= events.Keys
    ensures env.event.id in events && KeptId(events, Elems(queue), plan, env.event.id)
  {
    var x, queued := env.event.id, Elems(queue);
    assert Outgoing(events, hops, stamps, env, self, clock);
    if y :| y in envelopes && y.event.cls != C && Touches(y.event, env.event) {
      assert Outgoing(events, hops, stamps, y, self, clock) && y.event.id in IdsIn(envelopes);
    }
    if y :| y in queued && y in events && events[y].cls != C && Touches(events[y], events[x]) {
      assert y in IdsIn(envelopes);
      var other :| other in envelopes && other.event.id == y;
      assert Outgoing(events, hops, stamps, other, self, clock);
    }
    assert Needed(events, queued, x) <==> Durable(env.event) || BroughtAlong(envelopes, env.event);
    if x in IdsIn(plan.envelopes) + IdsIn(plan.deferred) {
      var e :| (e in plan.envelopes || e in plan.deferred) && e.event.id == x;
      SameId(envelopes, e, env);
    }
    if z :| z in plan.envelopes && Sooner(envelopes, z, env) && Wants(z.event, env.event) {
      SoonerOnce(envelopes, z, env);
      assert Outgoing(events, hops, stamps, z, self, clock) && z.event.id in IdsIn(plan.envelopes);
      if z.event.id == x { SameId(envelopes, z, env); }
    }
  }

  ghost predicate RequiredBy(envelopes: seq<Envelope>, required: set<Id>) {
    forall x :: x in required <==> BringsIn(envelopes, x)
  }

  /** `x` is a class A or B event of the batch, or a parent of one. */
  ghost predicate BringsIn(envelopes: seq<Envelope>, x: Id) {
    exists y :: y in envelopes && y.event.cls != C && (x == y.event.id || x in y.event.parents)
  }

  lemma RequiredStep(envelopes: seq<Envelope>, i: nat, required: set<Id>)
    requires i < |envelopes| && RequiredBy(envelopes[..i], required)
    ensures var e := envelopes[i].event;
      RequiredBy(envelopes[..i + 1], if e.cls == C then required else required + {e.id} + Parents(e))
  {
    var env := envelopes[i];
    assert envelopes[..i + 1] == envelopes[..i] + [env];
    forall x
      ensures BringsIn(envelopes[..i + 1], x)
         <==> BringsIn(envelopes[..i], x) || (env.event.cls != C && (x == env.event.id || x in env.event.parents))
    {
      if y :| y in envelopes[..i] && y.event.cls != C && (x == y.event.id || x in y.event.parents) {
        assert y in envelopes[..i + 1];
      }
      assert env in envelopes[..i + 1];
    }
  }

  lemma PlanKeeps(p: Policy, cost: Envelope -> nat, required: set<Id>, envelopes: seq<Envelope>,
                  ordered: seq<Envelope>, marks: seq<Mark>, plan: BatchPlan)
    requires Planned(p, cost, required, ordered, marks) && multiset(ordered) == multiset(envelopes)
    requires DistinctBatch(envelopes) && RequiredBy(envelopes, required) && InPriorityOrder(envelopes, ordered)
    requires plan.envelopes == Marked(ordered, marks, Accepted) && plan.deferred == Marked(ordered, marks, Deferred)
    requires plan.totalBytes == TotalCost(cost, plan.envelopes)
    requires plan.totalBytes <= BatchCap(p) && plan.dropped == |Marked(ordered, marks, Dropped)|
    ensures PlanOf(envelopes, p, cost, plan)
  {
    PlanCounts(envelopes, ordered, marks);
    PermutedDistinct(envelopes, ordered);
    assert forall env :: env in envelopes <==> env in ordered;
    MarkedDistinct(envelopes, ordered, marks, Accepted);
    MarkedDistinct(envelopes, ordered, marks, Deferred);
    MarksApart(envelopes, ordered, marks, plan);
    forall env | env in envelopes ensures Kept(envelopes, plan, env) {
      var i :| 0 <= i < |ordered| && ordered[i] == env;
      PlanKept(p, cost, required, envelopes, ordered, marks, plan, i);
    }
    forall env | env in plan.deferred
      ensures plan.totalBytes + cost(env) > BatchCap(p)
      ensures exists k :: CrowdedOut(envelopes, p, cost, plan, env, k)
    {
      DeferredWouldNotFit(p, cost, required, ordered, marks, env);
      DeferredCrowdedOut(p, cost, required, envelopes, ordered, marks, plan, env);
    }
  }

  lemma MarkedDistinct(envelopes: seq<Envelope>, ordered: seq<Envelope>, marks: seq<Mark>, mark: Mark)
    requires |ordered| == |marks| && DistinctBatch(envelopes) && InPriorityOrder(envelopes, ordered)
    requires forall env :: env in ordered ==> env in envelopes
    ensures InPriorityOrder(envelopes, Marked(ordered, marks, mark)) && DistinctBatch(Marked(ordered, marks, mark))
  {
    MarkedOrder(envelopes, ordered, marks, mark);
    var marked := Marked(ordered, marks, mark);
    forall i, j | 0 <= i < j < |marked| ensures marked[i].event.id != marked[j].event.id {
      assert marked[i] in marked && marked[j] in marked;
      SoonerOnce(envelopes, marked[i], marked[j]);
      if marked[i].event.id == marked[j].event.id { SameId(envelopes, marked[i], marked[j]); }
    }
  }

  lemma MarksApart(envelopes: seq<Envelope>, ordered: seq<Envelope>, marks: seq<Mark>, plan: BatchPlan)
    requires |ordered| == |marks| && DistinctBatch(envelopes) && Distinct(ordered)
    requires forall env :: env in ordered ==> env in envelopes
    requires plan.envelopes == Marked(ordered, marks, Accepted) && plan.deferred == Marked(ordered, marks, Deferred)
    ensures IdsIn(plan.envelopes) !! IdsIn(plan.deferred)
  {
    forall a, b | a in plan.envelopes && b in plan.deferred ensures a.event.id != b.event.id {
      var i :| 0 <= i < |ordered| && ordered[i] == a && marks[i] == Accepted;
      var j :| 0 <= j < |ordered| && ordered[j] == b && marks[j] == Deferred;
      if a.event.id == b.event.id { SameId(envelopes, ordered[i], ordered[j]); }
    }
  }

  /** `x` is required, or a parent of an envelope accepted sooner than `env`. */
  ghost predicate WantedFor(envelopes: seq<Envelope>, plan: BatchPlan, env: Envelope, x: Id) {
    || BringsIn(envelopes, x)
    || exists z :: z in plan.envelopes && Sooner(envelopes, z, env) && x in z.event.parents
  }

  lemma PlanKept(p: Policy, cost: Envelope -> nat, required: set<Id>, envelopes: seq<Envelope>,
                 ordered: seq<Envelope>, marks: seq<Mark>, plan: BatchPlan, i: nat)
    requires Planned(p, cost, required, ordered, marks) && InPriorityOrder(envelopes, ordered) && i < |ordered|
    requires Distinct(envelopes) && Distinct(ordered) && RequiredBy(envelopes, required)
    requires plan.envelopes == Marked(ordered, marks, Accepted) && plan.deferred == Marked(ordered, marks, Deferred)
    ensures Kept(envelopes, plan, ordered[i])
  {
    var env := ordered[i];
    var wanted := required + AllParents(Marked(ordered[..i], marks[..i], Accepted));
    WantedSet(ordered, marks, i);
    DroppedExactly(p, cost, required, ordered, marks, i, wanted);
    forall x ensures x in wanted <==> WantedFor(envelopes, plan, env, x) {
      if k :| 0 <= k < i && marks[k] == Accepted && x in ordered[k].event.parents {
        assert ordered[k] in plan.envelopes && Sooner(envelopes, ordered[k], env);
      }
      if z :| z in plan.envelopes && Sooner(envelopes, z, env) && x in z.event.parents {
        var k := PlaceBefore(envelopes, ordered, marks, plan, z, i);
        assert WantedBefore(ordered, marks, i, x);
      }
    }
    MarkedOnce(ordered, marks, i, Accepted);
    MarkedOnce(ordered, marks, i, Deferred);
    KeptMeaning(envelopes, plan, env, wanted);
  }

  lemma MarkedOnce(ordered: seq<Envelope>, marks: seq<Mark>, i: nat, mark: Mark)
    requires Distinct(ordered) && i < |ordered| == |marks|
    ensures ordered[i] in Marked(ordered, marks, mark) <==> marks[i] == mark
  {
  }

  lemma PlaceBefore(envelopes: seq<Envelope>, ordered: seq<Envelope>, marks: seq<Mark>, plan: BatchPlan, z: Envelope,
                    i: nat) returns (k: nat)
    requires InPriorityOrder(envelopes, ordered) && i < |ordered| == |marks| && Distinct(envelopes)
    requires plan.envelopes == Marked(ordered, marks, Accepted)
    requires z in plan.envelopes && Sooner(envelopes, z, ordered[i])
    ensures k < i && ordered[k] == z && marks[k] == Accepted
  {
    k :| 0 <= k < |ordered| && ordered[k] == z && marks[k] == Accepted;
    SoonerOnce(envelopes, z, ordered[i]);
  }

  /** Not being expendable, in the terms of the batch. */
  lemma KeptMeaning(envelopes: seq<Envelope>, plan: BatchPlan, env: Envelope, wanted: set<Id>)
    requires forall x :: x in wanted <==> WantedFor(envelopes, plan, env, x)
    requires env in plan.envelopes || env in plan.deferred <==> !Expendable(env.event, wanted)
    ensures Kept(envelopes, plan, env)
  {
    var e := env.event;
    if x :| (x == e.id || x in e.parents) && x in wanted {
      if BringsIn(envelopes, x) {
        var y :| y in envelopes && y.event.cls != C && (x == y.event.id || x in y.event.parents);
        assert Touches(y.event, e);
      } else {
        var z :| z in plan.envelopes && Sooner(envelopes, z, env) && x in z.event.parents;
        assert Wants(z.event, e);
      }
    }
    if y :| y in envelopes && y.event.cls != C && Touches(y.event, e) {
      assert BringsIn(envelopes, y.event.id) && forall q :: q in y.event.parents ==> BringsIn(envelopes, q);
    }
    if z :| z in plan.envelopes && Sooner(envelopes, z, env) && Wants(z.event, e) {
      assert forall q :: q in z.event.parents ==> q in wanted;
    }
  }

  lemma NotEarlier(envelopes: seq<Envelope>, k: nat, j: nat)
    requires DistinctBatch(envelopes) && k <= j < |envelopes|
    ensures envelopes[j] !in envelopes[..k]
  {
  }

  lemma DeferredCrowdedOut(p: Policy, cost: Envelope -> nat, required: set<Id>, envelopes: seq<Envelope>,
                           ordered: seq<Envelope>, marks: seq<Mark>, plan: BatchPlan, env: Envelope)
    requires Planned(p, cost, required, ordered, marks) && InPriorityOrder(envelopes, ordered)
    requires Distinct(envelopes) && DistinctBatch(plan.envelopes)
    requires plan.envelopes == Marked(ordered, marks, Accepted) && env in Marked(ordered, marks, Deferred)
    ensures exists k :: CrowdedOut(envelopes, p, cost, plan, env, k)
  {
    var i :| 0 <= i < |ordered| && ordered[i] == env && marks[i] == Deferred;
    assert Ruled(p, cost, required, ordered, marks, i);
    var before := Marked(ordered[..i], marks[..i], Accepted);
    var k := |before|;
    MarkedPrefix(ordered, marks, Accepted, i);
    assert plan.envelopes[..k] == before;
    forall z | z in plan.envelopes && Sooner(envelopes, z, env) ensures z in before {
      var q := PlaceBefore(envelopes, ordered, marks, plan, z, i);
      assert ordered[..i][q] == z && marks[..i][q] == Accepted;
    }
    forall j | 0 <= j < |plan.envelopes| ensures j < k <==> Sooner(envelopes, plan.envelopes[j], env) {
      if j < k {
        assert before[j] in before;
        var q :| 0 <= q < i && ordered[..i][q] == before[j];
        assert ordered[q] == plan.envelopes[j];
      } else {
        NotEarlier(plan.envelopes, k, j);
      }
    }
    assert CrowdedOut(envelopes, p, cost, plan, env, k);
  }

  lemma PlanCounts(envelopes: seq<Envelope>, ordered: seq<Envelope>, marks: seq<Mark>)
    requires |ordered| == |marks| && multiset(ordered) == multiset(envelopes)
    ensures |Marked(ordered, marks, Accepted)| + |Marked(ordered, marks, Deferred)| +
      |Marked(ordered, marks, Dropped)| == |envelopes|
  {
    PlanPartitions(ordered, marks);
    assert |multiset(ordered)| == |ordered| && |multiset(envelopes)| == |envelopes|;
  }

  /** What is queued after a tick: the deferred envelopes, and the accepted ones when nobody took them. */
  function Requeued(plan: BatchPlan, takers: set<Peer>): set<Id> {
    IdsIn(plan.deferred) + if takers == {} then IdsIn(plan.envelopes) else {}
  }

  // ---- Over many ticks ----

  /** One tick of the engine: what was stored and queued when it began, the plan it made, the peers that took the
      batch. */
  datatype Round = Round(events: Graph, queued: set<Id>, plan: BatchPlan, takers: set<Peer>)

  /** Ticks in a row, as `Tick` leaves them. In between, the store only grows and ids are only added to the queue. */
  ghost predicate Ticks(p: Policy, cost: Envelope -> nat, rounds: seq<Round>) {
    && (forall i {:trigger rounds[i]} :: 0 <= i < |rounds| ==>
        PlanFor(rounds[i].events, rounds[i].queued, p, cost, rounds[i].plan))
    && forall i, j {:trigger rounds[i], rounds[j]} :: 0 <= i < |rounds| && j == i + 1 && j < |rounds| ==>
         && Requeued(rounds[i].plan, rounds[i].takers) <= rounds[j].queued
         && Extends(rounds[i].events, rounds[j].events)
  }

  /** Some peer took a batch that held `x`. */
  predicate Taken(r: Round, x: Id) {
    r.takers != {} && x in IdsIn(r.plan.envelopes)
  }

  /** A durable event queued at any tick is still queued after every later one, unless some peer has taken it since. */
  lemma {:induction false} NeverLost(p: Policy, cost: Envelope -> nat, rounds: seq<Round>, i: nat, k: nat, x: Id)
    requires Ticks(p, cost, rounds) && i <= k < |rounds|
    requires x in rounds[i].queued && x in rounds[i].events && Durable(rounds[i].events[x])
    ensures x in rounds[k].events && rounds[k].events[x] == rounds[i].events[x]
    ensures x in Requeued(rounds[k].plan, rounds[k].takers) || exists j :: i <= j <= k && Taken(rounds[j], x)
  {
    if k == i {
      assert Taken(rounds[k], x) || x in Requeued(rounds[k].plan, rounds[k].takers);
    } else {
      NeverLost(p, cost, rounds, i, k - 1, x);
      assert Extends(rounds[k - 1].events, rounds[k].events);
      if x in Requeued(rounds[k - 1].plan, rounds[k - 1].takers) {
        assert x in rounds[k].queued;
        assert Taken(rounds[k], x) || x in Requeued(rounds[k].plan, rounds[k].takers);
      }
    }
  }
}
