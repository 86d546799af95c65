/** Relay policy and batch planning (mdrj/prioritization.py). */
module Prioritization {
  import opened Dag
  import opened Sorting
  import opened Storage

  datatype Threat = Low | Elevated | High

  function ThreatRank(t: Threat): nat {
    match t case Low => 0 case Elevated => 1 case High => 2
  }

  datatype Policy = Policy(bwKbps: int, periodSec: real, maxBatchBytes: nat, level: Threat, levelForB: Threat)

  function BandwidthBudget(p: Policy): nat {
    var perSecond := p.bwKbps * 1000 / 8;
    var budget := (perSecond as real * p.periodSec).Floor;
    if budget < 1024 then 1024 else budget
  }

  function BatchCap(p: Policy): nat {
    if BandwidthBudget(p) < p.maxBatchBytes then BandwidthBudget(p) else p.maxBatchBytes
  }

  /** The byte cap: the configured maximum or the bytes of one period, whichever is less, but a period never counts
      for less than 1024 bytes. */
  lemma CapMeaning(p: Policy) returns (rate: int, bytes: real)
    ensures 8 * rate <= 1000 * p.bwKbps < 8 * (rate + 1) && bytes == rate as real * p.periodSec
    ensures bytes < 1025.0 ==> BatchCap(p) == if p.maxBatchBytes < 1024 then p.maxBatchBytes else 1024
    ensures bytes >= 1025.0 ==> BatchCap(p) <= p.maxBatchBytes && BatchCap(p) as real <= bytes
    ensures bytes >= 1025.0 ==> BatchCap(p) == p.maxBatchBytes || bytes < BatchCap(p) as real + 1.0
  {
    rate := p.bwKbps * 1000 / 8;
    bytes := rate as real * p.periodSec;
    Floored(bytes);
    assert BandwidthBudget(p) == if bytes.Floor < 1024 then 1024 else bytes.Floor;
  }

  lemma Floored(x: real)
    ensures x.Floor as real <= x < x.Floor as real + 1.0
    ensures x < 1025.0 <==> x.Floor <= 1024
  {
  }

  predicate ShouldRelay(p: Policy, cls: EventClass, required: bool, force: bool) {
    force
    || match cls
       case A => true
       case B => ThreatRank(p.level) >= ThreatRank(p.levelForB) || required
       case C => required
  }

  function ClassRank(cls: EventClass): nat {
    match cls case A => 0 case B => 1 case C => 2
  }

  predicate PriorityLe(a: Envelope, b: Envelope) {
    if a.event.cls != b.event.cls then ClassRank(a.event.cls) < ClassRank(b.event.cls)
    else a.event.tsLocal <= b.event.tsLocal
  }

  predicate Required(env: Envelope, required: set<Id>) {
    env.event.id in required || Parents(env.event) * required != {} || env.event.genesis
  }

  predicate Relayed(p: Policy, env: Envelope, required: set<Id>) {
    ShouldRelay(p, env.event.cls, Required(env, required), env.event.genesis || env.event.cls == B)
  }

  // ---- What became of each envelope, by its place in priority order ----

  datatype Mark = Accepted | Deferred | Dropped

  /** The envelopes carrying `mark`, in order. */
  function Marked(envelopes: seq<Envelope>, marks: seq<Mark>, mark: Mark): (r: seq<Envelope>)
    requires |envelopes| == |marks|
    ensures forall env :: env in r <==> exists i :: 0 <= i < |envelopes| && envelopes[i] == env && marks[i] == mark
  {
    if envelopes == [] then []
    else
      var last := |envelopes| - 1;
      assert envelopes == envelopes[..last] + [envelopes[last]];
      Marked(envelopes[..last], marks[..last], mark) + if marks[last] == mark then [envelopes[last]] else []
  }

  function TotalCost(cost: Envelope -> nat, envelopes: seq<Envelope>): nat {
    if envelopes == [] then 0
    else TotalCost(cost, envelopes[..|envelopes| - 1]) + cost(envelopes[|envelopes| - 1])
  }

  /** The cost of a batch is the sum of what its envelopes cost, however it is split. */
  lemma {:induction false} CostAdds(cost: Envelope -> nat, a: seq<Envelope>, b: seq<Envelope>)
    ensures TotalCost(cost, a + b) == TotalCost(cost, a) + TotalCost(cost, b)
    ensures |a| == 1 ==> TotalCost(cost, a) == cost(a[0])
  {
    if b == [] {
      assert a + b == a;
    } else {
      var last := |b| - 1;
      assert (a + b)[..|a + b| - 1] == a + b[..last];
      CostAdds(cost, a, b[..last]);
    }
  }

  function AllParents(envelopes: seq<Envelope>): set<Id> {
    set env, p | env in envelopes && p in Parents(env.event) :: p
  }

  /** The rule for position `i`: relay what causality or class demands, as long as it fits. */
  predicate Ruled(p: Policy, cost: Envelope -> nat, required: set<Id>, ordered: seq<Envelope>, marks: seq<Mark>, i: nat)
    requires i < |ordered| == |marks|
  {
    var before := Marked(ordered[..i], marks[..i], Accepted);
    && (marks[i] == Dropped <==> !Relayed(p, ordered[i], required + AllParents(before)))
    && (marks[i] == Accepted ==> TotalCost(cost, before) + cost(ordered[i]) <= BatchCap(p))
    && (marks[i] == Deferred ==> TotalCost(cost, before) + cost(ordered[i]) > BatchCap(p))
  }

  predicate Planned(p: Policy, cost: Envelope -> nat, required: set<Id>, ordered: seq<Envelope>, marks: seq<Mark>) {
    |marks| == |ordered| && forall i {:trigger Ruled(p, cost, required, ordered, marks, i)} ::
      0 <= i < |ordered| ==> Ruled(p, cost, required, ordered, marks, i)
  }

  /** Class A goes before B and B before C; within a class, the earlier local time first; then in batch order. */
  ghost predicate Sooner(envelopes: seq<Envelope>, a: Envelope, b: Envelope) {
    var first, second := a.event, b.event;
    || (first.cls == A && second.cls != A) || (first.cls == B && second.cls == C)
    || (first.cls == second.cls && first.tsLocal < second.tsLocal)
    || (first.cls == second.cls && first.tsLocal == second.tsLocal && EarlierIn(envelopes, a, b))
  }

  ghost predicate InPriorityOrder(envelopes: seq<Envelope>, ordered: seq<Envelope>) {
    forall i, j :: 0 <= i < j < |ordered| ==> Sooner(envelopes, ordered[i], ordered[j])
  }

  lemma PriorityOrder(envelopes: seq<Envelope>)
    ensures InPriorityOrder(envelopes, Sort(envelopes, PriorityLe))
  {
    var ordered := Sort(envelopes, PriorityLe);
    SortKeepsOrder(envelopes, PriorityLe);
    forall i, j | 0 <= i < j < |ordered| ensures Sooner(envelopes, ordered[i], ordered[j]) {
      assert PriorityLe(ordered[i], ordered[j]);
    }
  }

  /** Without repetitions the order is strict. */
  lemma SoonerOnce(envelopes: seq<Envelope>, a: Envelope, b: Envelope)
    requires Distinct(envelopes) && Sooner(envelopes, a, b)
    ensures a != b && !Sooner(envelopes, b, a)
  {
  }

  /** The marked envelopes keep the order. */
  lemma {:induction false} MarkedOrder(envelopes: seq<Envelope>, ordered: seq<Envelope>, marks: seq<Mark>, mark: Mark)
    requires |ordered| == |marks| && InPriorityOrder(envelopes, ordered)
    ensures InPriorityOrder(envelopes, Marked(ordered, marks, mark))
  {
    if ordered != [] {
      var last := |ordered| - 1;
      var below := Marked(ordered[..last], marks[..last], mark);
      MarkedOrder(envelopes, ordered[..last], marks[..last], mark);
      forall i | 0 <= i < |below| ensures Sooner(envelopes, below[i], ordered[last]) {
        assert below[i] in below;
        var k :| 0 <= k < last && ordered[..last][k] == below[i];
        assert ordered[k] == below[i];
      }
    }
  }

  lemma {:induction false} MarkedPrefix(ordered: seq<Envelope>, marks: seq<Mark>, mark: Mark, i: nat)
    requires |ordered| == |marks| && i <= |ordered|
    ensures Marked(ordered[..i], marks[..i], mark) <= Marked(ordered, marks, mark)
  {
    if i == |ordered| {
      assert ordered[..i] == ordered && marks[..i] == marks;
    } else {
      var last := |ordered| - 1;
      MarkedPrefix(ordered[..last], marks[..last], mark, i);
      assert ordered[..last][..i] == ordered[..i] && marks[..last][..i] == marks[..i];
    }
  }

  datatype BatchPlan = BatchPlan(envelopes: seq<Envelope>, totalBytes: nat, dropped: nat, deferred: seq<Envelope>)

  method PlanBatch(p: Policy, cost: Envelope -> nat, envelopes: seq<Envelope>, requiredEvents: set<Id>)
      returns (plan: BatchPlan, ghost ordered: seq<Envelope>, ghost marks: seq<Mark>)
    ensures ordered == Sort(envelopes, PriorityLe) && InPriorityOrder(envelopes, ordered)
    ensures multiset(ordered) == multiset(envelopes)
    ensures Planned(p, cost, requiredEvents, ordered, marks)
    ensures plan.envelopes == Marked(ordered, marks, Accepted) && plan.deferred == Marked(ordered, marks, Deferred)
    ensures plan.dropped == |Marked(ordered, marks, Dropped)|
    ensures plan.totalBytes == TotalCost(cost, plan.envelopes)
  {
    PriorityOrder(envelopes);
    var queue := Sort(envelopes, PriorityLe);
    ordered, marks := queue, [];
    var required := requiredEvents;
    var cap := BatchCap(p);
    plan := BatchPlan([], 0, 0, []);
    for i := 0 to |queue|
      invariant PlanState(p, cost, requiredEvents, queue[..i], marks, plan, required)
    {
      var env := queue[i];
      var relay := Relayed(p, env, required);
      ghost var mark := if !relay then Dropped else if plan.totalBytes + cost(env) > cap then Deferred else Accepted;
      assert queue[..i + 1] == queue[..i] + [env];
      PlanStep(p, cost, requiredEvents, queue[..i], marks, plan, required, env, mark);
      marks := marks + [mark];
      if !relay {
        plan := plan.(dropped := plan.dropped + 1);
      } else if plan.totalBytes + cost(env) > cap {
        plan := plan.(deferred := plan.deferred + [env]);
      } else {
        plan := plan.(envelopes := plan.envelopes + [env], totalBytes := plan.totalBytes + cost(env));
        required := required + Parents(env.event);
      }
    }
    assert queue[..|queue|] == queue;
  }

  /** The plan so far is what the marks say. */
  ghost predicate PlanState(p: Policy, cost: Envelope -> nat, requiredEvents: set<Id>, done: seq<Envelope>,
                            marks: seq<Mark>, plan: BatchPlan, required: set<Id>) {
    && Planned(p, cost, requiredEvents, done, marks)
    && plan.envelopes == Marked(done, marks, Accepted) && plan.deferred == Marked(done, marks, Deferred)
    && plan.dropped == |Marked(done, marks, Dropped)|
    && plan.totalBytes == TotalCost(cost, plan.envelopes) && required == requiredEvents + AllParents(plan.envelopes)
  }

  lemma PlanStep(p: Policy, cost: Envelope -> nat, requiredEvents: set<Id>, done: seq<Envelope>, marks: seq<Mark>,
                 plan: BatchPlan, required: set<Id>, env: Envelope, mark: Mark)
    requires PlanState(p, cost, requiredEvents, done, marks, plan, required)
    requires mark == if !Relayed(p, env, required) then Dropped
                     else if plan.totalBytes + cost(env) > BatchCap(p) then Deferred
                     else Accepted
    ensures mark == Dropped ==>
      PlanState(p, cost, requiredEvents, done + [env], marks + [mark], plan.(dropped := plan.dropped + 1), required)
    ensures mark == Deferred ==>
      PlanState(p, cost, requiredEvents, done + [env], marks + [mark],
                plan.(deferred := plan.deferred + [env]), required)
    ensures mark == Accepted ==>
      PlanState(p, cost, requiredEvents, done + [env], marks + [mark],
                plan.(envelopes := plan.envelopes + [env], totalBytes := plan.totalBytes + cost(env)),
                required + Parents(env.event))
  {
    PlannedStep(p, cost, requiredEvents, done, marks, env, mark);
  }

  lemma {:induction false} PlannedStep(p: Policy, cost: Envelope -> nat, required: set<Id>, ordered: seq<Envelope>,
                                       marks: seq<Mark>, env: Envelope, mark: Mark)
    requires Planned(p, cost, required, ordered, marks)
    requires var before := Marked(ordered, marks, Accepted);
      mark == if !Relayed(p, env, required + AllParents(before)) then Dropped
              else if TotalCost(cost, before) + cost(env) > BatchCap(p) then Deferred else Accepted
    ensures Planned(p, cost, required, ordered + [env], marks + [mark])
    ensures forall kind :: Marked(ordered + [env], marks + [mark], kind)
                        == Marked(ordered, marks, kind) + if mark == kind then [env] else []
  {
    var ordered', marks' := ordered + [env], marks + [mark];
    assert ordered'[..|ordered|] == ordered && marks'[..|marks|] == marks;
    forall i | 0 <= i < |ordered'| ensures Ruled(p, cost, required, ordered', marks', i) {
      if i < |ordered| {
        assert Ruled(p, cost, required, ordered, marks, i);
        assert ordered'[..i] == ordered[..i] && marks'[..i] == marks[..i];
      } else {
        assert ordered'[..i] == ordered && marks'[..i] == marks;
      }
    }
  }

  // ---- What a plan promises ----

  /** Accepted, deferred and dropped partition the batch. */
  lemma {:induction false} PlanPartitions(ordered: seq<Envelope>, marks: seq<Mark>)
    requires |ordered| == |marks|
    ensures multiset(Marked(ordered, marks, Accepted)) + multiset(Marked(ordered, marks, Deferred)) +
      multiset(Marked(ordered, marks, Dropped))
      == multiset(ordered)
  {
    if ordered != [] {
      var last := |ordered| - 1;
      assert ordered == ordered[..last] + [ordered[last]];
      PlanPartitions(ordered[..last], marks[..last]);
    }
  }

  lemma PlannedPrefix(p: Policy, cost: Envelope -> nat, required: set<Id>, ordered: seq<Envelope>, marks: seq<Mark>,
                      n: nat)
    requires Planned(p, cost, required, ordered, marks) && n <= |ordered|
    ensures Planned(p, cost, required, ordered[..n], marks[..n])
  {
    forall i | 0 <= i < n ensures Ruled(p, cost, required, ordered[..n], marks[..n], i) {
      assert Ruled(p, cost, required, ordered, marks, i);
      assert ordered[..n][..i] == ordered[..i] && marks[..n][..i] == marks[..i];
    }
  }

  lemma {:induction false} CostLast(cost: Envelope -> nat, ordered: seq<Envelope>, marks: seq<Mark>)
    requires |ordered| == |marks| && ordered != []
    ensures var last := |ordered| - 1;
      TotalCost(cost, Marked(ordered, marks, Accepted)) ==
        TotalCost(cost, Marked(ordered[..last], marks[..last], Accepted))
        + if marks[last] == Accepted then cost(ordered[last]) else 0
  {
    var last := |ordered| - 1;
    var below := Marked(ordered[..last], marks[..last], Accepted);
    assert below + [] == below;
  }

  /** The accepted envelopes fit the byte cap. */
  lemma {:induction false} PlanWithinCap(p: Policy, cost: Envelope -> nat, required: set<Id>, ordered: seq<Envelope>,
                                         marks: seq<Mark>)
    requires Planned(p, cost, required, ordered, marks)
    ensures TotalCost(cost, Marked(ordered, marks, Accepted)) <= BatchCap(p)
  {
    if ordered != [] {
      var last := |ordered| - 1;
      PlannedPrefix(p, cost, required, ordered, marks, last);
      PlanWithinCap(p, cost, required, ordered[..last], marks[..last]);
      assert Ruled(p, cost, required, ordered, marks, last);
      CostLast(cost, ordered, marks);
    }
  }

  lemma {:induction false} CostGrows(cost: Envelope -> nat, ordered: seq<Envelope>, marks: seq<Mark>, i: nat)
    requires |ordered| == |marks| && i <= |ordered|
    ensures TotalCost(cost, Marked(ordered[..i], marks[..i], Accepted))
         <= TotalCost(cost, Marked(ordered, marks, Accepted))
  {
    if i == |ordered| {
      assert ordered[..i] == ordered && marks[..i] == marks;
    } else {
      var last := |ordered| - 1;
      CostGrows(cost, ordered[..last], marks[..last], i);
      assert ordered[..last][..i] == ordered[..i] && marks[..last][..i] == marks[..i];
      CostLast(cost, ordered, marks);
    }
  }

  /** No deferred envelope would still fit next to the accepted ones. */
  lemma DeferredWouldNotFit(p: Policy, cost: Envelope -> nat, required: set<Id>, ordered: seq<Envelope>,
                            marks: seq<Mark>, env: Envelope)
    requires Planned(p, cost, required, ordered, marks) && env in Marked(ordered, marks, Deferred)
    ensures TotalCost(cost, Marked(ordered, marks, Accepted)) + cost(env) > BatchCap(p)
  {
    var i :| 0 <= i < |ordered| && ordered[i] == env && marks[i] == Deferred;
    assert Ruled(p, cost, required, ordered, marks, i);
    CostGrows(cost, ordered, marks, i);
  }

  /** A class C event and no genesis anchor that is not among `required` and has no parent there. */
  predicate Expendable(e: Event, required: set<Id>) {
    e.cls == C && !e.genesis && e.id !in required && forall x :: x in e.parents ==> x !in required
  }

  /** What is dropped is exactly what is expendable when its turn comes: given the events required from outside and the
      parents of the envelopes accepted before it. The threat level never decides. */
  lemma DroppedExactly(p: Policy, cost: Envelope -> nat, required: set<Id>, ordered: seq<Envelope>, marks: seq<Mark>,
                       i: nat, wanted: set<Id>)
    requires Planned(p, cost, required, ordered, marks) && i < |ordered|
    requires forall x :: x in wanted <==> x in required || WantedBefore(ordered, marks, i, x)
    ensures marks[i] == Dropped <==> Expendable(ordered[i].event, wanted)
  {
    assert Ruled(p, cost, required, ordered, marks, i);
    WantedSet(ordered, marks, i);
    assert wanted == required + AllParents(Marked(ordered[..i], marks[..i], Accepted));
    var e := ordered[i].event;
    assert forall x :: x in e.parents && x in wanted ==> x in Parents(e) * wanted;
    if x :| x in Parents(e) * wanted { assert x in e.parents; }
  }

  /** `x` is a parent of an envelope accepted before place `i`. */
  ghost predicate WantedBefore(ordered: seq<Envelope>, marks: seq<Mark>, i: nat, x: Id)
    requires i <= |ordered| == |marks|
  {
    exists k :: 0 <= k < i && marks[k] == Accepted && x in ordered[k].event.parents
  }

  lemma WantedSet(ordered: seq<Envelope>, marks: seq<Mark>, i: nat)
    requires i <= |ordered| == |marks|
    ensures forall x ::
      x in AllParents(Marked(ordered[..i], marks[..i], Accepted)) <==> WantedBefore(ordered, marks, i, x)
  {
    var before := Marked(ordered[..i], marks[..i], Accepted);
    forall x ensures x in AllParents(before) <==> WantedBefore(ordered, marks, i, x) {
      if x in AllParents(before) {
        var env :| env in before && x in Parents(env.event);
        var k :| 0 <= k < i && ordered[..i][k] == env && marks[..i][k] == Accepted;
        assert marks[k] == Accepted && x in ordered[k].event.parents;
      }
      if k :| 0 <= k < i && marks[k] == Accepted && x in ordered[k].event.parents {
        assert ordered[..i][k] == ordered[k] && marks[..i][k] == Accepted;
        assert ordered[k] in before && x in Parents(ordered[k].event);
      }
    }
  }

  lemma OnlyPlainDropped(p: Policy, cost: Envelope -> nat, required: set<Id>, ordered: seq<Envelope>,
                         marks: seq<Mark>, env: Envelope)
    requires Planned(p, cost, required, ordered, marks) && env in Marked(ordered, marks, Dropped)
    ensures Expendable(env.event, required)
  {
    var i :| 0 <= i < |ordered| && ordered[i] == env && marks[i] == Dropped;
    var wanted := required + AllParents(Marked(ordered[..i], marks[..i], Accepted));
    WantedSet(ordered, marks, i);
    DroppedExactly(p, cost, required, ordered, marks, i, wanted);
  }

  /** A parent of an accepted envelope is not dropped if it comes later in priority order. */
  lemma LaterParentKept(p: Policy, cost: Envelope -> nat, required: set<Id>, ordered: seq<Envelope>, marks: seq<Mark>,
                        i: nat, j: nat)
    requires Planned(p, cost, required, ordered, marks) && i < j < |ordered|
    requires marks[i] == Accepted && ordered[j].event.id in Parents(ordered[i].event)
    ensures marks[j] != Dropped
  {
    assert Ruled(p, cost, required, ordered, marks, j);
    var before := Marked(ordered[..j], marks[..j], Accepted);
    assert ordered[..j][i] == ordered[i] && marks[..j][i] == Accepted;
    assert ordered[i] in before;
  }
}
