/** Consensus timestamps: the median of the members' earliest observations (mdrj/consensus.py:429-446,
    mdrj/utils.py:59-66). */
module Timestamps {
  import opened Prelude
  import opened Quorum
  import opened Dag
  import opened Sorting

  /** One entry of an envelope's path metadata. */
  datatype Hop = Hop(node: NodeId, ts: Option<real>)

  /** The (node, time) observations a list of hops records. */
  function Observed(hops: seq<Hop>): set<(NodeId, real)> {
    set h | h in hops && h.ts.Some? :: (h.node, h.ts.value)
  }

  lemma ObservedMeaning(hops: seq<Hop>)
    ensures forall c: NodeId, t: real :: (c, t) in Observed(hops) <==> Hop(c, Some(t)) in hops
  {
    forall c: NodeId, t: real | Hop(c, Some(t)) in hops ensures (c, t) in Observed(hops) {
      var h := Hop(c, Some(t));
      assert h in hops && h.ts.Some?;
    }
  }

  type Times = map<NodeId, real>

  /** Each observing member with its earliest time, and nobody else. */
  ghost predicate IsEarliest(m: set<NodeId>, seen: set<(NodeId, real)>, times: Times) {
    && (forall c {:trigger times[c]} :: c in times ==> c in m && Saw(seen, c, times[c]))
    && (forall c, t {:trigger Saw(seen, c, t)} :: Saw(seen, c, t) && c in m ==> c in times && times[c] <= t)
  }

  predicate Saw(seen: set<(NodeId, real)>, c: NodeId, t: real) {
    (c, t) in seen
  }

  lemma {:induction false} EarliestExists(m: set<NodeId>, seen: set<(NodeId, real)>) returns (times: Times)
    ensures IsEarliest(m, seen, times)
    decreases |seen|
  {
    if seen == {} {
      times := map[];
    } else {
      var o :| o in seen;
      var rest := EarliestExists(m, seen - {o});
      times := Record(m, rest, o.0, o.1);
      RecordEarliest(m, seen - {o}, rest, o.0, o.1);
      assert seen - {o} + {(o.0, o.1)} == seen;
    }
  }

  /** One step of the collecting loop. */
  function Record(m: set<NodeId>, times: Times, c: NodeId, t: real): Times {
    if c !in m then times
    else if c !in times || t < times[c] then times[c := t]
    else times
  }

  lemma RecordEarliest(m: set<NodeId>, seen: set<(NodeId, real)>, times: Times, c: NodeId, t: real)
    requires IsEarliest(m, seen, times)
    ensures IsEarliest(m, seen + {(c, t)}, Record(m, times, c, t))
  {
    var more, r := seen + {(c, t)}, Record(m, times, c, t);
    forall b | b in r ensures b in m && Saw(more, b, r[b]) {
      assert b in times ==> Saw(seen, b, times[b]);
    }
    forall b, u | Saw(more, b, u) && b in m ensures b in r && r[b] <= u {
      assert Saw(seen, b, u) || (b == c && u == t);
    }
  }

  lemma EarliestDefined(m: set<NodeId>, seen: set<(NodeId, real)>)
    ensures exists times :: IsEarliest(m, seen, times)
  {
    var times := EarliestExists(m, seen);
  }

  ghost function Earliest(m: set<NodeId>, seen: set<(NodeId, real)>): (times: Times)
    ensures IsEarliest(m, seen, times)
  {
    EarliestDefined(m, seen);
    var times :| IsEarliest(m, seen, times);
    times
  }

  lemma EarliestUnique(m: set<NodeId>, seen: set<(NodeId, real)>, a: Times, b: Times)
    requires IsEarliest(m, seen, a) && IsEarliest(m, seen, b)
    ensures a == b
  {
    forall c | c in a ensures c in b && b[c] <= a[c] { assert Saw(seen, c, a[c]); }
    forall c | c in b ensures c in a && a[c] <= b[c] { assert Saw(seen, c, b[c]); }
  }

  // ---- Median ----

  predicate RealLe(x: real, y: real) { x <= y }

  function Median(values: seq<real>): real
    requires values != []
  {
    var ordered := Sort(values, RealLe);
    var mid := |ordered| / 2;
    if |ordered| % 2 == 1 then ordered[mid] else (ordered[mid - 1] + ordered[mid]) / 2.0
  }

  lemma {:induction false} MedianOfPermutation(a: seq<real>, b: seq<real>)
    requires a != [] && multiset(a) == multiset(b)
    ensures b != [] && Median(a) == Median(b)
  {
    assert a[0] in multiset(a);
    SortSorts(a, RealLe);
    SortSorts(b, RealLe);
    SortedUnique(Sort(a, RealLe), Sort(b, RealLe), RealLe);
  }

  function CountLe(s: seq<real>, x: real): nat {
    if s == [] then 0 else (if s[0] <= x then 1 else 0) + CountLe(s[1..], x)
  }

  function CountGe(s: seq<real>, x: real): nat {
    if s == [] then 0 else (if s[0] >= x then 1 else 0) + CountGe(s[1..], x)
  }

  lemma {:induction false} CountInsert(v: real, s: seq<real>, x: real)
    ensures CountLe(Insert(v, s, RealLe), x) == CountLe([v] + s, x)
    ensures CountGe(Insert(v, s, RealLe), x) == CountGe([v] + s, x)
  {
    assert ([v] + s)[1..] == s;
    if s != [] && !RealLe(v, s[0]) {
      var r := Insert(v, s[1..], RealLe);
      CountInsert(v, s[1..], x);
      assert ([s[0]] + r)[1..] == r && ([v] + s[1..])[1..] == s[1..];
    }
  }

  lemma {:induction false} CountSort(s: seq<real>, x: real)
    ensures CountLe(Sort(s, RealLe), x) == CountLe(s, x)
    ensures CountGe(Sort(s, RealLe), x) == CountGe(s, x)
  {
    if s != [] {
      var r := Sort(s[1..], RealLe);
      CountSort(s[1..], x);
      CountInsert(s[0], r, x);
      assert ([s[0]] + r)[1..] == r;
    }
  }

  lemma {:induction false} CountLeSorted(s: seq<real>, k: nat, x: real)
    requires SortedBy(s, RealLe) && k <= |s| && (k > 0 ==> s[k - 1] <= x)
    ensures CountLe(s, x) >= k
  {
    if k > 0 {
      assert k > 1 ==> s[0] <= s[k - 1];
      assert k > 1 ==> s[1..][k - 2] == s[k - 1];
      CountLeSorted(s[1..], k - 1, x);
    }
  }

  lemma {:induction false} CountGeSorted(s: seq<real>, k: nat, x: real)
    requires SortedBy(s, RealLe) && k <= |s| && (k < |s| ==> s[k] >= x)
    ensures CountGe(s, x) >= |s| - k
  {
    if s != [] {
      if k > 0 {
        CountGeSorted(s[1..], k - 1, x);
      } else {
        assert |s| > 1 ==> s[1] >= s[0];
        CountGeSorted(s[1..], 0, x);
      }
    }
  }

  /** At least half of the values lie on either side of the median. */
  lemma {:induction false} MedianSplits(values: seq<real>)
    requires values != []
    ensures 2 * CountLe(values, Median(values)) >= |values|
    ensures 2 * CountGe(values, Median(values)) >= |values|
  {
    SortSorts(values, RealLe);
    var s, x := Sort(values, RealLe), Median(values);
    var mid := |s| / 2;
    assert |s| % 2 == 0 ==> s[mid - 1] <= s[mid];
    CountLeSorted(s, if |s| % 2 == 1 then mid + 1 else mid, x);
    CountGeSorted(s, mid, x);
    CountSort(values, x);
  }

  /** `v` is the `k`-th smallest of the values, counting from one. */
  predicate KthSmallest(values: seq<real>, k: nat, v: real) {
    v in values && CountLe(values, v) >= k && CountGe(values, v) >= |values| + 1 - k
  }

  lemma {:induction false} CountApart(s: seq<real>, x: real, y: real)
    requires x < y
    ensures CountLe(s, x) + CountGe(s, y) <= |s|
  {
    if s != [] { CountApart(s[1..], x, y); }
  }

  /** There is only one. */
  lemma KthUnique(values: seq<real>, k: nat, v: real, w: real)
    requires KthSmallest(values, k, v) && KthSmallest(values, k, w)
    ensures v == w
  {
    if v < w { CountApart(values, v, w); }
    if w < v { CountApart(values, w, v); }
  }

  lemma SortedKth(values: seq<real>, k: nat)
    requires k < |values|
    ensures KthSmallest(values, k + 1, Sort(values, RealLe)[k])
  {
    var s := Sort(values, RealLe);
    SortSorts(values, RealLe);
    assert s[k] in multiset(s);
    CountLeSorted(s, k + 1, s[k]);
    CountGeSorted(s, k, s[k]);
    CountSort(values, s[k]);
  }

  /** `lo` is the `k`-th smallest value and `hi` the next. */
  predicate Neighbours(values: seq<real>, k: nat, lo: real, hi: real) {
    KthSmallest(values, k, lo) && KthSmallest(values, k + 1, hi)
  }

  ghost predicate Halfway(values: seq<real>, k: nat, x: real) {
    exists lo, hi :: Neighbours(values, k, lo, hi) && 2.0 * x == lo + hi
  }

  /** Of an odd number of values the median is the middle one; of an even number, halfway between the middle two. */
  ghost predicate Middle(values: seq<real>, x: real) {
    var n := |values|;
    if n % 2 == 1 then KthSmallest(values, (n + 1) / 2, x) else Halfway(values, n / 2, x)
  }

  lemma MedianMiddle(values: seq<real>)
    requires values != []
    ensures Middle(values, Median(values))
  {
    var n, s := |values|, Sort(values, RealLe);
    assert |s| == |multiset(s)| == |multiset(values)| == n;
    SortedKth(values, n / 2);
    if n % 2 == 0 {
      SortedKth(values, n / 2 - 1);
      assert Neighbours(values, n / 2, s[n / 2 - 1], s[n / 2]);
    }
  }

  // ---- The values of a table, in any order ----

  ghost predicate Lists(times: Times, order: seq<NodeId>) {
    && (forall i, j :: 0 <= i < j < |order| ==> order[i] != order[j])
    && (forall c :: c in order <==> c in times)
  }

  function ValuesIn(times: Times, order: seq<NodeId>): (values: seq<real>)
    requires forall c :: c in order ==> c in times
    ensures |values| == |order|
  {
    if order == [] then [] else [times[order[0]]] + ValuesIn(times, order[1..])
  }

  lemma {:induction false} ListLength(times: Times, order: seq<NodeId>)
    requires Lists(times, order)
    ensures |order| == |times|
  {
    if order == [] {
      assert times == map[];
    } else {
      ListLength(times - {order[0]}, order[1..]);
      assert (times - {order[0]}).Keys == times.Keys - {order[0]};
    }
  }

  lemma {:induction false} ValuesTail(times: Times, smaller: Times, order: seq<NodeId>)
    requires forall c :: c in order ==> c in times && c in smaller && times[c] == smaller[c]
    ensures ValuesIn(times, order) == ValuesIn(smaller, order)
  {
    if order != [] { ValuesTail(times, smaller, order[1..]); }
  }

  lemma {:induction false} ListExists(times: Times) returns (order: seq<NodeId>)
    ensures Lists(times, order)
    decreases |times|
  {
    if times == map[] {
      order := [];
    } else {
      var c :| c in times;
      assert (times - {c}).Keys == times.Keys - {c};
      var rest := ListExists(times - {c});
      order := [c] + rest;
    }
  }

  function AtMost(times: Times, x: real): set<NodeId> {
    set c | c in times && times[c] <= x
  }

  function AtLeast(times: Times, x: real): set<NodeId> {
    set c | c in times && times[c] >= x
  }

  lemma AddEarly(times: Times, c: NodeId, x: real)
    requires c in times
    ensures |AtMost(times, x)| == |AtMost(times - {c}, x)| + if times[c] <= x then 1 else 0
  {
    assert AtMost(times, x) == AtMost(times - {c}, x) + if times[c] <= x then {c} else {};
  }

  lemma AddLate(times: Times, c: NodeId, x: real)
    requires c in times
    ensures |AtLeast(times, x)| == |AtLeast(times - {c}, x)| + if times[c] >= x then 1 else 0
  {
    assert AtLeast(times, x) == AtLeast(times - {c}, x) + if times[c] >= x then {c} else {};
  }

  /** Counting values of a listing counts the members behind them. */
  lemma {:induction false} CountMembers(times: Times, order: seq<NodeId>, x: real)
    requires Lists(times, order)
    ensures CountLe(ValuesIn(times, order), x) == |AtMost(times, x)|
    ensures CountGe(ValuesIn(times, order), x) == |AtLeast(times, x)|
  {
    if order == [] {
      assert times == map[];
    } else {
      var c, rest := order[0], times - {order[0]};
      CountMembers(rest, order[1..], x);
      ValuesTail(times, rest, order[1..]);
      AddEarly(times, c, x);
      AddLate(times, c, x);
      assert ValuesIn(times, order)[1..] == ValuesIn(times, order[1..]);
    }
  }

  function WithTime(times: Times, v: real): set<NodeId> {
    set c | c in times && times[c] == v
  }

  lemma {:induction false} Multiplicity(times: Times, order: seq<NodeId>, v: real)
    requires Lists(times, order)
    ensures multiset(ValuesIn(times, order))[v] == |WithTime(times, v)|
  {
    if order == [] {
      assert times == map[];
    } else {
      var c, rest := order[0], times - {order[0]};
      Multiplicity(rest, order[1..], v);
      ValuesTail(times, rest, order[1..]);
      assert ValuesIn(times, order) == [times[c]] + ValuesIn(times, order[1..]);
      AddWithTime(times, c, v);
    }
  }

  lemma AddWithTime(times: Times, c: NodeId, v: real)
    requires c in times
    ensures |WithTime(times, v)| == |WithTime(times - {c}, v)| + if times[c] == v then 1 else 0
  {
    assert WithTime(times, v) == WithTime(times - {c}, v) + if times[c] == v then {c} else {};
  }

  /** The order in which members are listed does not matter. */
  lemma {:induction false} ListingsAgree(times: Times, a: seq<NodeId>, b: seq<NodeId>)
    requires Lists(times, a) && Lists(times, b)
    ensures multiset(ValuesIn(times, a)) == multiset(ValuesIn(times, b))
  {
    forall v ensures multiset(ValuesIn(times, a))[v] == multiset(ValuesIn(times, b))[v] {
      Multiplicity(times, a, v);
      Multiplicity(times, b, v);
    }
  }

  // ---- The timestamp ----

  ghost predicate MedianOfTimes(times: Times, x: real) {
    exists order :: Lists(times, order) && order != [] && x == Median(ValuesIn(times, order))
  }

  lemma MedianDefined(times: Times)
    requires times != map[]
    ensures exists x :: MedianOfTimes(times, x)
  {
    var order := ListExists(times);
    var c :| c in times;
    assert c in order;
    assert MedianOfTimes(times, Median(ValuesIn(times, order)));
  }

  lemma MedianUnique(times: Times, x: real, y: real)
    requires MedianOfTimes(times, x) && MedianOfTimes(times, y)
    ensures x == y
  {
    var a :| Lists(times, a) && a != [] && x == Median(ValuesIn(times, a));
    var b :| Lists(times, b) && b != [] && y == Median(ValuesIn(times, b));
    ListingsAgree(times, a, b);
    MedianOfPermutation(ValuesIn(times, a), ValuesIn(times, b));
  }

  /** The consensus timestamp, a function of nothing but the set of observations. */
  ghost function Timestamp(m: set<NodeId>, seen: set<(NodeId, real)>): Option<real> {
    var times := Earliest(m, seen);
    if |times| < Threshold(|m|) then None
    else
      MedianDefined(times);
      var x :| MedianOfTimes(times, x);
      Some(x)
  }

  /** However a run collected and listed the observations, the median it takes is the timestamp. */
  lemma {:induction false} TimestampComputed(m: set<NodeId>, seen: set<(NodeId, real)>, times: Times,
                                             order: seq<NodeId>)
    requires IsEarliest(m, seen, times) && Lists(times, order)
    ensures Timestamp(m, seen) ==
      if |order| < Threshold(|m|) then None else Some(Median(ValuesIn(times, order)))
  {
    EarliestUnique(m, seen, times, Earliest(m, seen));
    ListLength(times, order);
    if |order| >= Threshold(|m|) {
      assert MedianOfTimes(times, Median(ValuesIn(times, order)));
      MedianUnique(times, Median(ValuesIn(times, order)), Timestamp(m, seen).value);
    }
  }

  /** Member `c` reported the `k`-th smallest of the earliest times. */
  ghost predicate KthMember(times: Times, k: nat, c: NodeId) {
    c in times && |AtMost(times, times[c])| >= k && |AtLeast(times, times[c])| >= |times| + 1 - k
  }

  ghost predicate HalfwayTime(times: Times, k: nat, x: real) {
    exists a, b :: KthMember(times, k, a) && KthMember(times, k + 1, b) && 2.0 * x == times[a] + times[b]
  }

  /** The middle member's time, or halfway between the two middle members'. */
  ghost predicate MiddleTime(times: Times, x: real) {
    var n := |times|;
    if n % 2 == 1 then exists c :: c in times && times[c] == x && KthMember(times, (n + 1) / 2, c)
    else HalfwayTime(times, n / 2, x)
  }

  lemma KthListed(times: Times, order: seq<NodeId>, k: nat, v: real) returns (c: NodeId)
    requires Lists(times, order) && KthSmallest(ValuesIn(times, order), k, v)
    ensures KthMember(times, k, c) && times[c] == v
  {
    ListLength(times, order);
    CountMembers(times, order, v);
    c := WhoseValue(times, order, v);
  }

  lemma {:induction false} WhoseValue(times: Times, order: seq<NodeId>, v: real) returns (c: NodeId)
    requires (forall c :: c in order ==> c in times) && v in ValuesIn(times, order)
    ensures c in times && times[c] == v
    decreases order
  {
    if times[order[0]] == v { c := order[0]; } else { c := WhoseValue(times, order[1..], v); }
  }

  lemma MiddleListed(times: Times, order: seq<NodeId>, x: real)
    requires Lists(times, order) && Middle(ValuesIn(times, order), x)
    ensures MiddleTime(times, x)
  {
    var values := ValuesIn(times, order);
    var n := |times|;
    ListLength(times, order);
    if n % 2 == 1 {
      var c := KthListed(times, order, (n + 1) / 2, x);
    } else {
      var k := n / 2;
      assert Halfway(values, k, x);
      var lo, hi :| Neighbours(values, k, lo, hi) && 2.0 * x == lo + hi;
      var a := KthListed(times, order, k, lo);
      var b := KthListed(times, order, k + 1, hi);
    }
  }

  /** An event has a timestamp exactly when a supermajority of members saw it, and it is the middle of the times at
      which they first did. */
  lemma TimestampMeaning(m: set<NodeId>, seen: set<(NodeId, real)>)
    ensures Timestamp(m, seen).Some? <==> |Earliest(m, seen)| >= Threshold(|m|)
    ensures Timestamp(m, seen).Some? ==> MiddleTime(Earliest(m, seen), Timestamp(m, seen).value)
  {
    var times := Earliest(m, seen);
    var order := ListExists(times);
    ListLength(times, order);
    TimestampComputed(m, seen, times, order);
    if Timestamp(m, seen).Some? {
      MedianMiddle(ValuesIn(times, order));
      MiddleListed(times, order, Timestamp(m, seen).value);
    }
  }

  /** Robustness: while fewer than a third of the members report arbitrary times, an honest observer
      reports no later, and another no earlier, than the timestamp. */
  lemma TimestampRobust(m: set<NodeId>, seen: set<(NodeId, real)>, faulty: set<NodeId>)
      returns (low: NodeId, high: NodeId)
    requires faulty <= m && 3 * |faulty| < |m|
    requires Timestamp(m, seen).Some?
    ensures low in Earliest(m, seen) && low !in faulty && Earliest(m, seen)[low] <= Timestamp(m, seen).value
    ensures high in Earliest(m, seen) && high !in faulty && Timestamp(m, seen).value <= Earliest(m, seen)[high]
  {
    var times, x := Earliest(m, seen), Timestamp(m, seen).value;
    var order := ListExists(times);
    ListLength(times, order);
    TimestampComputed(m, seen, times, order);
    MedianSplits(ValuesIn(times, order));
    CountMembers(times, order, x);
    low := HonestIn(AtMost(times, x), faulty);
    high := HonestIn(AtLeast(times, x), faulty);
  }

  lemma HonestIn(crowd: set<NodeId>, faulty: set<NodeId>) returns (c: NodeId)
    requires |crowd| > |faulty|
    ensures c in crowd && c !in faulty
  {
    if crowd <= faulty { SubsetCard(crowd, faulty); }
    c :| c in crowd && c !in faulty;
  }
}
