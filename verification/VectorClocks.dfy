/** Vector clocks and the Lamport totals derived from them (mdrj/vectorclock.py). */
module VectorClocks {
  import opened Dag

  type Clock = map<NodeId, nat>

  datatype Relation = Before | After | Concurrent | Equal

  function Get(c: Clock, n: NodeId): nat {
    if n in c then c[n] else 0
  }

  predicate Leq(a: Clock, b: Clock) {
    forall n :: n in a ==> a[n] <= Get(b, n)
  }

  /** `a` happened before `b`: nowhere ahead and somewhere behind. */
  ghost predicate HappenedBefore(a: Clock, b: Clock) {
    Leq(a, b) && exists n :: Get(a, n) < Get(b, n)
  }

  function Incremented(c: Clock, n: NodeId): Clock {
    c[n := Get(c, n) + 1]
  }

  function Merged(a: Clock, b: Clock): (r: Clock)
    ensures Leq(a, r) && Leq(b, r)
    ensures forall c :: Leq(a, c) && Leq(b, c) ==> Leq(r, c)
  {
    map n | n in a.Keys + b.Keys :: if Get(a, n) < Get(b, n) then Get(b, n) else Get(a, n)
  }

  method Merge(self: Clock, other: Clock) returns (merged: Clock)
    ensures merged == Merged(self, other)
  {
    merged := self;
    var rest := other.Keys;
    while rest != {}
      invariant rest <= other.Keys
      invariant merged.Keys == self.Keys + (other.Keys - rest)
      invariant forall n :: n in merged ==> merged[n] == if n in rest then Get(self, n) else Get(Merged(self, other), n)
      decreases rest
    {
      var n :| n in rest;
      rest := rest - {n};
      merged := merged[n := if Get(merged, n) < other[n] then other[n] else Get(merged, n)];
    }
  }

  /** The comparison scans all components; its answer is the pointwise order. */
  method Compare(self: Clock, other: Clock) returns (r: Relation)
    ensures r == Equal <==> Leq(self, other) && Leq(other, self)
    ensures r == Before <==> HappenedBefore(self, other)
    ensures r == After <==> HappenedBefore(other, self)
    ensures r == Concurrent <==> !Leq(self, other) && !Leq(other, self)
  {
    var ahead, behind := false, false;
    var keys := self.Keys + other.Keys;
    var rest := keys;
    while rest != {}
      invariant rest <= keys
      invariant behind <==> exists n :: n in keys && n !in rest && Get(self, n) < Get(other, n)
      invariant ahead <==> exists n :: n in keys && n !in rest && Get(self, n) > Get(other, n)
      decreases rest
    {
      var n :| n in rest;
      rest := rest - {n};
      var a, b := Get(self, n), Get(other, n);
      if a < b {
        behind := true;
      } else if a > b {
        ahead := true;
      }
    }
    r := if ahead && !behind then After
         else if behind && !ahead then Before
         else if !ahead && !behind then Equal
         else Concurrent;
  }

  /** Merging any list of clocks gives their least upper bound. */
  method MergeAll(clocks: seq<Clock>) returns (merged: Clock)
    ensures forall c :: c in clocks ==> Leq(c, merged)
    ensures forall bound :: (forall c :: c in clocks ==> Leq(c, bound)) ==> Leq(merged, bound)
  {
    merged := map[];
    for i := 0 to |clocks|
      invariant forall j :: 0 <= j < i ==> Leq(clocks[j], merged)
      invariant forall bound :: (forall c :: c in clocks ==> Leq(c, bound)) ==> Leq(merged, bound)
    {
      merged := Merge(merged, clocks[i]);
    }
  }

  lemma HappenedBeforeTransitive(a: Clock, b: Clock, c: Clock)
    requires HappenedBefore(a, b) && HappenedBefore(b, c)
    ensures HappenedBefore(a, c)
  {
    var n :| Get(a, n) < Get(b, n);
    assert Get(a, n) < Get(c, n);
  }

  /** A step of one's own counter over a clock that covers `a` puts the result strictly after `a`. */
  lemma StepAfter(a: Clock, base: Clock, n: NodeId)
    requires Leq(a, base)
    ensures HappenedBefore(a, Incremented(base, n))
  {
    assert Get(a, n) < Get(Incremented(base, n), n);
  }

  // ---- Lamport totals ----

  ghost function Total(c: Clock): nat
    decreases |c|
  {
    if c == map[] then 0
    else
      var n :| n in c;
      c[n] + Total(c - {n})
  }

  lemma {:induction false} TotalWithout(c: Clock, n: NodeId)
    requires n in c
    ensures Total(c) == c[n] + Total(c - {n})
    decreases |c|
  {
    var k :| k in c && Total(c) == c[k] + Total(c - {k});
    if k != n {
      TotalWithout(c - {k}, n);
      TotalWithout(c - {n}, k);
      assert (c - {k}) - {n} == (c - {n}) - {k};
    }
  }

  /** The total never falls along the clock order. */
  lemma {:induction false} TotalMonotone(a: Clock, b: Clock)
    requires Leq(a, b)
    ensures Total(a) <= Total(b)
    decreases |a|
  {
    if a != map[] {
      var n :| n in a;
      TotalWithout(a, n);
      if n in b {
        TotalWithout(b, n);
        TotalMonotone(a - {n}, b - {n});
      } else {
        TotalMonotone(a - {n}, b);
      }
    }
  }

  /** Lamport timestamps respect the happened-before order. */
  lemma LamportRespectsOrder(a: Clock, b: Clock)
    requires HappenedBefore(a, b)
    ensures Total(a) < Total(b)
  {
    var n :| Get(a, n) < Get(b, n);
    TotalWithout(b, n);
    if n in a { TotalWithout(a, n); }
    assert a - {n} == if n in a then a - {n} else a;
    TotalMonotone(a - {n}, b - {n});
  }

  method Sum(c: Clock) returns (total: nat)
    ensures total == Total(c)
  {
    total := 0;
    var rest := c;
    while rest != map[]
      invariant total + Total(rest) == Total(c)
      decreases |rest|
    {
      var n :| n in rest;
      TotalWithout(rest, n);
      total := total + rest[n];
      rest := rest - {n};
    }
  }

  method CompareLamport(self: Clock, other: Clock) returns (r: int)
    ensures HappenedBefore(self, other) ==> r == -1
    ensures HappenedBefore(other, self) ==> r == 1
    ensures r == 0 <==> Total(self) == Total(other)
    ensures r == -1 <==> Total(self) < Total(other)
    ensures r == 1 <==> Total(self) > Total(other)
  {
    var mine := Sum(self);
    var theirs := Sum(other);
    if HappenedBefore(self, other) { LamportRespectsOrder(self, other); }
    if HappenedBefore(other, self) { LamportRespectsOrder(other, self); }
    r := if mine < theirs then -1 else if mine > theirs then 1 else 0;
  }
}
