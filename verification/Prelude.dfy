/** Shared vocabulary: optional values and the few facts about finite sets that counting arguments need. */
module Prelude {
  datatype Option<+T> = None | Some(value: T)

  lemma SubsetCard<T>(a: set<T>, b: set<T>)
    requires a <= b
    ensures |a| <= |b|
  {
    if a != {} {
      var x :| x in a;
      SubsetCard(a - {x}, b - {x});
    }
  }

  /** Counting a set's members among those looked at so far. */
  lemma CountStep<T>(s: set<T>, done: set<T>, x: T)
    requires x !in done
    ensures |s * (done + {x})| == |s * done| + if x in s then 1 else 0
  {
    assert s * (done + {x}) == s * done + if x in s then {x} else {};
  }

  lemma CountAll<T>(s: set<T>, done: set<T>)
    requires s <= done
    ensures |s * done| == |s|
  {
    assert s * done == s;
  }

  /** Two subsets of a common set overlap in at least as many elements as they exceed it together. */
  lemma Overlap<T>(a: set<T>, b: set<T>, whole: set<T>)
    requires a <= whole && b <= whole
    ensures |a * b| >= |a| + |b| - |whole|
  {
    SubsetCard(a + b, whole);
  }

  lemma FindMax(s: set<nat>) returns (m: nat)
    requires s != {}
    ensures m in s && forall y :: y in s ==> y <= m
  {
    m :| m in s;
    var rest := s - {m};
    assert forall y :: y in s ==> y == m || y in rest;
    if rest != {} {
      var top := FindMax(rest);
      m := if m < top then top else m;
    }
  }

  lemma MaxExists(s: set<nat>)
    requires s != {}
    ensures exists m :: m in s && forall y :: y in s ==> y <= m
  {
    var m := FindMax(s);
  }

  ghost function Max(s: set<nat>): (m: nat)
    requires s != {}
    ensures m in s && forall y :: y in s ==> y <= m
  {
    MaxExists(s);
    var m :| m in s && forall y :: y in s ==> y <= m;
    m
  }

  lemma FindMin(s: set<nat>) returns (m: nat)
    requires s != {}
    ensures m in s && forall y :: y in s ==> m <= y
  {
    m :| m in s;
    var rest := s - {m};
    assert forall y :: y in s ==> y == m || y in rest;
    if rest != {} {
      var low := FindMin(rest);
      m := if low < m then low else m;
    }
  }

  lemma MinExists(s: set<nat>)
    requires s != {}
    ensures exists m :: m in s && forall y :: y in s ==> m <= y
  {
    var m := FindMin(s);
  }

  ghost function Min(s: set<nat>): (m: nat)
    requires s != {}
    ensures m in s && forall y :: y in s ==> m <= y
  {
    MinExists(s);
    var m :| m in s && forall y :: y in s ==> m <= y;
    m
  }
}
