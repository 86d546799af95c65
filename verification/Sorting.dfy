/** The stable library sort the program relies on, and what it guarantees. */
module Sorting {
  ghost predicate TotalPreorder<T(!new)>(le: (T, T) -> bool) {
    && (forall x, y :: le(x, y) || le(y, x))
    && (forall x, y, z :: le(x, y) && le(y, z) ==> le(x, z))
  }

  ghost predicate Antisymmetric<T(!new)>(le: (T, T) -> bool) {
    forall x, y :: le(x, y) && le(y, x) ==> x == y
  }

  ghost predicate SortedBy<T>(s: seq<T>, le: (T, T) -> bool) {
    forall i, j :: 0 <= i < j < |s| ==> le(s[i], s[j])
  }

  function Insert<T>(x: T, s: seq<T>, le: (T, T) -> bool): (r: seq<T>)
    ensures multiset(r) == multiset(s) + multiset{x}
    ensures |r| == |s| + 1
  {
    if s == [] || le(x, s[0]) then [x] + s
    else
      var r := [s[0]] + Insert(x, s[1..], le);
      assert s == [s[0]] + s[1..];
      r
  }

  /** Insertion sort; an element never overtakes an equal one, as with the built-in sort. */
  function Sort<T>(s: seq<T>, le: (T, T) -> bool): (r: seq<T>)
    ensures multiset(r) == multiset(s)
    ensures |r| == |s|
  {
    if s == [] then []
    else
      assert s == [s[0]] + s[1..];
      Insert(s[0], Sort(s[1..], le), le)
  }

  lemma {:induction false} InsertSorted<T(!new)>(x: T, s: seq<T>, le: (T, T) -> bool)
    requires TotalPreorder(le) && SortedBy(s, le)
    ensures SortedBy(Insert(x, s, le), le)
  {
    if s != [] {
      if le(x, s[0]) {
        assert forall j :: 0 <= j < |s| ==> le(x, s[j]);
      } else {
        var rest := Insert(x, s[1..], le);
        InsertSorted(x, s[1..], le);
        forall j | 0 <= j < |rest| ensures le(s[0], rest[j]) {
          assert rest[j] in multiset(rest);
          assert rest[j] == x || rest[j] in s[1..];
        }
      }
    }
  }

  lemma {:induction false} SortSorts<T(!new)>(s: seq<T>, le: (T, T) -> bool)
    requires TotalPreorder(le)
    ensures SortedBy(Sort(s, le), le)
  {
    if s != [] {
      SortSorts(s[1..], le);
      InsertSorted(s[0], Sort(s[1..], le), le);
    }
  }

  ghost function Tie<T>(x: T, le: (T, T) -> bool, k: T): seq<T> {
    if le(x, k) && le(k, x) then [x] else []
  }

  /** The elements of `s` that tie with `k`, in order. */
  ghost function Ties<T>(s: seq<T>, le: (T, T) -> bool, k: T): seq<T> {
    if s == [] then []
    else Tie(s[0], le, k) + Ties(s[1..], le, k)
  }

  lemma TiesCons<T>(x: T, s: seq<T>, le: (T, T) -> bool, k: T)
    ensures Ties([x] + s, le, k) == Tie(x, le, k) + Ties(s, le, k)
  {
    assert ([x] + s)[1..] == s;
  }

  /** Of two elements in strict order at most one ties with `k`, so they may swap places. */
  lemma TiesSwap<T(!new)>(x: T, y: T, rest: seq<T>, le: (T, T) -> bool, k: T)
    requires TotalPreorder(le) && !le(x, y)
    ensures Tie(y, le, k) + (Tie(x, le, k) + rest) == Tie(x, le, k) + (Tie(y, le, k) + rest)
  {
    assert Tie(x, le, k) == [] || Tie(y, le, k) == [];
  }

  lemma {:induction false} InsertStable<T(!new)>(x: T, s: seq<T>, le: (T, T) -> bool, k: T)
    requires TotalPreorder(le)
    ensures Ties(Insert(x, s, le), le, k) == Tie(x, le, k) + Ties(s, le, k)
  {
    if s == [] || le(x, s[0]) {
      TiesCons(x, s, le, k);
    } else {
      InsertStable(x, s[1..], le, k);
      TiesCons(s[0], Insert(x, s[1..], le), le, k);
      TiesSwap(x, s[0], Ties(s[1..], le, k), le, k);
    }
  }

  /** Sorting never reorders elements that tie. */
  lemma {:induction false} SortStable<T(!new)>(s: seq<T>, le: (T, T) -> bool, k: T)
    requires TotalPreorder(le)
    ensures Ties(Sort(s, le), le, k) == Ties(s, le, k)
  {
    if s != [] {
      SortStable(s[1..], le, k);
      InsertStable(s[0], Sort(s[1..], le), le, k);
    }
  }

  /** `a` stands somewhere before `b`. */
  ghost predicate EarlierIn<T(!new)>(s: seq<T>, a: T, b: T) {
    exists i, j :: 0 <= i < j < |s| && s[i] == a && s[j] == b
  }

  /** `a` turns up before `b` ever does. */
  ghost predicate FirstBefore<T(!new)>(s: seq<T>, a: T, b: T) {
    exists k :: 0 <= k <= |s| && a in s[..k] && b !in s[..k]
  }

  lemma FirstBeforeAppend<T(!new)>(s: seq<T>, x: T)
    ensures forall a, b :: FirstBefore(s, a, b) ==> FirstBefore(s + [x], a, b)
    ensures forall a :: a in s && x !in s ==> FirstBefore(s + [x], a, x)
  {
    forall a, b | FirstBefore(s, a, b) ensures FirstBefore(s + [x], a, b) {
      var k :| 0 <= k <= |s| && a in s[..k] && b !in s[..k];
      assert (s + [x])[..k] == s[..k];
    }
    assert (s + [x])[..|s|] == s;
  }

  /** The elements of `r` come, once each, in the order in which `s` first has them. */
  ghost predicate InOrderOf<T(!new)>(r: seq<T>, s: seq<T>) {
    forall i, j :: 0 <= i < j < |r| ==> FirstBefore(s, r[i], r[j])
  }

  lemma InOrderAppend<T(!new)>(r: seq<T>, s: seq<T>, x: T)
    requires InOrderOf(r, s) && forall y :: y in r ==> y in s
    ensures InOrderOf(r, s + [x])
    ensures x !in s ==> InOrderOf(r + [x], s + [x])
  {
    FirstBeforeAppend(s, x);
  }

  /** `r` is in order, and where two of its elements tie, in the order they have in `s`. */
  ghost predicate StableOrder<T(!new)>(r: seq<T>, s: seq<T>, le: (T, T) -> bool) {
    forall i, j :: 0 <= i < j < |r| ==> le(r[i], r[j]) && (le(r[j], r[i]) ==> EarlierIn(s, r[i], r[j]))
  }

  lemma EarlierCons<T(!new)>(x: T, s: seq<T>, a: T, b: T)
    ensures EarlierIn(s, a, b) ==> EarlierIn([x] + s, a, b)
    ensures b in s ==> EarlierIn([x] + s, x, b)
  {
    if EarlierIn(s, a, b) {
      var i, j :| 0 <= i < j < |s| && s[i] == a && s[j] == b;
      assert ([x] + s)[i + 1] == a && ([x] + s)[j + 1] == b;
    }
    if b in s {
      var j :| 0 <= j < |s| && s[j] == b;
      assert ([x] + s)[0] == x && ([x] + s)[j + 1] == b;
    }
  }

  lemma {:induction false} InsertKeepsOrder<T(!new)>(x: T, r: seq<T>, s: seq<T>, le: (T, T) -> bool)
    requires TotalPreorder(le) && StableOrder(r, s, le) && forall y :: y in r ==> y in s
    ensures StableOrder(Insert(x, r, le), [x] + s, le)
  {
    var all := Insert(x, r, le);
    if r == [] || le(x, r[0]) {
      forall i, j | 0 <= i < j < |all|
        ensures le(all[i], all[j]) && (le(all[j], all[i]) ==> EarlierIn([x] + s, all[i], all[j]))
      {
        EarlierCons(x, s, all[i], all[j]);
        assert all[j] == r[j - 1] && (i > 0 ==> all[i] == r[i - 1]);
        if i == 0 && j > 1 { assert le(r[0], r[j - 1]); }
      }
    } else {
      var rest := Insert(x, r[1..], le);
      assert forall i, j :: 0 <= i < j < |r[1..]| ==> r[1..][i] == r[i + 1] && r[1..][j] == r[j + 1];
      InsertKeepsOrder(x, r[1..], s, le);
      forall j | 0 <= j < |rest|
        ensures le(r[0], rest[j]) && (le(rest[j], r[0]) ==> EarlierIn([x] + s, r[0], rest[j]))
      {
        assert rest[j] in multiset(rest);
        HeadKept(x, r, s, le, rest[j]);
      }
    }
  }

  lemma HeadKept<T(!new)>(x: T, r: seq<T>, s: seq<T>, le: (T, T) -> bool, y: T)
    requires TotalPreorder(le) && StableOrder(r, s, le) && r != [] && !le(x, r[0]) && (y == x || y in r[1..])
    ensures le(r[0], y) && (le(y, r[0]) ==> EarlierIn([x] + s, r[0], y))
  {
    EarlierCons(x, s, r[0], y);
    if y != x {
      var k :| 0 <= k < |r[1..]| && r[1..][k] == y;
      assert r[k + 1] == y;
    }
  }

  /** Sorting leaves ties as it found them. */
  lemma {:induction false} SortKeepsOrder<T(!new)>(s: seq<T>, le: (T, T) -> bool)
    requires TotalPreorder(le)
    ensures StableOrder(Sort(s, le), s, le)
  {
    if s != [] {
      SortKeepsOrder(s[1..], le);
      forall y | y in Sort(s[1..], le) ensures y in s[1..] { assert y in multiset(s[1..]); }
      InsertKeepsOrder(s[0], Sort(s[1..], le), s[1..], le);
      assert s == [s[0]] + s[1..];
    }
  }

  ghost predicate AntisymmetricOn<T(!new)>(s: seq<T>, le: (T, T) -> bool) {
    forall x, y :: x in s && y in s && le(x, y) && le(y, x) ==> x == y
  }

  /** A sorted arrangement is determined by its elements. */
  lemma {:induction false} SortedUniqueOn<T(!new)>(a: seq<T>, b: seq<T>, le: (T, T) -> bool)
    requires AntisymmetricOn(a, le) && SortedBy(a, le) && SortedBy(b, le) && multiset(a) == multiset(b)
    ensures a == b
  {
    assert |a| == |multiset(a)| && |b| == |multiset(b)|;
    if a != [] {
      HeadsEqual(a, b, le);
      TailsAgree(a, b);
      assert forall x :: x in a[1..] ==> x in a;
      SortedUniqueOn(a[1..], b[1..], le);
      assert a == [a[0]] + a[1..] && b == [b[0]] + b[1..];
    }
  }

  lemma HeadsEqual<T(!new)>(a: seq<T>, b: seq<T>, le: (T, T) -> bool)
    requires AntisymmetricOn(a, le) && SortedBy(a, le) && SortedBy(b, le) && multiset(a) == multiset(b)
    requires a != [] && b != []
    ensures a[0] == b[0]
  {
    HeadLeast(a, b, le);
    HeadLeast(b, a, le);
    assert b[0] in multiset(b);
    assert b[0] in a;
  }

  lemma TailsAgree<T>(a: seq<T>, b: seq<T>)
    requires a != [] && b != [] && a[0] == b[0] && multiset(a) == multiset(b)
    ensures multiset(a[1..]) == multiset(b[1..])
  {
    assert a == [a[0]] + a[1..] && b == [b[0]] + b[1..];
    assert multiset(a[1..]) == multiset(a) - multiset{a[0]};
    assert multiset(b[1..]) == multiset(b) - multiset{b[0]};
  }

  lemma SortedUnique<T(!new)>(a: seq<T>, b: seq<T>, le: (T, T) -> bool)
    requires Antisymmetric(le) && SortedBy(a, le) && SortedBy(b, le) && multiset(a) == multiset(b)
    ensures a == b
  {
    SortedUniqueOn(a, b, le);
  }

  lemma HeadLeast<T(!new)>(a: seq<T>, b: seq<T>, le: (T, T) -> bool)
    requires SortedBy(a, le) && multiset(a) == multiset(b) && a != [] && b != []
    ensures a[0] == b[0] || le(a[0], b[0])
  {
    assert b[0] in multiset(b);
    assert b[0] in a;
  }

  ghost predicate Distinct<T>(s: seq<T>) {
    forall i, j :: 0 <= i < j < |s| ==> s[i] != s[j]
  }

  ghost predicate SameElements<T(!new)>(a: seq<T>, b: seq<T>) {
    forall x :: x in a <==> x in b
  }

  lemma {:induction false} DistinctOnce<T(!new)>(s: seq<T>, x: T)
    requires Distinct(s)
    ensures multiset(s)[x] == if x in s then 1 else 0
  {
    if s != [] {
      assert s == [s[0]] + s[1..];
      DistinctOnce(s[1..], x);
    }
  }

  lemma OncesEqual<T(!new)>(a: seq<T>, b: seq<T>)
    requires Distinct(a) && Distinct(b) && SameElements(a, b)
    ensures multiset(a) == multiset(b)
  {
    forall x ensures multiset(a)[x] == multiset(b)[x] {
      DistinctOnce(a, x);
      DistinctOnce(b, x);
    }
  }

  lemma {:induction false} OnceDistinct<T(!new)>(s: seq<T>)
    requires forall x :: multiset(s)[x] <= 1
    ensures Distinct(s)
  {
    forall i, j | 0 <= i < j < |s| ensures s[i] != s[j] {
      assert s == s[..j] + s[j..];
      assert s[..j][i] in multiset(s[..j]) && s[j..][0] in multiset(s[j..]);
      assert multiset(s)[s[i]] == multiset(s[..j])[s[i]] + multiset(s[j..])[s[i]];
    }
  }

  lemma PermutedDistinct<T(!new)>(a: seq<T>, b: seq<T>)
    requires Distinct(a) && multiset(a) == multiset(b)
    ensures Distinct(b) && SameElements(a, b)
  {
    forall x ensures multiset(b)[x] <= 1 { DistinctOnce(a, x); }
    OnceDistinct(b);
    forall x ensures x in a <==> x in b {
      assert x in a <==> x in multiset(a);
      assert x in b <==> x in multiset(b);
    }
  }

  /** Without repetitions, sorted order and the set of elements determine the sequence. */
  lemma SortedSetUnique<T(!new)>(a: seq<T>, b: seq<T>, le: (T, T) -> bool)
    requires Antisymmetric(le) && SortedBy(a, le) && SortedBy(b, le)
    requires Distinct(a) && Distinct(b) && SameElements(a, b)
    ensures a == b
  {
    OncesEqual(a, b);
    SortedUnique(a, b, le);
  }

  /** In a sorted sequence the elements of a downward closed kind come first. */
  lemma {:induction false} DownwardPrefix<T(!new)>(s: seq<T>, le: (T, T) -> bool, early: T -> bool) returns (k: nat)
    requires SortedBy(s, le)
    requires forall x, y :: le(x, y) && early(y) ==> early(x)
    ensures k <= |s|
    ensures forall i :: 0 <= i < |s| ==> (early(s[i]) <==> i < k)
  {
    if s == [] {
      k := 0;
    } else {
      var rest := DownwardPrefix(s[1..], le, early);
      if early(s[0]) {
        k := rest + 1;
        forall i | 0 <= i < |s| ensures early(s[i]) <==> i < k {
          if i > 0 { assert s[i] == s[1..][i - 1]; }
        }
      } else {
        k := 0;
        assert forall i :: 0 < i < |s| ==> le(s[0], s[i]);
      }
    }
  }
}
