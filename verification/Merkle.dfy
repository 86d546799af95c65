/** The checkpoint root: what it depends on and what it binds (mdrj/checkpoint.py:63-97). */
module Merkle {
  import opened Prelude
  import opened Dag
  import opened Sorting

  type Text = seq<char>

  const DIGEST_LENGTH: nat := 64

  /** The hashed fields of an event. */
  datatype Sealed = Sealed(
    id: Id,
    cls: EventClass,
    creator: NodeId,
    parents: seq<Id>,
    consensusTs: Option<real>,
    roundReceived: Option<nat>,
    payload: nat)

  /** The leaf body: as sealed, with the payload replaced by its digest. */
  datatype Body = Body(
    id: Id,
    cls: EventClass,
    creator: NodeId,
    parents: seq<Id>,
    consensusTs: Option<real>,
    roundReceived: Option<nat>,
    payloadHash: Text)

  /** A digest function together with the canonical encoding of bodies and payloads. */
  datatype Scheme = Scheme(digest: Text -> Text, encodeBody: Body -> Text, encodePayload: nat -> Text)

  function SealedBody(e: Sealed, payloadHash: Text): Body {
    Body(e.id, e.cls, e.creator, e.parents, e.consensusTs, e.roundReceived, payloadHash)
  }

  function BodyOf(s: Scheme, e: Sealed): Body {
    SealedBody(e, s.digest(s.encodePayload(e.payload)))
  }

  function LeafText(s: Scheme, e: Sealed): Text {
    s.encodeBody(BodyOf(s, e))
  }

  /** Digests have a fixed length, and the encodings tell the compared events apart.
      Nothing is assumed about collisions of the digest. */
  ghost predicate Proper(s: Scheme, a: seq<Sealed>, b: seq<Sealed>) {
    && (forall x :: |s.digest(x)| == DIGEST_LENGTH)
    && (forall x, y :: x in a && y in b && LeafText(s, x) == LeafText(s, y) ==> BodyOf(s, x) == BodyOf(s, y))
    && (forall x, y :: x in a && y in b && s.encodePayload(x.payload) == s.encodePayload(y.payload) ==>
        x.payload == y.payload)
  }

  function RoundKey(e: Sealed): int {
    match e.roundReceived case None => -1 case Some(r) => r
  }

  predicate LeafLe(a: Sealed, b: Sealed) {
    if RoundKey(a) != RoundKey(b) then RoundKey(a) < RoundKey(b) else a.id <= b.id
  }

  function Leaves(s: Scheme, ordered: seq<Sealed>): (leaves: seq<Text>)
    ensures |leaves| == |ordered| && forall i :: 0 <= i < |ordered| ==> leaves[i] == s.digest(LeafText(s, ordered[i]))
  {
    seq(|ordered|, i requires 0 <= i < |ordered| => s.digest(LeafText(s, ordered[i])))
  }

  function Concat(texts: seq<Text>): Text {
    if texts == [] then [] else Concat(texts[..|texts| - 1]) + texts[|texts| - 1]
  }

  function Root(s: Scheme, events: seq<Sealed>): Text {
    s.digest(Concat(Leaves(s, Sort(events, LeafLe))))
  }

  /** Events without a received round first, then by round; within a round by id. */
  ghost predicate LeafOrder(ordered: seq<Sealed>) {
    forall i, j :: 0 <= i < j < |ordered| ==> var a, b := ordered[i], ordered[j];
      && (a.roundReceived.Some? ==> b.roundReceived.Some? && a.roundReceived.value <= b.roundReceived.value)
      && (a.roundReceived == b.roundReceived ==> a.id <= b.id)
  }

  lemma SortedLeaves(events: seq<Sealed>)
    ensures LeafOrder(Sort(events, LeafLe)) && multiset(Sort(events, LeafLe)) == multiset(events)
  {
    SortSorts(events, LeafLe);
    var ordered := Sort(events, LeafLe);
    forall i, j | 0 <= i < j < |ordered| ensures LeafLe(ordered[i], ordered[j]) { }
  }

  /** Leaf digests are fed to the digest one after another. */
  lemma {:induction false} ConcatAdds(a: seq<Text>, b: seq<Text>)
    ensures Concat(a + b) == Concat(a) + Concat(b)
    ensures |a| == 1 ==> Concat(a) == a[0]
  {
    if b == [] {
      assert a + b == a;
    } else {
      var n := |b| - 1;
      assert (a + b)[..|a + b| - 1] == a + b[..n];
      ConcatAdds(a, b[..n]);
    }
    if |a| == 1 { assert a[..0] == []; }
  }

  method ComputeMerkleRoot(s: Scheme, events: seq<Sealed>) returns (root: Text, ghost leafOrder: seq<Sealed>)
    ensures root == Root(s, events)
    ensures root == s.digest(Concat(Leaves(s, leafOrder)))
    ensures LeafOrder(leafOrder) && multiset(leafOrder) == multiset(events)
  {
    var ordered := Sort(events, LeafLe);
    leafOrder := ordered;
    SortedLeaves(events);
    var leaves: seq<Text> := [];
    for i := 0 to |ordered|
      invariant leaves == Leaves(s, ordered[..i])
    {
      leaves := leaves + [s.digest(LeafText(s, ordered[i]))];
    }
    assert ordered[..|ordered|] == ordered;
    var fed: Text := [];
    for i := 0 to |leaves|
      invariant fed == Concat(leaves[..i])
    {
      assert leaves[..i + 1][..i] == leaves[..i];
      fed := fed + leaves[i];
    }
    assert leaves[..|leaves|] == leaves;
    root := s.digest(fed);
  }

  ghost predicate DistinctEventIds(events: seq<Sealed>) {
    forall x, y :: x in events && y in events && x.id == y.id ==> x == y
  }

  /** The root does not depend on the order in which events with distinct ids are listed. */
  lemma RootOfPermutation(s: Scheme, a: seq<Sealed>, b: seq<Sealed>)
    requires multiset(a) == multiset(b) && DistinctEventIds(a)
    ensures Root(s, a) == Root(s, b)
  {
    SortSorts(a, LeafLe);
    SortSorts(b, LeafLe);
    forall x | x in Sort(a, LeafLe) ensures x in a {
      assert x in multiset(Sort(a, LeafLe));
    }
    SortedUniqueOn(Sort(a, LeafLe), Sort(b, LeafLe), LeafLe);
  }

  // ---- What a root binds ----

  /** The texts hashed while computing a root. */
  ghost predicate HashedFor(s: Scheme, events: seq<Sealed>, x: Text) {
    || x == Concat(Leaves(s, Sort(events, LeafLe)))
    || exists e :: e in Sort(events, LeafLe) && (x == LeafText(s, e) || x == s.encodePayload(e.payload))
  }

  ghost predicate Clash(s: Scheme, a: seq<Sealed>, b: seq<Sealed>, x: Text, y: Text) {
    x != y && s.digest(x) == s.digest(y) && HashedFor(s, a, x) && HashedFor(s, b, y)
  }

  /** Concatenations of fixed-length digests can be taken apart again. */
  lemma {:induction false} ConcatInjective(a: seq<Text>, b: seq<Text>)
    requires forall x :: x in a || x in b ==> |x| == DIGEST_LENGTH
    requires Concat(a) == Concat(b)
    ensures a == b
  {
    ConcatLength(a);
    ConcatLength(b);
    if a != [] && b != [] {
      var n, k := |a| - 1, |b| - 1;
      assert a == a[..n] + [a[n]] && b == b[..k] + [b[k]];
      assert a[n] in a && b[k] in b;
      assert Concat(a)[|Concat(a)| - DIGEST_LENGTH..] == a[n];
      assert Concat(b)[|Concat(b)| - DIGEST_LENGTH..] == b[k];
      assert Concat(a)[..|Concat(a)| - DIGEST_LENGTH] == Concat(a[..n]);
      assert Concat(b)[..|Concat(b)| - DIGEST_LENGTH] == Concat(b[..k]);
      ConcatInjective(a[..n], b[..k]);
    }
  }

  lemma {:induction false} ConcatLength(a: seq<Text>)
    requires forall x :: x in a ==> |x| == DIGEST_LENGTH
    ensures |Concat(a)| == DIGEST_LENGTH * |a|
  {
    if a != [] {
      assert a[|a| - 1] in a;
      ConcatLength(a[..|a| - 1]);
    }
  }

  /** Equal leaf digests mean equal sealed events, or two hashed texts that clash. */
  lemma {:induction false} LeafBinds(s: Scheme, a: seq<Sealed>, b: seq<Sealed>, x: Sealed, y: Sealed)
      returns (u: Text, v: Text)
    requires Proper(s, a, b) && x in Sort(a, LeafLe) && y in Sort(b, LeafLe)
    requires s.digest(LeafText(s, x)) == s.digest(LeafText(s, y))
    ensures x == y || Clash(s, a, b, u, v)
  {
    u, v := LeafText(s, x), LeafText(s, y);
    assert x in multiset(Sort(a, LeafLe)) && y in multiset(Sort(b, LeafLe));
    assert x in a && y in b;
    if u == v {
      assert BodyOf(s, x) == BodyOf(s, y);
      u, v := s.encodePayload(x.payload), s.encodePayload(y.payload);
    }
  }

  /** Equal roots mean the same events, field by field, or two distinct hashed texts with the same digest. */
  lemma RootBinds(s: Scheme, a: seq<Sealed>, b: seq<Sealed>) returns (u: Text, v: Text)
    requires Proper(s, a, b) && Root(s, a) == Root(s, b)
    ensures multiset(a) == multiset(b) || Clash(s, a, b, u, v)
  {
    var sa, sb := Sort(a, LeafLe), Sort(b, LeafLe);
    u, v := Concat(Leaves(s, sa)), Concat(Leaves(s, sb));
    if u == v {
      ConcatInjective(Leaves(s, sa), Leaves(s, sb));
      u, v := LeavesBind(s, a, b, sa, sb);
    }
  }

  lemma LeavesBind(s: Scheme, a: seq<Sealed>, b: seq<Sealed>, sa: seq<Sealed>, sb: seq<Sealed>)
      returns (u: Text, v: Text)
    requires Proper(s, a, b) && sa == Sort(a, LeafLe) && sb == Sort(b, LeafLe) && Leaves(s, sa) == Leaves(s, sb)
    ensures sa == sb || Clash(s, a, b, u, v)
  {
    u, v := [], [];
    if sa != sb {
      assert |sa| == |Leaves(s, sa)| == |sb|;
      var i :| 0 <= i < |sa| && sa[i] != sb[i];
      assert Leaves(s, sa)[i] == Leaves(s, sb)[i];
      u, v := LeafBinds(s, a, b, sa[i], sb[i]);
    }
  }
}
