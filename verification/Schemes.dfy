/** Proper schemes without clashes exist: on them equal roots do mean equal events. */
module Schemes {
  import opened Sorting
  import opened Merkle

  function Pow2(n: nat): (p: nat)
    ensures p > 0
  {
    if n == 0 then 1 else 2 * Pow2(n - 1)
  }

  /** The low `width` binary digits of `n`. */
  function Numeral(width: nat, n: nat): (digits: Text)
    ensures |digits| == width && Binary(digits)
  {
    if width == 0 then [] else Numeral(width - 1, n / 2) + [if n % 2 == 0 then '0' else '1']
  }

  predicate Binary(t: Text) {
    forall i :: 0 <= i < |t| ==> t[i] == '0' || t[i] == '1'
  }

  lemma {:induction false} NumeralInjective(width: nat, n: nat, k: nat)
    requires n < Pow2(width) && k < Pow2(width) && Numeral(width, n) == Numeral(width, k)
    ensures n == k
    decreases width
  {
    if width > 0 {
      var a, b := Numeral(width, n), Numeral(width, k);
      assert a[..width - 1] == Numeral(width - 1, n / 2) && b[..width - 1] == Numeral(width - 1, k / 2);
      assert a[width - 1] == b[width - 1];
      NumeralInjective(width - 1, n / 2, k / 2);
    }
  }

  /** `code` writes numbers as digests, and different ones below `bound` differently. */
  ghost predicate Coding(code: nat -> Text, bound: nat) {
    && (forall n: nat :: |code(n)| == DIGEST_LENGTH && Binary(code(n)))
    && forall n: nat, k: nat :: n < bound && k < bound && code(n) == code(k) ==> n == k
  }

  function Zeros(n: nat): (t: Text)
    ensures |t| == n
  {
    seq(n, _ => '0')
  }

  function Find<T(==)>(s: seq<T>, x: T): (i: nat)
    ensures i <= |s| && (i < |s| ==> s[i] == x)
    ensures x in s ==> i < |s|
  {
    if s == [] || s[0] == x then 0 else 1 + Find(s[1..], x)
  }

  // ---- A scheme that numbers the texts it is going to hash ----

  function Payloads(events: seq<Sealed>): (payloads: seq<nat>)
    ensures |payloads| == |events|
    ensures forall i :: 0 <= i < |events| ==> payloads[i] == events[i].payload
  {
    seq(|events|, i requires 0 <= i < |events| => events[i].payload)
  }

  function PayloadText(payload: nat): Text {
    ['p'] + Zeros(payload)
  }

  function PayloadSlot(events: seq<Sealed>, payload: nat): nat {
    Find(Payloads(events), payload)
  }

  function Bodies(code: nat -> Text, events: seq<Sealed>): (bodies: seq<Body>)
    ensures |bodies| == |events|
    ensures forall i :: 0 <= i < |events| ==>
      bodies[i] == SealedBody(events[i], code(PayloadSlot(events, events[i].payload)))
  {
    seq(|events|, i requires 0 <= i < |events| =>
      SealedBody(events[i], code(PayloadSlot(events, events[i].payload))))
  }

  function BodyText(code: nat -> Text, events: seq<Sealed>, body: Body): Text {
    ['b'] + Zeros(Find(Bodies(code, events), body))
  }

  /** Payloads come first, then bodies, then the root text `first`, then anything else. */
  function Slot(events: seq<Sealed>, first: Text, x: Text): (slot: nat)
    ensures slot <= 2 * |events| + 3
  {
    var n := |events|;
    if x != [] && x[0] == 'p' then PayloadSlot(events, |x| - 1)
    else if x != [] && x[0] == 'b' then n + 1 + if |x| - 1 < n then |x| - 1 else n
    else if x == first then 2 * n + 2 else 2 * n + 3
  }

  function Numbering(code: nat -> Text, events: seq<Sealed>, first: Text): Scheme {
    Scheme(x => code(Slot(events, first, x)), body => BodyText(code, events, body), PayloadText)
  }

  function RootText(s: Scheme, events: seq<Sealed>): Text {
    Concat(Leaves(s, Sort(events, LeafLe)))
  }

  /** The scheme for comparing `a` and `b`. */
  function Separating(code: nat -> Text, a: seq<Sealed>, b: seq<Sealed>): Scheme {
    Numbering(code, a + b, RootText(Numbering(code, a + b, []), a))
  }

  lemma PayloadDigest(code: nat -> Text, events: seq<Sealed>, first: Text, payload: nat)
    ensures var s := Numbering(code, events, first);
      s.digest(s.encodePayload(payload)) == code(PayloadSlot(events, payload))
  {
    var x := PayloadText(payload);
    assert x != [] && x[0] == 'p' && |x| - 1 == payload;
    assert Slot(events, first, x) == PayloadSlot(events, payload);
  }

  lemma LeafTextIs(code: nat -> Text, events: seq<Sealed>, first: Text, e: Sealed)
    requires e in events
    ensures var body := SealedBody(e, code(PayloadSlot(events, e.payload)));
      && BodyOf(Numbering(code, events, first), e) == body && body in Bodies(code, events)
      && LeafText(Numbering(code, events, first), e) == BodyText(code, events, body)
  {
    PayloadDigest(code, events, first, e.payload);
    var i :| 0 <= i < |events| && events[i] == e;
    assert Bodies(code, events)[i] == SealedBody(e, code(PayloadSlot(events, e.payload)));
  }

  lemma LeafSlot(code: nat -> Text, events: seq<Sealed>, first: Text, e: Sealed)
    requires e in events
    ensures Slot(events, first, LeafText(Numbering(code, events, first), e)) ==
      |events| + 1 + Find(Bodies(code, events), BodyOf(Numbering(code, events, first), e))
    ensures Find(Bodies(code, events), BodyOf(Numbering(code, events, first), e)) < |events|
  {
    LeafTextIs(code, events, first, e);
    var x := LeafText(Numbering(code, events, first), e);
    assert x[0] == 'b' && |x| - 1 == Find(Bodies(code, events), BodyOf(Numbering(code, events, first), e));
  }

  function LeafNumber(code: nat -> Text, events: seq<Sealed>, e: Sealed): nat {
    |events| + 1 + Find(Bodies(code, events), SealedBody(e, code(PayloadSlot(events, e.payload))))
  }

  lemma LeafDigest(code: nat -> Text, events: seq<Sealed>, first: Text, e: Sealed)
    requires e in events
    ensures Slot(events, first, LeafText(Numbering(code, events, first), e)) == LeafNumber(code, events, e)
  {
    LeafSlot(code, events, first, e);
    LeafTextIs(code, events, first, e);
  }

  /** Leaves do not depend on which root text is numbered first. */
  lemma SameLeaves(code: nat -> Text, events: seq<Sealed>, first: Text, ordered: seq<Sealed>)
    requires forall e :: e in ordered ==> e in events
    ensures Leaves(Numbering(code, events, first), ordered) == Leaves(Numbering(code, events, []), ordered)
  {
    forall i | 0 <= i < |ordered|
      ensures Slot(events, first, LeafText(Numbering(code, events, first), ordered[i]))
           == Slot(events, [], LeafText(Numbering(code, events, []), ordered[i]))
    {
      LeafDigest(code, events, first, ordered[i]);
      LeafDigest(code, events, [], ordered[i]);
    }
  }

  lemma {:induction false} ConcatBinary(texts: seq<Text>)
    requires forall i :: 0 <= i < |texts| ==> Binary(texts[i])
    ensures Binary(Concat(texts))
  {
    if texts != [] { ConcatBinary(texts[..|texts| - 1]); }
  }

  lemma RootBinary(code: nat -> Text, events: seq<Sealed>, first: Text, ordered: seq<Sealed>)
    requires Coding(code, 0)
    ensures Binary(Concat(Leaves(Numbering(code, events, first), ordered)))
  {
    var s := Numbering(code, events, first);
    forall i | 0 <= i < |ordered| ensures Binary(Leaves(s, ordered)[i]) {
      assert Leaves(s, ordered)[i] == code(Slot(events, first, LeafText(s, ordered[i])));
    }
    ConcatBinary(Leaves(s, ordered));
  }

  // ---- It is proper and has no clash ----

  lemma SameLeafText(code: nat -> Text, events: seq<Sealed>, first: Text, x: Sealed, y: Sealed)
    requires x in events && y in events
    requires LeafText(Numbering(code, events, first), x) == LeafText(Numbering(code, events, first), y)
    ensures BodyOf(Numbering(code, events, first), x) == BodyOf(Numbering(code, events, first), y)
  {
    LeafSlot(code, events, first, x);
    LeafSlot(code, events, first, y);
  }

  lemma SeparatingProper(code: nat -> Text, a: seq<Sealed>, b: seq<Sealed>)
    requires Coding(code, 0)
    ensures Proper(Separating(code, a, b), a, b)
  {
    var s, events, first := Separating(code, a, b), a + b, RootText(Numbering(code, a + b, []), a);
    forall x ensures |s.digest(x)| == DIGEST_LENGTH { assert s.digest(x) == code(Slot(events, first, x)); }
    forall x, y | x in a && y in b && LeafText(s, x) == LeafText(s, y) ensures BodyOf(s, x) == BodyOf(s, y) {
      SameLeafText(code, events, first, x, y);
    }
    forall x, y | x in a && y in b && s.encodePayload(x.payload) == s.encodePayload(y.payload)
      ensures x.payload == y.payload
    {
      assert |PayloadText(x.payload)| == x.payload + 1 && |PayloadText(y.payload)| == y.payload + 1;
    }
  }

  lemma SortKeeps(events: seq<Sealed>, e: Sealed)
    ensures e in Sort(events, LeafLe) <==> e in events
  {
    assert e in events <==> e in multiset(events);
    assert e in Sort(events, LeafLe) <==> e in multiset(Sort(events, LeafLe));
  }

  /** What a hashed text is: the encoding of a payload or of a body, or the root text. */
  lemma HashedIs(code: nat -> Text, events: seq<Sealed>, first: Text, part: seq<Sealed>, x: Text)
    returns (e: Sealed)
    requires HashedFor(Numbering(code, events, first), part, x) && forall e :: e in part ==> e in events
    requires x != RootText(Numbering(code, events, first), part)
    ensures e in events
    ensures x == PayloadText(e.payload) || x == LeafText(Numbering(code, events, first), e)
  {
    var s := Numbering(code, events, first);
    e :| e in Sort(part, LeafLe) && (x == LeafText(s, e) || x == s.encodePayload(e.payload));
    SortKeeps(part, e);
  }

  /** Slots: payload texts below the number of events, leaf texts in the next stretch, root texts above. */
  lemma PayloadSlotIs(events: seq<Sealed>, first: Text, e: Sealed)
    requires e in events
    ensures Slot(events, first, PayloadText(e.payload)) == PayloadSlot(events, e.payload) < |events|
  {
    var i :| 0 <= i < |events| && events[i] == e;
    assert Payloads(events)[i] == e.payload;
    assert PayloadText(e.payload)[0] == 'p' && |PayloadText(e.payload)| - 1 == e.payload;
  }

  lemma RootSlot(events: seq<Sealed>, first: Text, x: Text)
    requires Binary(x)
    ensures Slot(events, first, x) == if x == first then 2 * |events| + 2 else 2 * |events| + 3
  {
  }

  /** Texts of events are told apart by their slots. */
  lemma EventTexts(code: nat -> Text, events: seq<Sealed>, first: Text, e: Sealed, x: Text, f: Sealed, y: Text)
    requires e in events && (x == PayloadText(e.payload) || x == LeafText(Numbering(code, events, first), e))
    requires f in events && (y == PayloadText(f.payload) || y == LeafText(Numbering(code, events, first), f))
    requires Slot(events, first, x) == Slot(events, first, y)
    ensures x == y
  {
    PayloadSlotIs(events, first, e);
    PayloadSlotIs(events, first, f);
    LeafSlot(code, events, first, e);
    LeafSlot(code, events, first, f);
    LeafTextIs(code, events, first, e);
    LeafTextIs(code, events, first, f);
  }

  lemma EventSlotLow(code: nat -> Text, events: seq<Sealed>, first: Text, e: Sealed, x: Text)
    requires e in events && (x == PayloadText(e.payload) || x == LeafText(Numbering(code, events, first), e))
    ensures Slot(events, first, x) < 2 * |events| + 2
  {
    PayloadSlotIs(events, first, e);
    LeafSlot(code, events, first, e);
  }

  lemma SlotsDiffer(code: nat -> Text, events: seq<Sealed>, first: Text, a: seq<Sealed>, b: seq<Sealed>,
                    x: Text, y: Text)
    requires Coding(code, 0)
    requires forall e :: e in a || e in b ==> e in events
    requires first == RootText(Numbering(code, events, first), a)
    requires HashedFor(Numbering(code, events, first), a, x) && HashedFor(Numbering(code, events, first), b, y)
    requires Slot(events, first, x) == Slot(events, first, y)
    ensures x == y
  {
    var s := Numbering(code, events, first);
    var rootB := RootText(s, b);
    RootBinary(code, events, first, Sort(a, LeafLe));
    RootBinary(code, events, first, Sort(b, LeafLe));
    RootSlot(events, first, first);
    RootSlot(events, first, rootB);
    if x != first {
      var e := HashedIs(code, events, first, a, x);
      EventSlotLow(code, events, first, e, x);
      assert y != rootB;
      var f := HashedIs(code, events, first, b, y);
      EventTexts(code, events, first, e, x, f, y);
    } else if y != rootB {
      var f := HashedIs(code, events, first, b, y);
      EventSlotLow(code, events, first, f, y);
    }
  }

  lemma FirstIsRoot(code: nat -> Text, a: seq<Sealed>, b: seq<Sealed>)
    ensures var first := RootText(Numbering(code, a + b, []), a); first == RootText(Numbering(code, a + b, first), a)
  {
    forall e | e in Sort(a, LeafLe) ensures e in a + b { SortKeeps(a, e); }
    SameLeaves(code, a + b, RootText(Numbering(code, a + b, []), a), Sort(a, LeafLe));
  }

  lemma SeparatingNoClash(code: nat -> Text, a: seq<Sealed>, b: seq<Sealed>, x: Text, y: Text)
    requires Coding(code, 2 * (|a| + |b|) + 4)
    ensures !Clash(Separating(code, a, b), a, b, x, y)
  {
    var events, first := a + b, RootText(Numbering(code, a + b, []), a);
    FirstIsRoot(code, a, b);
    if Clash(Separating(code, a, b), a, b, x, y) {
      assert code(Slot(events, first, x)) == code(Slot(events, first, y));
      SlotsDiffer(code, events, first, a, b, x, y);
    }
  }

  lemma NumeralsCode(bound: nat)
    requires bound <= Pow2(DIGEST_LENGTH)
    ensures Coding((n: nat) => Numeral(DIGEST_LENGTH, n), bound)
  {
    forall n: nat, k: nat | n < bound && k < bound && Numeral(DIGEST_LENGTH, n) == Numeral(DIGEST_LENGTH, k)
      ensures n == k
    {
      NumeralInjective(DIGEST_LENGTH, n, k);
    }
  }

  /** No two different texts hashed for the two roots share a digest. */
  ghost predicate ClashFree(s: Scheme, a: seq<Sealed>, b: seq<Sealed>) {
    forall x, y {:trigger Clash(s, a, b, x, y)} :: !Clash(s, a, b, x, y)
  }

  /** Whatever the events, as long as there are digests enough to go round, some proper scheme has no clash on them,
      so that root binding ends in its first conclusion: equal roots, equal events. */
  lemma RootsTellApart(a: seq<Sealed>, b: seq<Sealed>) returns (s: Scheme)
    requires 2 * (|a| + |b|) + 4 <= Pow2(DIGEST_LENGTH)
    ensures Proper(s, a, b) && ClashFree(s, a, b)
    ensures Root(s, a) == Root(s, b) ==> multiset(a) == multiset(b)
  {
    var code := (n: nat) => Numeral(DIGEST_LENGTH, n);
    NumeralsCode(2 * (|a| + |b|) + 4);
    s := Separating(code, a, b);
    SeparatingProper(code, a, b);
    forall x, y ensures !Clash(s, a, b, x, y) { SeparatingNoClash(code, a, b, x, y); }
    if Root(s, a) == Root(s, b) { var u, v := RootBinds(s, a, b); }
  }
}
