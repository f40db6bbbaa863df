/** The canonical bounded TLV codec (crates/cfr-core/src/codec.rs). */
module Tlv {
  import opened Base
  import opened Coders
  import BE = BigEndian

  const T_BYTES: nat := 1
  const T_U64: nat := 2
  const T_LIST: nat := 4
  const T_SET: nat := 5

  const MAX_FIELD: nat := 0x40_0000
  const MAX_ITEMS: nat := 0x1_0000

  // ------------------------------------------------------------------------------ primitives

  function Tagged<T>(tag: nat, c: Coder<T>): (r: Coder<T>) {
    As(Both(Where(Number(1), (n: nat) => n == tag), c), (p: (nat, T)) => p.1, (x: T) => (tag, x), c.ok)
  }

  lemma TaggedCanonical<T(!new)>(tag: nat, c: Coder<T>)
    requires Canonical(c) && tag < 256
    ensures Canonical(Tagged(tag, c))
  {
    var t := Where(Number(1), (n: nat) => n == tag);
    NumberCanonical(1);
    assert BE.Pow256(1) == 256 * BE.Pow256(0);
    WhereCanonical(Number(1), (n: nat) => n == tag);
    BothCanonical(t, c);
    AsCanonical(Both(t, c), (p: (nat, T)) => p.1, (x: T) => (tag, x), c.ok);
  }

  /** Length, then that many bytes. */
  function Block(limit: nat): (c: Coder<bytes>) {
    As(Then(Limited(limit), (n: nat) => Raw(n)), (p: (nat, bytes)) => p.1, (v: bytes) => (|v|, v),
       (v: bytes) => |v| <= limit)
  }

  lemma BlockCanonical(limit: nat)
    requires limit <= MAX_U32
    ensures Canonical(Block(limit))
  {
    LimitedCanonical(limit);
    var items := (n: nat) => Raw(n);
    forall n: nat ensures Canonical(items(n)) {
      RawCanonical(n);
    }
    ThenCanonical(Limited(limit), items);
    AsCanonical(Then(Limited(limit), items), (p: (nat, bytes)) => p.1, (v: bytes) => (|v|, v),
                (v: bytes) => |v| <= limit);
  }

  function Field(): (c: Coder<bytes>) {
    Tagged(T_BYTES, Block(MAX_FIELD))
  }

  function U64(): (c: Coder<nat>) {
    As(Tagged(T_U64, Number(8)), (n: nat) => n, (n: nat) => n, (n: nat) => n <= MAX_U64)
  }

  function U32(): (c: Coder<nat>) {
    Where(U64(), (n: nat) => n <= MAX_U32)
  }

  /** A byte string of exactly `w` bytes, read as a number. */
  function Array(w: nat): (c: Coder<nat>) {
    As(Where(Field(), (v: bytes) => |v| == w), (v: bytes) => BE.Decode(v), (n: nat) => BE.Encode(n, w),
       (n: nat) => BE.Fits(n, w))
  }

  function List<T>(c: Coder<T>): (r: Coder<seq<T>>) {
    Tagged(T_LIST, Counted(c, MAX_ITEMS))
  }

  /** Each image strictly above the one before it. */
  predicate Rising(images: seq<bytes>) {
    forall i :: 0 <= i < |images| - 1 ==> BE.Less(images[i], images[i + 1])
  }

  function Images<T>(c: Coder<T>, xs: seq<T>): (r: seq<bytes>)
    ensures |r| == |xs| && forall i :: 0 <= i < |xs| ==> r[i] == c.enc(xs[i])
  {
    seq(|xs|, i requires 0 <= i < |xs| => c.enc(xs[i]))
  }

  function SetOf<T>(c: Coder<T>): (r: Coder<seq<T>>) {
    Tagged(T_SET, Where(Counted(c, MAX_ITEMS), (xs: seq<T>) => Rising(Images(c, xs))))
  }

  lemma FieldCanonical()
    ensures Canonical(Field())
  {
    BlockCanonical(MAX_FIELD);
    TaggedCanonical(T_BYTES, Block(MAX_FIELD));
  }

  lemma IntCanonical()
    ensures Canonical(U64()) && Canonical(U32())
  {
    NumberCanonical(8);
    TaggedCanonical(T_U64, Number(8));
    forall n: nat ensures BE.Fits(n, 8) <==> n <= MAX_U64 {
      BE.EightBytes(n);
    }
    AsCanonical(Tagged(T_U64, Number(8)), (n: nat) => n, (n: nat) => n, (n: nat) => n <= MAX_U64);
    WhereCanonical(U64(), (n: nat) => n <= MAX_U32);
  }

  lemma ArrayCanonical(w: nat)
    requires w <= MAX_FIELD
    ensures Canonical(Array(w))
  {
    FieldCanonical();
    WhereCanonical(Field(), (v: bytes) => |v| == w);
    forall b: bytes | |b| == w ensures BE.Encode(BE.Decode(b), w) == b {
      BE.EncodeDecode(b);
    }
    forall n: nat | BE.Fits(n, w) ensures BE.Decode(BE.Encode(n, w)) == n {
      BE.DecodeEncode(n, w);
    }
    AsCanonical(Where(Field(), (v: bytes) => |v| == w), (v: bytes) => BE.Decode(v), (n: nat) => BE.Encode(n, w),
                (n: nat) => BE.Fits(n, w));
  }

  lemma ListCanonical<T(!new)>(c: Coder<T>)
    requires Canonical(c)
    ensures Canonical(List(c))
  {
    CountedCanonical(c, MAX_ITEMS);
    TaggedCanonical(T_LIST, Counted(c, MAX_ITEMS));
  }

  lemma SetOfCanonical<T(!new)>(c: Coder<T>)
    requires Canonical(c)
    ensures Canonical(SetOf(c))
  {
    CountedCanonical(c, MAX_ITEMS);
    WhereCanonical(Counted(c, MAX_ITEMS), (xs: seq<T>) => Rising(Images(c, xs)));
    TaggedCanonical(T_SET, Where(Counted(c, MAX_ITEMS), (xs: seq<T>) => Rising(Images(c, xs))));
  }

  // ------------------------------------------------------------------- sets of 32-byte identifiers

  function SetFrom(xs: seq<nat>): (s: set<nat>) {
    set x | x in xs
  }

  predicate IdSetOk(s: set<nat>) {
    |s| <= MAX_ITEMS && forall x :: x in s ==> BE.Fits(x, 32)
  }

  /** A set of identifiers, stored in rising image order. */
  function IdSet(): (c: Coder<set<nat>>) {
    As(SetOf(Array(32)), (xs: seq<nat>) => SetFrom(xs), (s: set<nat>) => Ascending(s), (s: set<nat>) => IdSetOk(s))
  }

  lemma {:induction false} SamePrefix(p: bytes, a: bytes, b: bytes)
    ensures BE.Less(p + a, p + b) <==> BE.Less(a, b)
  {
    if p == [] {
      assert p + a == a && p + b == b;
    } else {
      assert (p + a)[1..] == p[1..] + a && (p + b)[1..] == p[1..] + b;
      SamePrefix(p[1..], a, b);
    }
  }

  /** Images of identifiers rise exactly as the identifiers do. */
  lemma ArrayOrder(w: nat, m: nat, n: nat)
    requires BE.Fits(m, w) && BE.Fits(n, w)
    ensures BE.Less(Array(w).enc(m), Array(w).enc(n)) <==> m < n
  {
    var head := Number(1).enc(T_BYTES) + Number(4).enc(w);
    assert Array(w).enc(m) == head + BE.Encode(m, w);
    assert Array(w).enc(n) == head + BE.Encode(n, w);
    SamePrefix(head, BE.Encode(m, w), BE.Encode(n, w));
    BE.LessIsNumeric(BE.Encode(m, w), BE.Encode(n, w));
    BE.DecodeEncode(m, w);
    BE.DecodeEncode(n, w);
  }

  ghost predicate AllFit(xs: seq<nat>) {
    forall i :: 0 <= i < |xs| ==> BE.Fits(xs[i], 32)
  }

  lemma RisingIsAscending(xs: seq<nat>)
    requires AllFit(xs)
    ensures Rising(Images(Array(32), xs)) <==> StrictlyAscending(xs)
  {
    forall i | 0 <= i < |xs| - 1
      ensures BE.Less(Array(32).enc(xs[i]), Array(32).enc(xs[i + 1])) <==> xs[i] < xs[i + 1]
    {
      ArrayOrder(32, xs[i], xs[i + 1]);
    }
    if Rising(Images(Array(32), xs)) {
      StepwiseAscending(xs);
    }
  }

  lemma {:induction false} StepwiseAscending(xs: seq<nat>)
    requires forall i :: 0 <= i < |xs| - 1 ==> xs[i] < xs[i + 1]
    ensures StrictlyAscending(xs)
  {
    if |xs| > 1 {
      var init := xs[..|xs| - 1];
      StepwiseAscending(init);
      assert forall i :: 0 <= i < |init| ==> xs[i] == init[i];
      assert forall i :: 0 <= i < |init| ==> init[i] <= init[|init| - 1] < xs[|init|];
    }
  }

  lemma AscendingOf(xs: seq<nat>)
    requires StrictlyAscending(xs)
    ensures Ascending(SetFrom(xs)) == xs
  {
    AscendingUnique(Ascending(SetFrom(xs)), xs);
  }

  lemma IdSeqOk(xs: seq<nat>)
    ensures SetOf(Array(32)).ok(xs) <==> |xs| <= MAX_ITEMS && AllFit(xs) && StrictlyAscending(xs)
  {
    assert SetOf(Array(32)).ok(xs) <==> |xs| <= MAX_ITEMS && AllOk(Array(32), xs) && Rising(Images(Array(32), xs));
    if AllFit(xs) {
      RisingIsAscending(xs);
    }
  }

  lemma {:induction false} SetFromSize(xs: seq<nat>)
    ensures |SetFrom(xs)| <= |xs|
  {
    if xs != [] {
      SetFromSize(xs[1..]);
      assert SetFrom(xs) == {xs[0]} + SetFrom(xs[1..]);
    } else {
      assert SetFrom(xs) == {};
    }
  }

  lemma IdSetBack(s: set<nat>)
    requires IdSetOk(s)
    ensures SetOf(Array(32)).ok(Ascending(s)) && SetFrom(Ascending(s)) == s
  {
    IdSeqOk(Ascending(s));
  }

  lemma IdSetThere(xs: seq<nat>)
    requires SetOf(Array(32)).ok(xs)
    ensures IdSetOk(SetFrom(xs)) && Ascending(SetFrom(xs)) == xs
  {
    IdSeqOk(xs);
    SetFromSize(xs);
    AscendingOf(xs);
  }

  lemma IdSetCanonical()
    ensures Canonical(IdSet())
  {
    ArrayCanonical(32);
    SetOfCanonical(Array(32));
    forall xs | SetOf(Array(32)).ok(xs) ensures IdSetOk(SetFrom(xs)) && Ascending(SetFrom(xs)) == xs {
      IdSetThere(xs);
    }
    forall s | IdSetOk(s) ensures SetOf(Array(32)).ok(Ascending(s)) && SetFrom(Ascending(s)) == s {
      IdSetBack(s);
    }
    AsCanonical(SetOf(Array(32)), (xs: seq<nat>) => SetFrom(xs), (s: set<nat>) => Ascending(s),
                (s: set<nat>) => IdSetOk(s));
  }
}
