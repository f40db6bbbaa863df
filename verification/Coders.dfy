/** Printer and parser pairs that undo each other, and ways to combine them. */
module Coders {
  import opened Base
  import BE = BigEndian

  /** `ok` bounds the values the printer may be given; the parser returns the value and what follows it. */
  datatype Coder<!T> = Coder(enc: T -> bytes, dec: bytes -> Option<(T, bytes)>, ok: T -> bool)

  ghost predicate Prints<T>(c: Coder<T>, v: T, rest: bytes) {
    c.ok(v) ==> c.dec(c.enc(v) + rest) == Some((v, rest))
  }

  ghost predicate Parses<T>(c: Coder<T>, b: bytes) {
    c.dec(b).Some? ==> c.ok(c.dec(b).value.0) && b == c.enc(c.dec(b).value.0) + c.dec(b).value.1
  }

  /** Parsing undoes printing whatever follows, and accepted bytes are exactly what would be printed. */
  ghost predicate Canonical<T(!new)>(c: Coder<T>) {
    (forall v, rest :: Prints(c, v, rest)) && (forall b :: Parses(c, b))
  }

  /** No image of an allowed value is a prefix of another's. */
  lemma PrefixFree<T(!new)>(c: Coder<T>, v: T, w: T, r: bytes, s: bytes)
    requires Canonical(c) && c.ok(v) && c.ok(w) && c.enc(v) + r == c.enc(w) + s
    ensures v == w && r == s
  {
    assert Prints(c, v, r) && Prints(c, w, s);
  }

  /** A whole buffer holding one value and nothing after it. */
  function FromWire<T>(c: Coder<T>, b: bytes): (v: Option<T>) {
    match c.dec(b)
    case None => None
    case Some((v, rest)) => if rest == [] then Some(v) else None
  }

  lemma WireRoundTrip<T(!new)>(c: Coder<T>, v: T)
    requires Canonical(c) && c.ok(v)
    ensures FromWire(c, c.enc(v)) == Some(v)
  {
    assert Prints(c, v, []);
    assert c.enc(v) + [] == c.enc(v);
  }

  lemma WireExact<T(!new)>(c: Coder<T>, b: bytes)
    requires Canonical(c) && FromWire(c, b).Some?
    ensures c.ok(FromWire(c, b).value) && c.enc(FromWire(c, b).value) == b
  {
    assert Parses(c, b);
  }

  // ------------------------------------------------------------------------------- raw bytes

  function TakeRaw(w: nat, b: bytes): (r: Option<(bytes, bytes)>) {
    if |b| < w then None else Some((b[..w], b[w..]))
  }

  function Raw(w: nat): (c: Coder<bytes>) {
    Coder((v: bytes) => v, (b: bytes) => TakeRaw(w, b), (v: bytes) => |v| == w)
  }

  lemma RawCanonical(w: nat)
    ensures Canonical(Raw(w))
  {
    forall v, rest ensures Prints(Raw(w), v, rest) {
      if |v| == w {
        assert (v + rest)[..w] == v && (v + rest)[w..] == rest;
      }
    }
  }

  // ------------------------------------------------------------------------------ combinators

  function DecBoth<A, B>(a: Coder<A>, b: A -> Coder<B>, s: bytes): (r: Option<((A, B), bytes)>) {
    match a.dec(s)
    case None => None
    case Some((x, t)) =>
      match b(x).dec(t)
      case None => None
      case Some((y, u)) => Some(((x, y), u))
  }

  /** A value followed by one whose coder may depend on it. */
  function Then<A, B>(a: Coder<A>, b: A -> Coder<B>): (c: Coder<(A, B)>) {
    Coder((p: (A, B)) => a.enc(p.0) + b(p.0).enc(p.1), (s: bytes) => DecBoth(a, b, s),
          (p: (A, B)) => a.ok(p.0) && b(p.0).ok(p.1))
  }

  lemma ThenPrints<A, B>(a: Coder<A>, b: A -> Coder<B>, p: (A, B), rest: bytes)
    requires a.ok(p.0) ==> Prints(a, p.0, b(p.0).enc(p.1) + rest) && Prints(b(p.0), p.1, rest)
    ensures Prints(Then(a, b), p, rest)
  {
    if a.ok(p.0) && b(p.0).ok(p.1) {
      assert Then(a, b).enc(p) + rest == a.enc(p.0) + (b(p.0).enc(p.1) + rest);
    }
  }

  lemma ThenParses<A(!new), B(!new)>(a: Coder<A>, b: A -> Coder<B>, s: bytes)
    requires Canonical(a) && forall x :: a.ok(x) ==> Canonical(b(x))
    ensures Parses(Then(a, b), s)
  {
    if Then(a, b).dec(s).Some? {
      assert Parses(a, s);
      var (x, t) := a.dec(s).value;
      assert Parses(b(x), t);
      var (y, u) := b(x).dec(t).value;
      assert a.enc(x) + (b(x).enc(y) + u) == (a.enc(x) + b(x).enc(y)) + u;
    }
  }

  lemma ThenCanonical<A(!new), B(!new)>(a: Coder<A>, b: A -> Coder<B>)
    requires Canonical(a) && forall x :: a.ok(x) ==> Canonical(b(x))
    ensures Canonical(Then(a, b))
  {
    forall p, rest ensures Prints(Then(a, b), p, rest) {
      ThenPrints(a, b, p, rest);
    }
    forall s ensures Parses(Then(a, b), s) {
      ThenParses(a, b, s);
    }
  }

  function Both<A, B>(a: Coder<A>, b: Coder<B>): (c: Coder<(A, B)>) {
    Then(a, (_: A) => b)
  }

  lemma BothCanonical<A(!new), B(!new)>(a: Coder<A>, b: Coder<B>)
    requires Canonical(a) && Canonical(b)
    ensures Canonical(Both(a, b))
  {
    ThenCanonical(a, (_: A) => b);
  }

  function DecWhere<A>(a: Coder<A>, p: A -> bool, s: bytes): (r: Option<(A, bytes)>) {
    match a.dec(s)
    case None => None
    case Some((x, t)) => if p(x) then Some((x, t)) else None
  }

  /** Values that pass a check. */
  function Where<A>(a: Coder<A>, p: A -> bool): (c: Coder<A>) {
    Coder(a.enc, (s: bytes) => DecWhere(a, p, s), (x: A) => a.ok(x) && p(x))
  }

  lemma WhereCanonical<A(!new)>(a: Coder<A>, p: A -> bool)
    requires Canonical(a)
    ensures Canonical(Where(a, p))
  {
    forall v, rest ensures Prints(Where(a, p), v, rest) {
      assert Prints(a, v, rest);
    }
    forall s ensures Parses(Where(a, p), s) {
      assert Parses(a, s);
    }
  }

  function DecAs<A, B>(a: Coder<A>, to: A -> B, s: bytes): (r: Option<(B, bytes)>) {
    match a.dec(s)
    case None => None
    case Some((x, t)) => Some((to(x), t))
  }

  /** The same bytes read as another type. */
  function As<A, B>(a: Coder<A>, to: A -> B, from: B -> A, ok: B -> bool): (c: Coder<B>) {
    Coder((y: B) => a.enc(from(y)), (s: bytes) => DecAs(a, to, s), ok)
  }

  lemma AsCanonical<A(!new), B(!new)>(a: Coder<A>, to: A -> B, from: B -> A, ok: B -> bool)
    requires Canonical(a)
    requires forall x :: a.ok(x) ==> ok(to(x)) && from(to(x)) == x
    requires forall y :: ok(y) ==> a.ok(from(y)) && to(from(y)) == y
    ensures Canonical(As(a, to, from, ok))
  {
    forall v, rest ensures Prints(As(a, to, from, ok), v, rest) {
      assert Prints(a, from(v), rest);
    }
    forall s ensures Parses(As(a, to, from, ok), s) {
      assert Parses(a, s);
    }
  }

  // ------------------------------------------------------------------------------ repetition

  function EncAll<T>(c: Coder<T>, xs: seq<T>): (b: bytes) {
    if xs == [] then [] else c.enc(xs[0]) + EncAll(c, xs[1..])
  }

  function DecMany<T>(c: Coder<T>, n: nat, b: bytes): (r: Option<(seq<T>, bytes)>) {
    if n == 0 then Some(([], b))
    else match c.dec(b)
      case None => None
      case Some((x, rest)) =>
        match DecMany(c, n - 1, rest)
        case None => None
        case Some((xs, end)) => Some(([x] + xs, end))
  }

  predicate AllOk<T>(c: Coder<T>, xs: seq<T>) {
    forall i :: 0 <= i < |xs| ==> c.ok(xs[i])
  }

  /** Exactly `n` values one after the other. */
  function Many<T>(c: Coder<T>, n: nat): (m: Coder<seq<T>>) {
    Coder((xs: seq<T>) => EncAll(c, xs), (b: bytes) => DecMany(c, n, b), (xs: seq<T>) => |xs| == n && AllOk(c, xs))
  }

  lemma {:induction false} ManyPrints<T(!new)>(c: Coder<T>, n: nat, xs: seq<T>, rest: bytes)
    requires Canonical(c)
    ensures Prints(Many(c, n), xs, rest)
  {
    if |xs| == n && AllOk(c, xs) && n > 0 {
      var tail := EncAll(c, xs[1..]) + rest;
      assert Prints(c, xs[0], tail);
      assert EncAll(c, xs) + rest == c.enc(xs[0]) + tail;
      ManyPrints(c, n - 1, xs[1..], rest);
      assert xs == [xs[0]] + xs[1..];
    } else if n == 0 && xs == [] {
      assert EncAll(c, xs) + rest == rest;
    }
  }

  lemma {:induction false} ManyParses<T(!new)>(c: Coder<T>, n: nat, b: bytes)
    requires Canonical(c)
    ensures Parses(Many(c, n), b)
  {
    if n == 0 {
      assert b == [] + b;
    } else if DecMany(c, n, b).Some? {
      assert Parses(c, b);
      var (x, rest) := c.dec(b).value;
      ManyParses(c, n - 1, rest);
      var (xs, end) := DecMany(c, n - 1, rest).value;
      assert ([x] + xs)[1..] == xs;
      assert c.enc(x) + (EncAll(c, xs) + end) == (c.enc(x) + EncAll(c, xs)) + end;
    }
  }

  lemma ManyCanonical<T(!new)>(c: Coder<T>, n: nat)
    requires Canonical(c)
    ensures Canonical(Many(c, n))
  {
    forall xs, rest ensures Prints(Many(c, n), xs, rest) {
      ManyPrints(c, n, xs, rest);
    }
    forall b ensures Parses(Many(c, n), b) {
      ManyParses(c, n, b);
    }
  }

  // --------------------------------------------------------------------------------- numbers

  /** A `w`-byte big-endian number. */
  function Number(w: nat): (c: Coder<nat>) {
    As(Raw(w), (b: bytes) => BE.Decode(b), (n: nat) => BE.Encode(n, w), (n: nat) => BE.Fits(n, w))
  }

  lemma NumberCanonical(w: nat)
    ensures Canonical(Number(w))
  {
    RawCanonical(w);
    forall b: bytes | |b| == w ensures BE.Encode(BE.Decode(b), w) == b {
      BE.EncodeDecode(b);
    }
    forall n: nat | BE.Fits(n, w) ensures BE.Decode(BE.Encode(n, w)) == n {
      BE.DecodeEncode(n, w);
    }
    AsCanonical(Raw(w), (b: bytes) => BE.Decode(b), (n: nat) => BE.Encode(n, w), (n: nat) => BE.Fits(n, w));
  }

  /** A four-byte number up to `limit`. */
  function Limited(limit: nat): (c: Coder<nat>) {
    As(Where(Number(4), (n: nat) => n <= limit), (n: nat) => n, (n: nat) => n, (n: nat) => n <= limit)
  }

  lemma LimitedCanonical(limit: nat)
    requires limit <= MAX_U32
    ensures Canonical(Limited(limit))
  {
    NumberCanonical(4);
    WhereCanonical(Number(4), (n: nat) => n <= limit);
    forall n: nat ensures BE.Fits(n, 4) <==> n <= MAX_U32 {
    }
    AsCanonical(Where(Number(4), (n: nat) => n <= limit), (n: nat) => n, (n: nat) => n, (n: nat) => n <= limit);
  }

  /** A bounded four-byte count followed by that many values. */
  function Counted<T>(c: Coder<T>, limit: nat): (m: Coder<seq<T>>) {
    As(Then(Limited(limit), (n: nat) => Many(c, n)), (p: (nat, seq<T>)) => p.1, (xs: seq<T>) => (|xs|, xs),
       (xs: seq<T>) => |xs| <= limit && AllOk(c, xs))
  }

  lemma CountedCanonical<T(!new)>(c: Coder<T>, limit: nat)
    requires Canonical(c) && limit <= MAX_U32
    ensures Canonical(Counted(c, limit))
  {
    LimitedCanonical(limit);
    var items := (n: nat) => Many(c, n);
    forall n: nat ensures Canonical(items(n)) {
      ManyCanonical(c, n);
    }
    ThenCanonical(Limited(limit), items);
    AsCanonical(Then(Limited(limit), items), (p: (nat, seq<T>)) => p.1, (xs: seq<T>) => (|xs|, xs),
                (xs: seq<T>) => |xs| <= limit && AllOk(c, xs));
  }
}
