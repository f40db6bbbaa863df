/** Fixed-width big-endian integers. */
module BigEndian {
  import opened Base

  function Pow256(w: nat): (n: nat)
    ensures n > 0
  {
    if w == 0 then 1 else 256 * Pow256(w - 1)
  }

  /** The value fits in `w` bytes. */
  predicate Fits(n: nat, w: nat) {
    n < Pow256(w)
  }

  lemma EightBytes(n: nat)
    ensures Fits(n, 8) <==> n <= MAX_U64
  {
    assert Pow256(4) == 0x1_0000_0000;
    assert Pow256(8) == 256 * (256 * (256 * (256 * Pow256(4))));
  }

  function Encode(n: nat, w: nat): (b: bytes)
    ensures |b| == w
  {
    if w == 0 then [] else Encode(n / 256, w - 1) + [(n % 256) as byte]
  }

  function Decode(b: bytes): (n: nat)
    ensures Fits(n, |b|)
  {
    if b == [] then 0 else Decode(b[..|b| - 1]) * 256 + b[|b| - 1] as nat
  }

  lemma {:induction false} DecodeEncode(n: nat, w: nat)
    requires Fits(n, w)
    ensures Decode(Encode(n, w)) == n
  {
    if w > 0 {
      DecodeEncode(n / 256, w - 1);
      assert Encode(n, w)[..w - 1] == Encode(n / 256, w - 1);
    }
  }

  lemma {:induction false} EncodeDecode(b: bytes)
    ensures Encode(Decode(b), |b|) == b
  {
    if b != [] {
      var init, last := b[..|b| - 1], b[|b| - 1];
      EncodeDecode(init);
      var n := Decode(b);
      assert n / 256 == Decode(init) && n % 256 == last as nat;
      assert b == init + [last];
    }
  }

  /** Byte strings compared as Rust slices: the first difference decides, a proper prefix is smaller. */
  predicate Less(a: bytes, b: bytes) {
    if b == [] then false
    else if a == [] then true
    else a[0] < b[0] || (a[0] == b[0] && Less(a[1..], b[1..]))
  }

  lemma {:induction false} DecodeSplit(b: bytes)
    requires b != []
    ensures Decode(b) == b[0] as nat * Pow256(|b| - 1) + Decode(b[1..])
  {
    if |b| > 1 {
      var init, last := b[..|b| - 1], b[|b| - 1] as nat;
      DecodeSplit(init);
      assert b[1..][..|b| - 2] == init[1..];
      assert init[0] == b[0];
      Regroup(b[0] as nat, Pow256(|b| - 2), Decode(init[1..]), last);
    }
  }

  lemma Regroup(h: nat, p: nat, t: nat, last: nat)
    ensures (h * p + t) * 256 + last == h * (256 * p) + (t * 256 + last)
  {
  }

  /** Among strings of one width, byte order is numeric order. */
  lemma {:induction false} LessIsNumeric(a: bytes, b: bytes)
    requires |a| == |b|
    ensures Less(a, b) <==> Decode(a) < Decode(b)
  {
    if a != [] {
      DecodeSplit(a);
      DecodeSplit(b);
      LessIsNumeric(a[1..], b[1..]);
      HeadDecides(a[0] as nat, Decode(a[1..]), b[0] as nat, Decode(b[1..]), Pow256(|a| - 1));
    }
  }

  lemma HeadDecides(h: nat, s: nat, k: nat, t: nat, p: nat)
    requires s < p && t < p
    ensures h * p + s < k * p + t <==> h < k || (h == k && s < t)
  {
    if h < k {
      assert (h + 1) * p <= k * p;
    } else if k < h {
      assert (k + 1) * p <= h * p;
    }
  }
}
