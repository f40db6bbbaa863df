/** When does encrypting the secret bytes in place leave the computed layout unchanged? */
module Stability {
  import opened Base
  import opened Layout
  import opened Bitstream

  /** `g` is `f` with its secret bytes replaced by anything. */
  ghost predicate Reencrypted(f: bytes, g: bytes, l: Layout) {
    |g| == |f| && forall p: nat :: p < |f| && Covers(l.clear, p) ==> g[p] == f[p]
  }

  /** No ciphertext changes the layout. */
  ghost predicate Stable(c: Codec, f: bytes, keyframe: bool) {
    forall g :: Reencrypted(f, g, LayoutOf(c, f, keyframe)) ==> LayoutOf(c, g, keyframe) == LayoutOf(c, f, keyframe)
  }

  // -------------------------------------------------------------------- readable unit prefixes

  ghost predicate SamePrefixes(us: seq<Unit>, f: bytes, g: bytes, header: nat) {
    && |g| == |f|
    && forall k, p: nat :: 0 <= k < |us| && us[k].start <= p < ClearEnd(us[k], header) && p < |f| ==> g[p] == f[p]
  }

  lemma {:induction false} UnitClear(us: seq<Unit>, header: nat, k: nat, p: nat)
    requires k < |us| && us[k].start <= p < ClearEnd(us[k], header)
    ensures Covers(Clears(us, header), p)
  {
    CoversCons(Range(us[0].start, ClearEnd(us[0], header)), Clears(us[1..], header), p);
    if k > 0 {
      UnitClear(us[1..], header, k - 1, p);
    }
  }

  lemma ReencryptedSamePrefixes(us: seq<Unit>, f: bytes, g: bytes, header: nat)
    requires Chain(us, 0, |f|) && Reencrypted(f, g, FromUnits(us, header))
    ensures SamePrefixes(us, f, g, header)
  {
    UnitsOrdered(us, 0, |f|, header);
    MergeKeeps(Clears(us, header), |f|);
    forall k, p: nat | 0 <= k < |us| && us[k].start <= p < ClearEnd(us[k], header) && p < |f| ensures g[p] == f[p] {
      UnitClear(us, header, k, p);
    }
  }

  lemma {:induction false} ChainTail(us: seq<Unit>, f: bytes, g: bytes, header: nat)
    requires us != [] && SamePrefixes(us, f, g, header)
    ensures SamePrefixes(us[1..], f, g, header)
  {
    forall k, p: nat | 0 <= k < |us| - 1 && us[1..][k].start <= p < ClearEnd(us[1..][k], header) && p < |f|
      ensures g[p] == f[p]
    {
      assert us[1..][k] == us[k + 1];
    }
  }

  // ----------------------------------------------------------- length-prefixed units are stable

  lemma {:induction false} PrefixedStable(f: bytes, g: bytes, i: nat, header: nat)
    requires i <= |f| && Prefixed(f, i).Some? && SamePrefixes(Prefixed(f, i).value, f, g, header)
    ensures Prefixed(g, i) == Prefixed(f, i)
    decreases |f| - i
  {
    if i < |f| {
      var us := Prefixed(f, i).value;
      var n := Length32(f, i);
      var rest := Prefixed(f, i + 4 + n).value;
      assert us[0] == Unit(i, i + 4, i + 4 + n) && us[1..] == rest;
      forall p: nat | i <= p < i + 4 ensures g[p] == f[p] {
        assert us[0].start <= p < ClearEnd(us[0], header);
      }
      ChainTail(us, f, g, header);
      PrefixedStable(f, g, i + 4 + n, header);
    }
  }

  // ------------------------------------------------------------------- well-formed AV1 is stable

  lemma {:induction false} LebStable(f: bytes, g: bytes, at: nat, i: nat, scale: nat, value: nat)
    requires Leb(f, at, i, scale, value).Some? && |g| == |f| && i < 8
    requires forall p: nat :: at + i <= p < at + Leb(f, at, i, scale, value).value.1 && p < |f| ==> g[p] == f[p]
    ensures Leb(g, at, i, scale, value) == Leb(f, at, i, scale, value)
    decreases 8 - i
  {
    LebWidth(f, at, i, scale, value);
    assert g[at + i] == f[at + i];
    if f[at + i] as nat >= 128 {
      LebStable(f, g, at, i + 1, scale * 128, value + (f[at + i] as nat % 128) * scale);
    }
  }

  lemma ObuStable(f: bytes, g: bytes, pos: nat)
    requires pos < |f| == |g| && Obu(f, pos).Some?
    requires forall p: nat :: pos <= p < Obu(f, pos).value.body && p < |f| ==> g[p] == f[p]
    ensures Obu(g, pos) == Obu(f, pos)
  {
    ObuBounds(f, pos);
    assert g[pos] == f[pos];
    var header := f[pos] as nat;
    var meta := if (header / 4) % 2 == 1 then 2 else 1;
    if (header / 2) % 2 == 1 {
      LebStable(f, g, pos + meta, 0, 1, 0);
    }
  }

  lemma {:induction false} ObusStable(f: bytes, g: bytes, pos: nat)
    requires pos <= |f| && Obus(f, pos).Some? && SamePrefixes(Obus(f, pos).value, f, g, 0)
    ensures Obus(g, pos) == Obus(f, pos)
    decreases |f| - pos
  {
    if pos < |f| {
      var us := Obus(f, pos).value;
      var u := Obu(f, pos).value;
      ObuBounds(f, pos);
      assert us[0] == u && us[1..] == Obus(f, u.end).value;
      forall p: nat | pos <= p < u.body ensures g[p] == f[p] {
        assert us[0].start <= p < ClearEnd(us[0], 0);
      }
      ObuStable(f, g, pos);
      ChainTail(us, f, g, 0);
      ObusStable(f, g, u.end);
    }
  }

  // -------------------------------------------------------------------------- fixed prefixes

  lemma PrefixClear(len: nat, total: nat, p: nat)
    requires p < total && p < len
    ensures Covers(Prefix(len, total).clear, p)
  {
    assert Within(Prefix(len, total).clear[0], p);
  }

  lemma PrefixSecret(total: nat, p: nat)
    ensures !Covers(Prefix(0, total).clear, p)
  {
  }

  lemma FixedStable(c: Codec, f: bytes, keyframe: bool)
    requires c.Vp8? || c.Vp9? || c.Opus? || c.Generic?
    ensures Stable(c, f, keyframe)
  {
    if c.Vp8? && f != [] {
      PrefixClear(10, |f|, 0);
      PrefixClear(3, |f|, 0);
    }
  }

  // ---------------------------------------------------------------------------------- AV1, exactly

  lemma Av1Stable(f: bytes, g: bytes)
    requires Obus(f, 0).Some? && Reencrypted(f, g, Av1Layout(f))
    ensures Av1Layout(g) == Av1Layout(f)
  {
    if f != [] {
      ObusChain(f, 0);
      ReencryptedSamePrefixes(Obus(f, 0).value, f, g, 0);
      ObusStable(f, g, 0);
    }
  }

  /** A leading zero byte reads as a unit without size field that runs to the end. */
  lemma ZeroByteParses(g: bytes)
    requires g != [] && g[0] == 0
    ensures Obus(g, 0) == Some([Unit(0, 1, |g|)]) && Covers(Av1Layout(g).clear, 0)
  {
    var us := [Unit(0, 1, |g|)];
    assert Obu(g, 0) == Some(us[0]);
    assert Obus(g, |g|) == Some([]) && us == us + [];
    UnitClear(us, 0, 0, 0);
    ObusChain(g, 0);
    UnitsOrdered(us, 0, |g|, 0);
    MergeKeeps(Clears(us, 0), |g|);
  }

  /** `g` is a possible encryption of `f` that shows the byte at `w` as readable though it was changed. */
  ghost predicate Misreads(f: bytes, lf: Layout, g: bytes, lg: Layout, w: nat) {
    Reencrypted(f, g, lf) && w < |f| && g[w] != f[w] && Covers(lg.clear, w)
  }

  lemma Av1Unstable(f: bytes) returns (g: bytes, w: nat)
    requires Obus(f, 0) == None
    ensures Misreads(f, Av1Layout(f), g, Av1Layout(g), w)
  {
    g, w := [0 as byte] + f[1..], 0;
    ZeroByteParses(g);
    if f[0] == 0 {
      ZeroByteParses(f);
    }
    forall p: nat ensures !Covers(Av1Layout(f).clear, p) {
      PrefixSecret(|f|, p);
    }
  }

  /** AV1 survives every ciphertext exactly when it parses as a sequence of units. */
  lemma Av1StableExactly(f: bytes, keyframe: bool)
    ensures Stable(Av1, f, keyframe) <==> Obus(f, 0).Some?
  {
    if Obus(f, 0).Some? {
      forall g | Reencrypted(f, g, LayoutOf(Av1, f, keyframe))
        ensures LayoutOf(Av1, g, keyframe) == LayoutOf(Av1, f, keyframe)
      {
        Av1Stable(f, g);
      }
    } else {
      var g, w := Av1Unstable(f);
      assert Reencrypted(f, g, LayoutOf(Av1, f, keyframe)) && LayoutOf(Av1, g, keyframe) != LayoutOf(Av1, f, keyframe);
    }
  }

  // ------------------------------------------------------------------------------ Annex B, exactly

  /** How many of the last readable bytes before the secret range are zero, up to two. */
  function ZeroTail(f: bytes, body: nat, cs: nat): (z: nat)
    requires body <= cs <= |f|
  {
    if cs > body && f[cs - 1] == 0 then (if cs > body + 1 && f[cs - 2] == 0 then 2 else 1) else 0
  }

  /** The secret range of unit `k` is too short to form a start code with what surrounds it: fewer than
    * three bytes counting readable zeros before it, and no three-byte start code right behind it. */
  ghost predicate TooShort(f: bytes, us: seq<Unit>, header: nat, k: nat)
    requires k < |us| && us[k].body <= us[k].end <= |f|
  {
    var cs := ClearEnd(us[k], header);
    cs < us[k].end ==>
      && us[k].end - cs + ZeroTail(f, us[k].body, cs) < 3
      && (k + 1 < |us| ==> us[k + 1].body - us[k + 1].start == 4)
  }

  ghost predicate Rigid(f: bytes, us: seq<Unit>, header: nat) {
    forall k :: 0 <= k < |us| ==> us[k].body <= us[k].end <= |f| && TooShort(f, us, header, k)
  }

  /** The scan finds nothing between a code and the next one. */
  lemma {:induction false} GapIsEmpty(f: bytes, a: nat, p: nat)
    requires a <= p && (StartCodes(f, a) != [] ==> p < StartCodes(f, a)[0].at)
    ensures CodeLen(f, p) == 0
    decreases p - a
  {
    ScanFirst(f, a);
    if a < p && a + 3 <= |f| {
      GapIsEmpty(f, a + 1, p);
    }
  }

  lemma {:induction false} ScanOver(f: bytes, a: nat, j: nat)
    requires a <= j && forall p: nat :: a <= p < j ==> CodeLen(f, p) == 0
    ensures StartCodes(f, a) == StartCodes(f, j)
    decreases j - a
  {
    if a < j {
      if a + 3 <= |f| {
        ScanOver(f, a + 1, j);
      }
    }
  }

  /** No ciphertext puts a start code into the body of a rigid unit. */
  lemma NoNewCode(f: bytes, g: bytes, body: nat, cs: nat, end: nat, next: nat, p: nat)
    requires |g| == |f| && body <= cs <= end <= |f| && body <= p < end
    requires forall q: nat :: body <= q < cs ==> g[q] == f[q]
    requires end < |f| ==>
      && next > 0 && end + next <= |f| && next == CodeLen(f, end)
      && forall q: nat :: end <= q < end + next ==> g[q] == f[q]
    requires CodeLen(f, p) == 0
    requires cs < end ==> end - cs + ZeroTail(f, body, cs) < 3 && (end < |f| ==> next == 4)
    ensures CodeLen(g, p) == 0
  {
    if cs == end {
      assert forall q: nat :: p <= q < p + 4 && q < |f| && (q < end || q < end + next) ==> g[q] == f[q];
    }
  }

  /** The scan after the first code is the scan from the next one. */
  lemma CodesRest(f: bytes, i: nat)
    requires CodeLen(f, i) > 0
    ensures var cs := StartCodes(f, i);
      && cs != [] && cs[0] == Code(i, CodeLen(f, i))
      && (|cs| > 1 ==> i + CodeLen(f, i) <= cs[1].at && CodeLen(f, cs[1].at) > 0 && cs[1..] == StartCodes(f, cs[1].at))
  {
    var cs, next := StartCodes(f, i), i + CodeLen(f, i);
    assert cs == [Code(i, CodeLen(f, i))] + StartCodes(f, next) && cs[1..] == StartCodes(f, next);
    if |cs| > 1 {
      ScanFirst(f, next);
      ScanSkips(f, next, cs[1].at);
    }
  }

  lemma UnitsRest(cs: seq<Code>, total: nat)
    requires cs != []
    ensures var us := CodeUnits(cs, total);
      us != [] && us[0].end == (if |cs| > 1 then cs[1].at else total) && us[1..] == CodeUnits(cs[1..], total)
  {
  }

  lemma ScanRest(f: bytes, i: nat)
    requires CodeLen(f, i) > 0
    ensures var cs := StartCodes(f, i);
      var us := CodeUnits(cs, |f|);
      && us != [] && us[1..] == CodeUnits(cs[1..], |f|)
      && (|cs| > 1 ==> i < us[0].end < |f| && CodeLen(f, us[0].end) > 0 && cs[1..] == StartCodes(f, us[0].end))
      && (|cs| <= 1 ==> us[0].end == |f|)
  {
    CodesRest(f, i);
    UnitsRest(StartCodes(f, i), |f|);
  }

  lemma RigidHead(f: bytes, g: bytes, i: nat, header: nat)
    requires CodeLen(f, i) > 0 && SamePrefixes(CodeUnits(StartCodes(f, i), |f|), f, g, header)
    ensures CodeLen(g, i) == CodeLen(f, i)
  {
    var us := CodeUnits(StartCodes(f, i), |f|);
    ScanFirst(f, i);
    CodesChain(f, i);
    forall p: nat | i <= p < i + CodeLen(f, i) ensures g[p] == f[p] {
      assert us[0].start <= p < ClearEnd(us[0], header);
    }
  }

  /** A rigid frame is scanned the same way under every ciphertext. */
  lemma {:induction false} RigidScan(f: bytes, g: bytes, i: nat, header: nat)
    requires CodeLen(f, i) > 0
    requires Rigid(f, CodeUnits(StartCodes(f, i), |f|), header)
    requires SamePrefixes(CodeUnits(StartCodes(f, i), |f|), f, g, header)
    ensures StartCodes(g, i) == StartCodes(f, i)
    decreases |f| - i
  {
    var cs := StartCodes(f, i);
    var us := CodeUnits(cs, |f|);
    var len := CodeLen(f, i);
    ScanRest(f, i);
    RigidHead(f, g, i, header);
    BodyStaysEmpty(f, g, i, header);
    ScanOver(g, i + len, us[0].end);
    CodesRest(f, i);
    ScanHead(g, i);
    if |cs| > 1 {
      ChainTail(us, f, g, header);
      RigidTail(f, us, header);
      RigidScan(f, g, us[0].end, header);
      assert cs == [cs[0]] + cs[1..];
    } else {
      assert StartCodes(g, |f|) == [] && cs == [cs[0]];
    }
  }

  lemma ScanHead(g: bytes, i: nat)
    requires CodeLen(g, i) > 0
    ensures StartCodes(g, i) == [Code(i, CodeLen(g, i))] + StartCodes(g, i + CodeLen(g, i))
  {
  }

  lemma RigidTail(f: bytes, us: seq<Unit>, header: nat)
    requires us != [] && Rigid(f, us, header)
    ensures Rigid(f, us[1..], header)
  {
    forall k | 0 <= k < |us[1..]| ensures us[1..][k].body <= us[1..][k].end <= |f| && TooShort(f, us[1..], header, k) {
      assert us[1..][k] == us[k + 1];
      assert TooShort(f, us, header, k + 1);
    }
  }

  lemma BodyStaysEmpty(f: bytes, g: bytes, i: nat, header: nat)
    requires CodeLen(f, i) > 0
    requires Rigid(f, CodeUnits(StartCodes(f, i), |f|), header)
    requires SamePrefixes(CodeUnits(StartCodes(f, i), |f|), f, g, header)
    ensures var us := CodeUnits(StartCodes(f, i), |f|);
      us != [] && us[0].body == i + CodeLen(f, i) && forall p: nat :: us[0].body <= p < us[0].end ==> CodeLen(g, p) == 0
  {
    var cs := StartCodes(f, i);
    var us := CodeUnits(cs, |f|);
    ScanFirst(f, i);
    CodesChain(f, i);
    var u := us[0];
    assert cs[1..] == StartCodes(f, u.body);
    ScanFirst(f, u.body);
    var next := if |cs| > 1 then cs[1].len else 0;
    assert TooShort(f, us, header, 0);
    if |cs| > 1 {
      assert us[1] == Unit(u.end, u.end + next, us[1].end);
      assert Chain(us[1..], u.end, |f|);
      forall q: nat | u.end <= q < u.end + next ensures g[q] == f[q] {
        assert us[1].start <= q < ClearEnd(us[1], header);
      }
    }
    forall q: nat | u.body <= q < ClearEnd(u, header) ensures g[q] == f[q] {
      assert us[0].start <= q < ClearEnd(us[0], header);
    }
    forall p: nat | u.body <= p < u.end ensures CodeLen(g, p) == 0 {
      GapIsEmpty(f, u.body, p);
      NoNewCode(f, g, u.body, ClearEnd(u, header), u.end, next, p);
    }
  }

  // ------------------------------------------------- a start code in the ciphertext is readable

  /** Some start code found by the scan spans `q`. */
  ghost predicate Spanned(cs: seq<Code>, q: nat) {
    exists k :: 0 <= k < |cs| && cs[k].at <= q < cs[k].at + cs[k].len
  }

  lemma SpannedTail(c: Code, cs: seq<Code>, q: nat)
    requires Spanned(cs, q)
    ensures Spanned([c] + cs, q)
  {
    var k :| 0 <= k < |cs| && cs[k].at <= q < cs[k].at + cs[k].len;
    assert ([c] + cs)[k + 1] == cs[k];
  }

  /** A code that begins inside another one does not reach past it. */
  lemma CodesNest(g: bytes, i: nat, p: nat, q: nat)
    requires i <= p < i + CodeLen(g, i) && CodeLen(g, p) > 0 && p <= q && (if Three(g, p) then q <= p + 2 else q == p)
    ensures q < i + CodeLen(g, i)
  {
  }

  lemma SpannedHead(g: bytes, i: nat, q: nat)
    requires i <= q < i + CodeLen(g, i)
    ensures Spanned(StartCodes(g, i), q)
  {
    assert StartCodes(g, i)[0] == Code(i, CodeLen(g, i));
  }

  /** The scan cannot step over a start code: every byte of a three-byte code, and the first byte of a
    * four-byte code, is inside some code it reports. */
  lemma {:induction false} ScanFinds(g: bytes, i: nat, p: nat, q: nat)
    requires i <= p && CodeLen(g, p) > 0 && p <= q && (if Three(g, p) then q <= p + 2 else q == p)
    ensures Spanned(StartCodes(g, i), q)
    decreases p - i
  {
    var len := CodeLen(g, i);
    if p < i + len {
      CodesNest(g, i, p, q);
      SpannedHead(g, i, q);
    } else if len > 0 {
      ScanFinds(g, i + len, p, q);
      SpannedTail(Code(i, len), StartCodes(g, i + len), q);
    } else {
      ScanFinds(g, i + 1, p, q);
    }
  }

  lemma {:induction false} SpanIsUnit(cs: seq<Code>, total: nat, header: nat, q: nat)
    requires cs != [] && Spanned(cs, q) && Chain(CodeUnits(cs, total), cs[0].at, total)
    ensures Covers(Clears(CodeUnits(cs, total), header), q)
    decreases |cs|
  {
    var us := CodeUnits(cs, total);
    var k :| 0 <= k < |cs| && cs[k].at <= q < cs[k].at + cs[k].len;
    CoversCons(Range(us[0].start, ClearEnd(us[0], header)), Clears(us[1..], header), q);
    if k > 0 {
      assert cs[1..][k - 1] == cs[k];
      assert us[1..] == CodeUnits(cs[1..], total);
      SpanIsUnit(cs[1..], total, header, q);
    }
  }

  lemma CodeIsReadable(g: bytes, header: nat, p: nat, q: nat)
    requires AnnexB(g).Some? && CodeLen(g, p) > 0 && p <= q && (if Three(g, p) then q <= p + 2 else q == p)
    ensures Covers(NalLayout(g, header).clear, q)
  {
    ScanFinds(g, 0, p, q);
    AnnexBChains(g);
    ScanFirst(g, 0);
    var us := AnnexB(g).value;
    UnitsOrdered(us, 0, |g|, header);
    MergeKeeps(Clears(us, header), |g|);
    SpanIsUnit(StartCodes(g, 0), |g|, header, q);
  }

  // ------------------------------------------------------------------------- breaking a long unit

  /** Overwrites the bytes from `a` up to `b` with zeros and a final one. */
  function Forge(f: bytes, a: nat, b: nat): (g: bytes)
    requires a <= b < |f|
  {
    seq(|f|, t requires 0 <= t < |f| => if a <= t < b then 0 else if t == b then 1 else f[t])
  }

  lemma {:induction false} ChainBounds(us: seq<Unit>, a: nat, total: nat, k: nat)
    requires Chain(us, a, total) && k < |us|
    ensures a <= us[k].start < us[k].body <= us[k].end <= total
    ensures k + 1 < |us| ==> us[k + 1].start == us[k].end
    decreases k
  {
    assert us[1..] != [] || |us| == 1;
    if k > 0 {
      assert us[1..][k - 1] == us[k];
      ChainBounds(us[1..], us[0].end, total, k - 1);
    } else if |us| > 1 {
      assert us[1..][0] == us[1];
    }
    ChainEnds(us, a, total);
  }

  lemma {:induction false} ChainEnds(us: seq<Unit>, a: nat, total: nat)
    requires Chain(us, a, total)
    ensures a <= total && (us != [] ==> us[0].end <= total)
    decreases |us|
  {
    if us != [] {
      ChainEnds(us[1..], us[0].end, total);
    }
  }

  lemma {:induction false} SecretCovers(us: seq<Unit>, header: nat, k: nat, p: nat)
    requires k < |us| && ClearEnd(us[k], header) <= p < us[k].end
    ensures Covers(Secrets(us, header), p)
    decreases k
  {
    var e := ClearEnd(us[0], header);
    if e < us[0].end {
      CoversCons(Range(e, us[0].end), Secrets(us[1..], header), p);
    } else {
      assert [] + Secrets(us[1..], header) == Secrets(us[1..], header);
    }
    if k > 0 {
      assert us[1..][k - 1] == us[k];
      SecretCovers(us[1..], header, k - 1, p);
    }
  }

  lemma SecretNotClear(us: seq<Unit>, header: nat, total: nat, k: nat, p: nat)
    requires Chain(us, 0, total) && k < |us| && ClearEnd(us[k], header) <= p < us[k].end
    ensures !Covers(FromUnits(us, header).clear, p) && p < total
  {
    SecretCovers(us, header, k, p);
    ChainBounds(us, 0, total, k);
    FromUnitsTiles(us, header, total);
  }

  /** Changing only secret bytes of unit `k` is a possible encryption. */
  lemma OnlySecret(f: bytes, g: bytes, us: seq<Unit>, header: nat, k: nat)
    requires Chain(us, 0, |f|) && k < |us| && |g| == |f|
    requires forall p: nat :: p < |f| && !(ClearEnd(us[k], header) <= p < us[k].end) ==> g[p] == f[p]
    ensures Reencrypted(f, g, FromUnits(us, header))
  {
    forall p: nat | p < |f| && Covers(FromUnits(us, header).clear, p) ensures g[p] == f[p] {
      if ClearEnd(us[k], header) <= p < us[k].end {
        SecretNotClear(us, header, |f|, k, p);
      }
    }
  }

  /** The start code at the front is readable, so the container is still recognised. */
  lemma StillAnnexB(f: bytes, g: bytes, header: nat)
    requires AnnexB(f).Some? && Reencrypted(f, g, FromUnits(AnnexB(f).value, header))
    ensures AnnexB(g).Some?
  {
    AnnexBChains(f);
    AnnexBChains(g);
    ScanFirst(f, 0);
    var us := AnnexB(f).value;
    ReencryptedSamePrefixes(us, f, g, header);
    ChainBounds(us, 0, |f|, 0);
    forall p: nat | p < CodeLen(f, 0) ensures g[p] == f[p] {
      assert us[0].start <= p < ClearEnd(us[0], header);
    }
  }

  /** A unit that is not too short has a ciphertext that changes the layout. */
  lemma BreakUnit(f: bytes, header: nat, k: nat) returns (g: bytes, w: nat)
    requires AnnexB(f).Some? && k < |AnnexB(f).value|
    requires var u := AnnexB(f).value[k]; u.body <= u.end <= |f| && !TooShort(f, AnnexB(f).value, header, k)
    ensures Misreads(f, NalLayout(f, header), g, NalLayout(g, header), w)
  {
    var us := AnnexB(f).value;
    AnnexBChains(f);
    ChainBounds(us, 0, |f|, k);
    var u := us[k];
    var cs := ClearEnd(u, header);
    var z := ZeroTail(f, u.body, cs);
    if u.end - cs + z >= 3 {
      var p := cs - z;
      g := Forge(f, cs, p + 2);
      OnlySecret(f, g, us, header, k);
      StillAnnexB(f, g, header);
      assert Three(g, p);
      NoCodeInBody(f, k, p);
      w := if g[p] != f[p] then p else if g[p + 1] != f[p + 1] then p + 1 else p + 2;
      CodeIsReadable(g, header, p, w);
    } else {
      g, w := f[u.end - 1 := 0], u.end - 1;
      OnlySecret(f, g, us, header, k);
      StillAnnexB(f, g, header);
      ShortCodeBehind(f, k);
      ChainBounds(us, 0, |f|, k + 1);
      NoCodeInBody(f, k, w);
      assert CodeLen(f, u.end) == 3;
      assert Four(g, w);
      CodeIsReadable(g, header, w, w);
    }
  }

  lemma NoCodeInBody(f: bytes, k: nat, p: nat)
    requires AnnexB(f).Some? && k < |AnnexB(f).value| && AnnexB(f).value[k].body <= p < AnnexB(f).value[k].end
    ensures CodeLen(f, p) == 0
  {
    ScanFirst(f, 0);
    EmptyBody(f, 0, k, p);
  }

  lemma {:induction false} EmptyBody(f: bytes, i: nat, k: nat, p: nat)
    requires CodeLen(f, i) > 0
    requires var us := CodeUnits(StartCodes(f, i), |f|); k < |us| && us[k].body <= p < us[k].end
    ensures CodeLen(f, p) == 0
    decreases k
  {
    var cs := StartCodes(f, i);
    ScanFirst(f, i);
    var next := i + CodeLen(f, i);
    assert cs[1..] == StartCodes(f, next);
    ScanFirst(f, next);
    if k == 0 {
      GapIsEmpty(f, next, p);
    } else {
      var j := cs[1].at;
      ScanSkips(f, next, j);
      assert CodeUnits(cs, |f|)[1..] == CodeUnits(StartCodes(f, j), |f|);
      EmptyBody(f, j, k - 1, p);
    }
  }

  lemma ShortCodeBehind(f: bytes, k: nat)
    requires AnnexB(f).Some? && k + 1 < |AnnexB(f).value|
    ensures var us := AnnexB(f).value;
      us[k + 1].body - us[k + 1].start == CodeLen(f, us[k + 1].start)
  {
    ScanFirst(f, 0);
    UnitLens(f, 0, k + 1);
  }

  lemma {:induction false} UnitLens(f: bytes, i: nat, k: nat)
    requires CodeLen(f, i) > 0 && k < |CodeUnits(StartCodes(f, i), |f|)|
    ensures var us := CodeUnits(StartCodes(f, i), |f|); us[k].body - us[k].start == CodeLen(f, us[k].start)
    decreases k
  {
    var cs := StartCodes(f, i);
    ScanFirst(f, i);
    if k > 0 {
      var next := i + CodeLen(f, i);
      assert cs[1..] == StartCodes(f, next);
      ScanFirst(f, next);
      var j := cs[1].at;
      ScanSkips(f, next, j);
      assert CodeUnits(cs, |f|)[1..] == CodeUnits(StartCodes(f, j), |f|);
      UnitLens(f, j, k - 1);
    }
  }

  // ------------------------------------------------------------------------------ all the codecs

  /** What a caller can check on a frame before encrypting it. */
  ghost predicate NalRigid(f: bytes, header: nat) {
    if AnnexB(f).Some? then Rigid(f, AnnexB(f).value, header)
    else LengthPrefixed(f).Some? || |f| < 3
  }

  lemma AnnexBStable(f: bytes, g: bytes, header: nat)
    requires AnnexB(f).Some? && Rigid(f, AnnexB(f).value, header) && Reencrypted(f, g, NalLayout(f, header))
    ensures NalLayout(g, header) == NalLayout(f, header)
  {
    AnnexBChains(f);
    ReencryptedSamePrefixes(AnnexB(f).value, f, g, header);
    RigidScan(f, g, 0, header);
  }

  lemma LengthPrefixedStable(f: bytes, g: bytes, header: nat)
    requires AnnexB(f) == None && LengthPrefixed(f).Some? && Reencrypted(f, g, NalLayout(f, header))
    ensures NalLayout(g, header) == NalLayout(f, header)
  {
    var us := LengthPrefixed(f).value;
    PrefixedChains(f, 0);
    ReencryptedSamePrefixes(us, f, g, header);
    PrefixedStable(f, g, 0, header);
    AnnexBChains(f);
    AnnexBChains(g);
    ChainBounds(us, 0, |f|, 0);
    forall p: nat | p < 4 ensures g[p] == f[p] {
      assert us[0].start <= p < ClearEnd(us[0], header);
    }
  }

  /** An unrecognised frame is all secret, and a ciphertext may look like Annex B. */
  lemma FallbackUnstable(f: bytes, header: nat) returns (g: bytes, w: nat)
    requires AnnexB(f) == None && LengthPrefixed(f) == None && |f| >= 3
    ensures Misreads(f, NalLayout(f, header), g, NalLayout(g, header), w)
  {
    g := Forge(f, 0, 2);
    assert Three(g, 0);
    AnnexBChains(f);
    AnnexBChains(g);
    w := if g[0] != f[0] then 0 else if g[1] != f[1] then 1 else 2;
    CodeIsReadable(g, header, 0, w);
    forall p: nat ensures !Covers(NalLayout(f, header).clear, p) {
      PrefixSecret(|f|, p);
    }
  }

  lemma NalStable(f: bytes, g: bytes, header: nat)
    requires NalRigid(f, header) && Reencrypted(f, g, NalLayout(f, header))
    ensures NalLayout(g, header) == NalLayout(f, header)
  {
    if AnnexB(f).Some? {
      AnnexBStable(f, g, header);
    } else if LengthPrefixed(f).Some? {
      LengthPrefixedStable(f, g, header);
    } else {
    }
  }

  lemma NalStableExactly(c: Codec, f: bytes, keyframe: bool, header: nat)
    requires (c == H264 && header == 1) || (c == H265 && header == 2)
    ensures Stable(c, f, keyframe) <==> NalRigid(f, header)
  {
    if NalRigid(f, header) {
      forall g | Reencrypted(f, g, LayoutOf(c, f, keyframe))
        ensures LayoutOf(c, g, keyframe) == LayoutOf(c, f, keyframe)
      {
        NalStable(f, g, header);
      }
    } else {
      var g, w := NalUnstable(f, header);
      assert Reencrypted(f, g, LayoutOf(c, f, keyframe)) && LayoutOf(c, g, keyframe) != LayoutOf(c, f, keyframe);
    }
  }

  lemma NalUnstable(f: bytes, header: nat) returns (g: bytes, w: nat)
    requires !NalRigid(f, header)
    ensures Misreads(f, NalLayout(f, header), g, NalLayout(g, header), w)
  {
    if AnnexB(f).Some? {
      var us := AnnexB(f).value;
      AnnexBChains(f);
      forall k | 0 <= k < |us| ensures us[k].body <= us[k].end <= |f| {
        ChainBounds(us, 0, |f|, k);
      }
      var k :| 0 <= k < |us| && !TooShort(f, us, header, k);
      g, w := BreakUnit(f, header, k);
    } else {
      g, w := FallbackUnstable(f, header);
    }
  }

  /** The frames whose geometry survives encryption, codec by codec. */
  ghost predicate KeepsGeometry(c: Codec, f: bytes) {
    match c
    case H264 => NalRigid(f, 1)
    case H265 => NalRigid(f, 2)
    case Av1 => Obus(f, 0).Some?
    case Vp8 => true
    case Vp9 => true
    case Opus => true
    case Generic => true
  }

  /** Exactly which frames keep their layout under every possible ciphertext. */
  lemma StableExactly(c: Codec, f: bytes, keyframe: bool)
    ensures Stable(c, f, keyframe) <==> KeepsGeometry(c, f)
  {
    match c
    case H264 => NalStableExactly(c, f, keyframe, 1);
    case H265 => NalStableExactly(c, f, keyframe, 2);
    case Av1 => Av1StableExactly(f, keyframe);
    case Vp8 => FixedStable(c, f, keyframe);
    case Vp9 => FixedStable(c, f, keyframe);
    case Opus => FixedStable(c, f, keyframe);
    case Generic => FixedStable(c, f, keyframe);
  }

  /** A frame whose geometry does not survive has a ciphertext in which a changed byte reads as clear. */
  lemma Misreading(c: Codec, f: bytes, keyframe: bool) returns (g: bytes, w: nat)
    requires !KeepsGeometry(c, f)
    ensures Misreads(f, LayoutOf(c, f, keyframe), g, LayoutOf(c, g, keyframe), w)
  {
    if c == Av1 {
      g, w := Av1Unstable(f);
    } else {
      g, w := NalUnstable(f, if c == H264 then 1 else 2);
    }
  }
}
