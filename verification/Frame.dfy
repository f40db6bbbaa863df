/** Protected media frames (crates/cfr-media/src/frame.rs): trailer, gather and scatter, round trip. */
module Frame {
  import opened Base
  import opened Layout
  import opened Bitstream
  import opened Stability
  import BE = BigEndian

  // ------------------------------------------------------------------------- gather and scatter

  function Gather(f: bytes, rs: seq<Range>): (data: bytes)
    requires Ordered(rs, |f|)
  {
    if rs == [] then [] else f[rs[0].start..rs[0].end] + Gather(f, rs[1..])
  }

  function Size(rs: seq<Range>): (n: nat)
    requires forall i :: 0 <= i < |rs| ==> rs[i].start <= rs[i].end
  {
    if rs == [] then 0 else rs[0].end - rs[0].start + Size(rs[1..])
  }

  function Write(f: bytes, r: Range, data: bytes): (g: bytes)
    requires r.start < r.end <= |f| && |data| == r.end - r.start
    ensures |g| == |f|
  {
    f[..r.start] + data + f[r.end..]
  }

  /** Writes contiguous bytes back into the ranges. */
  function Scatter(f: bytes, rs: seq<Range>, data: bytes): (g: bytes)
    requires Ordered(rs, |f|) && |data| == Size(rs)
    ensures |g| == |f|
    decreases |rs|
  {
    if rs == [] then f
    else
      var n := rs[0].end - rs[0].start;
      Scatter(Write(f, rs[0], data[..n]), rs[1..], data[n..])
  }

  method ScatterInPlace(frame: array<byte>, rs: seq<Range>, data: bytes)
    requires Ordered(rs, frame.Length) && |data| == Size(rs)
    modifies frame
    ensures frame[..] == Scatter(old(frame[..]), rs, data)
  {
    var left, rest := rs, data;
    while left != []
      invariant Ordered(left, frame.Length) && |rest| == Size(left)
      invariant Scatter(frame[..], left, rest) == Scatter(old(frame[..]), rs, data)
      decreases |left|
    {
      var n := left[0].end - left[0].start;
      OverwriteRange(frame, left[0], rest[..n]);
      left, rest := left[1..], rest[n..];
    }
  }

  method OverwriteRange(frame: array<byte>, r: Range, part: bytes)
    requires r.start < r.end <= frame.Length && |part| == r.end - r.start
    modifies frame
    ensures frame[..] == Write(old(frame[..]), r, part)
  {
    for k := 0 to |part|
      invariant forall t :: 0 <= t < frame.Length ==>
        frame[t] == if r.start <= t < r.start + k then part[t - r.start] else old(frame[t])
    {
      frame[r.start + k] := part[k];
    }
  }

  lemma {:induction false} GatherSize(f: bytes, rs: seq<Range>)
    requires Ordered(rs, |f|)
    ensures |Gather(f, rs)| == Size(rs)
    decreases |rs|
  {
    if rs != [] {
      GatherSize(f, rs[1..]);
    }
  }

  /** Scattering touches nothing outside the ranges. */
  lemma {:induction false} ScatterFrame(f: bytes, rs: seq<Range>, data: bytes, p: nat)
    requires Ordered(rs, |f|) && |data| == Size(rs) && p < |f| && !Covers(rs, p)
    ensures Scatter(f, rs, data)[p] == f[p]
    decreases |rs|
  {
    if rs != [] {
      var n := rs[0].end - rs[0].start;
      CoversCons(rs[0], rs[1..], p);
      assert rs == [rs[0]] + rs[1..];
      ScatterFrame(Write(f, rs[0], data[..n]), rs[1..], data[n..], p);
    }
  }

  lemma {:induction false} GatherDepends(f: bytes, g: bytes, rs: seq<Range>)
    requires |f| == |g| && Ordered(rs, |f|) && forall p: nat :: p < |f| && Covers(rs, p) ==> f[p] == g[p]
    ensures Gather(f, rs) == Gather(g, rs)
    decreases |rs|
  {
    if rs != [] {
      var r := rs[0];
      forall p: nat | p < |f| && Within(r, p) ensures f[p] == g[p] {
        assert Within(rs[0], p);
      }
      assert f[r.start..r.end] == g[r.start..r.end];
      forall p: nat | p < |f| && Covers(rs[1..], p) ensures f[p] == g[p] {
        CoversCons(rs[0], rs[1..], p);
        assert rs == [rs[0]] + rs[1..];
      }
      GatherDepends(f, g, rs[1..]);
    }
  }

  lemma HeadUntouched(f: bytes, rs: seq<Range>, data: bytes)
    requires rs != [] && Ordered(rs, |f|) && |data| == Size(rs[1..])
    ensures Scatter(f, rs[1..], data)[rs[0].start..rs[0].end] == f[rs[0].start..rs[0].end]
  {
    var g := Scatter(f, rs[1..], data);
    assert forall i :: 0 <= i < |rs[1..]| ==> rs[1..][i] == rs[i + 1];
    forall p: nat | rs[0].start <= p < rs[0].end ensures g[p] == f[p] {
      ScatterFrame(f, rs[1..], data, p);
    }
  }

  lemma {:induction false} GatherScatter(f: bytes, rs: seq<Range>, data: bytes)
    requires Ordered(rs, |f|) && |data| == Size(rs)
    ensures Gather(Scatter(f, rs, data), rs) == data
    decreases |rs|
  {
    if rs != [] {
      var n := rs[0].end - rs[0].start;
      var w := Write(f, rs[0], data[..n]);
      HeadUntouched(w, rs, data[n..]);
      assert w[rs[0].start..rs[0].end] == data[..n];
      GatherScatter(w, rs[1..], data[n..]);
      assert data == data[..n] + data[n..];
    }
  }

  /** Writing back what was gathered restores the frame, whatever was scattered in between. */
  lemma ScatterBack(f: bytes, rs: seq<Range>, data: bytes)
    requires Ordered(rs, |f|) && |data| == Size(rs)
    ensures |Gather(f, rs)| == Size(rs) && Scatter(Scatter(f, rs, data), rs, Gather(f, rs)) == f
  {
    GatherSize(f, rs);
    var g := Scatter(Scatter(f, rs, data), rs, Gather(f, rs));
    forall p: nat | p < |f| ensures g[p] == f[p] {
      if Covers(rs, p) {
        GatherScatter(Scatter(f, rs, data), rs, Gather(f, rs));
        SamePoint(g, f, rs, p);
      } else {
        ScatterFrame(f, rs, data, p);
        ScatterFrame(Scatter(f, rs, data), rs, Gather(f, rs), p);
      }
    }
  }

  lemma {:induction false} SamePoint(f: bytes, g: bytes, rs: seq<Range>, p: nat)
    requires |f| == |g| && Ordered(rs, |f|) && Gather(f, rs) == Gather(g, rs) && p < |f| && Covers(rs, p)
    ensures f[p] == g[p]
    decreases |rs|
  {
    var r := rs[0];
    assert rs == [r] + rs[1..];
    CoversCons(r, rs[1..], p);
    var n := r.end - r.start;
    assert Gather(f, rs)[..n] == f[r.start..r.end] && Gather(g, rs)[..n] == g[r.start..r.end];
    assert Gather(f, rs)[n..] == Gather(f, rs[1..]) && Gather(g, rs)[n..] == Gather(g, rs[1..]);
    if Within(r, p) {
      assert f[p] == f[r.start..r.end][p - r.start] && g[p] == g[r.start..r.end][p - r.start];
    } else {
      SamePoint(f, g, rs[1..], p);
    }
  }

  // ------------------------------------------------------------------------------- the trailer

  const TRAILER_LEN: nat := 33

  datatype Trailer = Trailer(sender: nat, counter: nat, version: nat, codec: Codec, keyframe: bool)

  ghost predicate ValidTrailer(t: Trailer) {
    BE.Fits(t.sender, 8) && BE.Fits(t.counter, 8) && BE.Fits(t.version, 16)
  }

  function CodecId(c: Codec): (n: nat)
    ensures n < 7
  {
    match c
    case Generic => 0
    case H264 => 1
    case H265 => 2
    case Av1 => 3
    case Vp8 => 4
    case Vp9 => 5
    case Opus => 6
  }

  function CodecOf(n: nat): (c: Option<Codec>) {
    if n == 0 then Some(Generic) else if n == 1 then Some(H264) else if n == 2 then Some(H265)
    else if n == 3 then Some(Av1) else if n == 4 then Some(Vp8) else if n == 5 then Some(Vp9)
    else if n == 6 then Some(Opus) else None
  }

  function Flags(t: Trailer): (b: byte) {
    (128 + 2 * CodecId(t.codec) + (if t.keyframe then 1 else 0)) as byte
  }

  function EncodeTrailer(t: Trailer): (b: bytes)
    ensures |b| == TRAILER_LEN
  {
    BE.Encode(t.sender, 8) + BE.Encode(t.counter, 8) + BE.Encode(t.version, 16) + [Flags(t)]
  }

  function DecodeTrailer(b: bytes): (t: Option<Trailer>)
    requires |b| == TRAILER_LEN
  {
    var flags := b[32] as nat;
    if flags < 128 then None
    else match CodecOf((flags - 128) / 2)
      case None => None
      case Some(c) => Some(Trailer(BE.Decode(b[0..8]), BE.Decode(b[8..16]), BE.Decode(b[16..32]), c, flags % 2 == 1))
  }

  /** The trailer survives the wire, and every accepted trailer is what the encoder writes. */
  lemma TrailerRoundTrip(t: Trailer)
    requires ValidTrailer(t)
    ensures DecodeTrailer(EncodeTrailer(t)) == Some(t)
  {
    var b := EncodeTrailer(t);
    assert b[0..8] == BE.Encode(t.sender, 8) && b[8..16] == BE.Encode(t.counter, 8);
    assert b[16..32] == BE.Encode(t.version, 16);
    BE.DecodeEncode(t.sender, 8);
    BE.DecodeEncode(t.counter, 8);
    BE.DecodeEncode(t.version, 16);
  }

  lemma TrailerCanonical(b: bytes)
    requires |b| == TRAILER_LEN && DecodeTrailer(b).Some?
    ensures ValidTrailer(DecodeTrailer(b).value) && EncodeTrailer(DecodeTrailer(b).value) == b
  {
    BE.EncodeDecode(b[0..8]);
    BE.EncodeDecode(b[8..16]);
    BE.EncodeDecode(b[16..32]);
    assert b == b[0..8] + b[8..16] + b[16..32] + [b[32]];
  }

  // ------------------------------------------------------------------------- sealing one frame

  /** An authenticated cipher over keys of type `K`; the trailer stands for the nonce derived from it. */
  datatype Aead<!K> = Aead(
    seal: (K, Trailer, bytes, bytes) -> (bytes, bytes),
    open: (K, Trailer, bytes, bytes, bytes) -> Option<bytes>)

  function TagLen(c: Codec): (n: nat) {
    if c == Opus then 16 else 32
  }

  /** Length preserving, with the codec's tag width, and opening what was sealed. */
  ghost predicate Lawful<K(!new)>(a: Aead<K>) {
    forall k, t, m, ad ::
      var (ct, tag) := a.seal(k, t, m, ad);
      |ct| == |m| && |tag| == TagLen(t.codec) && a.open(k, t, ct, tag, ad) == Some(m)
  }

  /** Trailer followed by every readable range. */
  function Associated(t: Trailer, f: bytes, l: Layout): (ad: bytes)
    requires Ordered(l.clear, |f|)
  {
    EncodeTrailer(t) + Gather(f, l.clear)
  }

  function Protect<K(!new)>(a: Aead<K>, k: K, t: Trailer, f: bytes): (packet: bytes)
    requires Lawful(a)
  {
    var l := LayoutOf(t.codec, f, t.keyframe);
    EveryCodecTiles(t.codec, f, t.keyframe);
    GatherSize(f, l.secret);
    var (ct, tag) := a.seal(k, t, Gather(f, l.secret), Associated(t, f, l));
    Scatter(f, l.secret, ct) + tag + EncodeTrailer(t)
  }

  datatype Parsed = Parsed(t: Trailer, body: bytes, tag: bytes)

  function Parse(packet: bytes): (p: Option<Parsed>) {
    if |packet| < TRAILER_LEN then None
    else match DecodeTrailer(packet[|packet| - TRAILER_LEN..])
      case None => None
      case Some(t) =>
        var rest := packet[..|packet| - TRAILER_LEN];
        if |rest| < TagLen(t.codec) then None
        else Some(Parsed(t, rest[..|rest| - TagLen(t.codec)], rest[|rest| - TagLen(t.codec)..]))
  }

  function Unprotect<K(!new)>(a: Aead<K>, k: K, p: Parsed): (f: Option<bytes>)
    requires Lawful(a)
  {
    var l := LayoutOf(p.t.codec, p.body, p.t.keyframe);
    EveryCodecTiles(p.t.codec, p.body, p.t.keyframe);
    match a.open(k, p.t, Gather(p.body, l.secret), p.tag, Associated(p.t, p.body, l))
    case None => None
    case Some(content) => if |content| != Size(l.secret) then None else Some(Scatter(p.body, l.secret, content))
  }

  lemma ProtectedParses<K(!new)>(a: Aead<K>, k: K, t: Trailer, f: bytes)
    requires Lawful(a) && ValidTrailer(t)
    ensures Parse(Protect(a, k, t, f)).Some?
    ensures var p := Parse(Protect(a, k, t, f)).value;
      && p.t == t && Reencrypted(f, p.body, LayoutOf(t.codec, f, t.keyframe))
      && (LayoutOf(t.codec, p.body, t.keyframe) == LayoutOf(t.codec, f, t.keyframe) ==> Unprotect(a, k, p) == Some(f))
  {
    var l := LayoutOf(t.codec, f, t.keyframe);
    EveryCodecTiles(t.codec, f, t.keyframe);
    GatherSize(f, l.secret);
    var (ct, tag) := a.seal(k, t, Gather(f, l.secret), Associated(t, f, l));
    var body := Scatter(f, l.secret, ct);
    TrailerRoundTrip(t);
    ParseSplits(body, tag, t);
    assert Protect(a, k, t, f) == body + tag + EncodeTrailer(t);
    forall p: nat | p < |f| && Covers(l.clear, p) ensures body[p] == f[p] {
      ScatterFrame(f, l.secret, ct, p);
    }
    GatherScatter(f, l.secret, ct);
    GatherDepends(f, body, l.clear);
    ScatterBack(f, l.secret, ct);
  }

  lemma ParseSplits(body: bytes, tag: bytes, t: Trailer)
    requires ValidTrailer(t) && |tag| == TagLen(t.codec)
    ensures Parse(body + tag + EncodeTrailer(t)) == Some(Parsed(t, body, tag))
  {
    var packet := body + tag + EncodeTrailer(t);
    TrailerRoundTrip(t);
    assert packet[|packet| - TRAILER_LEN..] == EncodeTrailer(t);
    var rest := packet[..|packet| - TRAILER_LEN];
    assert rest == body + tag;
    assert rest[..|rest| - TagLen(t.codec)] == body && rest[|rest| - TagLen(t.codec)..] == tag;
  }

  /** A protected frame opens to the original bytes for every frame whose geometry survives encryption. */
  lemma FrameRoundTrip<K(!new)>(a: Aead<K>, k: K, t: Trailer, f: bytes)
    requires Lawful(a) && ValidTrailer(t) && KeepsGeometry(t.codec, f)
    ensures Parse(Protect(a, k, t, f)).Some?
    ensures Unprotect(a, k, Parse(Protect(a, k, t, f)).value) == Some(f)
  {
    ProtectedParses(a, k, t, f);
    StableExactly(t.codec, f, t.keyframe);
  }

  // ------------------------------------------------------------- exactly when a frame round-trips

  lemma ScatterOther(f: bytes, g: bytes, rs: seq<Range>)
    requires |g| == |f| && Ordered(rs, |f|) && forall p: nat :: p < |f| && !Covers(rs, p) ==> g[p] == f[p]
    ensures |Gather(g, rs)| == Size(rs) && Scatter(f, rs, Gather(g, rs)) == g
  {
    GatherSize(g, rs);
    var h := Scatter(f, rs, Gather(g, rs));
    GatherScatter(f, rs, Gather(g, rs));
    forall p: nat | p < |f| ensures h[p] == g[p] {
      if Covers(rs, p) {
        SamePoint(h, g, rs, p);
      } else {
        ScatterFrame(f, rs, Gather(g, rs), p);
      }
    }
  }

  function Swap(a: bytes, b: bytes, m: bytes): (x: bytes) {
    if m == a then b else if m == b then a else m
  }

  /** A lawful cipher that happens to turn the content of `f` into that of `g`. */
  function Unlucky(a: bytes, b: bytes): (c: Aead<nat>) {
    Aead((k, t: Trailer, m, ad) => (Swap(a, b, m), seq(TagLen(t.codec), _ => 0 as byte)),
         (k, t, ct, tag, ad) => Some(Swap(a, b, ct)))
  }

  /** For a frame whose geometry does not survive, some lawful cipher makes the receiver misplace the
    * boundary and lose the frame. */
  lemma FrameMisread(t: Trailer, f: bytes) returns (a: Aead<nat>)
    requires ValidTrailer(t) && !KeepsGeometry(t.codec, f)
    ensures Lawful(a) && Parse(Protect(a, 0, t, f)).Some?
    ensures Unprotect(a, 0, Parse(Protect(a, 0, t, f)).value) != Some(f)
  {
    var g, w := Misreading(t.codec, f, t.keyframe);
    var l := LayoutOf(t.codec, f, t.keyframe);
    EveryCodecTiles(t.codec, f, t.keyframe);
    ScatterOther(f, g, l.secret);
    GatherSize(f, l.secret);
    a := Unlucky(Gather(f, l.secret), Gather(g, l.secret));
    UnluckyIsLawful(Gather(f, l.secret), Gather(g, l.secret));
    var tag := seq(TagLen(t.codec), _ => 0 as byte);
    assert Protect(a, 0, t, f) == g + tag + EncodeTrailer(t);
    ParseSplits(g, tag, t);
    LeftAlone(a, Parsed(t, g, tag), w);
  }

  lemma UnluckyIsLawful(a: bytes, b: bytes)
    requires |a| == |b|
    ensures Lawful(Unlucky(a, b))
  {
  }

  /** A byte the receiver takes for readable is not restored. */
  lemma LeftAlone(a: Aead<nat>, p: Parsed, w: nat)
    requires Lawful(a) && w < |p.body| && Covers(LayoutOf(p.t.codec, p.body, p.t.keyframe).clear, w)
    ensures Unprotect(a, 0, p).Some? ==>
      |Unprotect(a, 0, p).value| == |p.body| && Unprotect(a, 0, p).value[w] == p.body[w]
  {
    var l := LayoutOf(p.t.codec, p.body, p.t.keyframe);
    EveryCodecTiles(p.t.codec, p.body, p.t.keyframe);
    if Unprotect(a, 0, p).Some? {
      var content := a.open(0, p.t, Gather(p.body, l.secret), p.tag, Associated(p.t, p.body, l)).value;
      ScatterFrame(p.body, l.secret, content, w);
    }
  }

  ghost predicate AlwaysOpens(t: Trailer, f: bytes) {
    forall a: Aead<nat>, k: nat :: Lawful(a) ==>
      Parse(Protect(a, k, t, f)).Some? && Unprotect(a, k, Parse(Protect(a, k, t, f)).value) == Some(f)
  }

  /** A frame round-trips under every lawful cipher exactly when its geometry survives encryption. */
  lemma RoundTripExactly(t: Trailer, f: bytes)
    requires ValidTrailer(t)
    ensures AlwaysOpens(t, f) <==> KeepsGeometry(t.codec, f)
  {
    if KeepsGeometry(t.codec, f) {
      forall a: Aead<nat>, k: nat | Lawful(a)
        ensures Parse(Protect(a, k, t, f)).Some? && Unprotect(a, k, Parse(Protect(a, k, t, f)).value) == Some(f)
      {
        FrameRoundTrip(a, k, t, f);
      }
    } else {
      var a := FrameMisread(t, f);
    }
  }
}
