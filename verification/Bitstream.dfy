/** The bitstream parsers: H.264 and H.265 (Annex B and length-prefixed), AV1, VP8, VP9, Opus
  * (crates/cfr-media/src/codec). */
module Bitstream {
  import opened Base
  import opened Layout

  datatype Codec = H264 | H265 | Av1 | Vp8 | Vp9 | Opus | Generic

  // ----------------------------------------------------------------------- Annex B start codes

  predicate Three(f: bytes, p: nat) {
    p + 3 <= |f| && f[p] == 0 && f[p + 1] == 0 && f[p + 2] == 1
  }

  predicate Four(f: bytes, p: nat) {
    p + 4 <= |f| && f[p] == 0 && f[p + 1] == 0 && f[p + 2] == 0 && f[p + 3] == 1
  }

  /** The width of the start code at `p`, zero if there is none. */
  function CodeLen(f: bytes, p: nat): (n: nat) {
    if Three(f, p) then 3 else if Four(f, p) then 4 else 0
  }

  datatype Code = Code(at: nat, len: nat)

  /** The scan from `i`: a start code is consumed whole, any other byte is skipped. */
  function StartCodes(f: bytes, i: nat): (cs: seq<Code>)
    decreases if i <= |f| then |f| - i else 0
  {
    if i + 3 > |f| then []
    else if CodeLen(f, i) > 0 then [Code(i, CodeLen(f, i))] + StartCodes(f, i + CodeLen(f, i))
    else StartCodes(f, i + 1)
  }

  method FindStartCodes(f: bytes) returns (out: seq<Code>)
    ensures out == StartCodes(f, 0)
  {
    out := [];
    var i := 0;
    while i + 3 <= |f|
      invariant out + StartCodes(f, i) == StartCodes(f, 0)
      decreases |f| - i
    {
      if f[i] == 0 && f[i + 1] == 0 {
        if f[i + 2] == 1 {
          Pushed(out, Code(i, 3), StartCodes(f, i + 3));
          out := out + [Code(i, 3)];
          i := i + 3;
          continue;
        }
        if i + 4 <= |f| && f[i + 2] == 0 && f[i + 3] == 1 {
          Pushed(out, Code(i, 4), StartCodes(f, i + 4));
          out := out + [Code(i, 4)];
          i := i + 4;
          continue;
        }
      }
      i := i + 1;
    }
  }

  lemma Pushed(out: seq<Code>, c: Code, rest: seq<Code>)
    ensures out + ([c] + rest) == out + [c] + rest
  {
  }

  /** Each start code with the bytes up to the next one. */
  function CodeUnits(cs: seq<Code>, total: nat): (us: seq<Unit>) {
    if cs == [] then []
    else
      var end := if |cs| > 1 then cs[1].at else total;
      [Unit(cs[0].at, cs[0].at + cs[0].len, end)] + CodeUnits(cs[1..], total)
  }

  function AnnexB(f: bytes): (us: Option<seq<Unit>>) {
    var cs := StartCodes(f, 0);
    if cs == [] || cs[0].at != 0 then None else Some(CodeUnits(cs, |f|))
  }

  /** The first code found from `i`, if any, lies at or after `i`; from a code position it is that code. */
  lemma {:induction false} ScanFirst(f: bytes, i: nat)
    ensures StartCodes(f, i) != [] ==>
      i <= StartCodes(f, i)[0].at && CodeLen(f, StartCodes(f, i)[0].at) == StartCodes(f, i)[0].len > 0
    ensures CodeLen(f, i) > 0 <==> StartCodes(f, i) != [] && StartCodes(f, i)[0].at == i
    decreases if i <= |f| then |f| - i else 0
  {
    if i + 3 <= |f| && CodeLen(f, i) == 0 {
      ScanFirst(f, i + 1);
    }
  }

  lemma {:induction false} CodesChain(f: bytes, i: nat)
    requires CodeLen(f, i) > 0
    ensures Chain(CodeUnits(StartCodes(f, i), |f|), i, |f|)
    decreases if i <= |f| then |f| - i else 0
  {
    ScanFirst(f, i);
    var cs := StartCodes(f, i);
    var next := i + CodeLen(f, i);
    assert cs[1..] == StartCodes(f, next);
    ScanFirst(f, next);
    if |cs| > 1 {
      var j := cs[1].at;
      ScanSkips(f, next, j);
      CodesChain(f, j);
    }
  }

  /** The scan from `i` is the scan from its first hit. */
  lemma {:induction false} ScanSkips(f: bytes, i: nat, j: nat)
    requires StartCodes(f, i) != [] && StartCodes(f, i)[0].at == j
    ensures StartCodes(f, i) == StartCodes(f, j) && CodeLen(f, j) > 0
    decreases if i <= |f| then |f| - i else 0
  {
    ScanFirst(f, i);
    if i != j {
      ScanSkips(f, i + 1, j);
    }
  }

  lemma AnnexBChains(f: bytes)
    ensures AnnexB(f).Some? <==> CodeLen(f, 0) > 0
    ensures AnnexB(f).Some? ==> Chain(AnnexB(f).value, 0, |f|)
  {
    ScanFirst(f, 0);
    if CodeLen(f, 0) > 0 {
      CodesChain(f, 0);
    }
  }

  // --------------------------------------------------------------------------- length prefixes

  /** Units found so far, followed by what the rest of the parse gives. */
  ghost function Onto(out: seq<Unit>, rest: Option<seq<Unit>>): (us: Option<seq<Unit>>) {
    if rest == None then None else Some(out + rest.value)
  }

  lemma OntoNone(rest: Option<seq<Unit>>)
    ensures Onto([], rest) == rest
  {
    if rest.Some? {
      assert [] + rest.value == rest.value;
    }
  }

  lemma OntoOne(out: seq<Unit>, u: Unit, rest: Option<seq<Unit>>)
    ensures Onto(out, Onto([u], rest)) == Onto(out + [u], rest)
  {
    if rest.Some? {
      assert out + ([u] + rest.value) == out + [u] + rest.value;
    }
  }

  function Length32(f: bytes, i: nat): (n: nat)
    requires i + 4 <= |f|
  {
    ((f[i] as nat * 256 + f[i + 1] as nat) * 256 + f[i + 2] as nat) * 256 + f[i + 3] as nat
  }

  function Prefixed(f: bytes, i: nat): (us: Option<seq<Unit>>)
    decreases if i <= |f| then |f| - i else 0
  {
    if i >= |f| then Some([])
    else if i + 4 > |f| then None
    else
      var n := Length32(f, i);
      if n == 0 || i + 4 + n > |f| then None
      else match Prefixed(f, i + 4 + n)
        case None => None
        case Some(rest) => Some([Unit(i, i + 4, i + 4 + n)] + rest)
  }

  function LengthPrefixed(f: bytes): (us: Option<seq<Unit>>) {
    if f == [] then None else Prefixed(f, 0)
  }

  method FindLengthPrefixed(f: bytes) returns (us: Option<seq<Unit>>)
    ensures us == LengthPrefixed(f)
  {
    var out := [];
    var i := 0;
    OntoNone(Prefixed(f, 0));
    while i < |f|
      invariant i <= |f|
      invariant out == [] <==> i == 0
      invariant Prefixed(f, 0) == Onto(out, Prefixed(f, i))
      decreases |f| - i
    {
      if i + 4 > |f| {
        return None;
      }
      var n := Length32(f, i);
      if n == 0 || i + 4 + n > |f| {
        return None;
      }
      OntoOne(out, Unit(i, i + 4, i + 4 + n), Prefixed(f, i + 4 + n));
      out := out + [Unit(i, i + 4, i + 4 + n)];
      i := i + 4 + n;
    }
    if out == [] {
      return None;
    }
    assert out + [] == out;
    return Some(out);
  }

  lemma {:induction false} PrefixedChains(f: bytes, i: nat)
    requires i <= |f| && Prefixed(f, i).Some?
    ensures Chain(Prefixed(f, i).value, i, |f|)
    decreases |f| - i
  {
    if i < |f| {
      PrefixedChains(f, i + 4 + Length32(f, i));
    }
  }

  // --------------------------------------------------------------------------------------- AV1

  /** LEB128 from byte `i` of a field at `at`, least significant group first: value and width. */
  function Leb(f: bytes, at: nat, i: nat, scale: nat, value: nat): (r: Option<(nat, nat)>)
    decreases 8 - i
  {
    if i >= 8 || at + i >= |f| then None
    else
      var b := f[at + i] as nat;
      var v := value + (b % 128) * scale;
      if b < 128 then Some((v, i + 1)) else Leb(f, at, i + 1, scale * 128, v)
  }

  lemma LebStep(f: bytes, at: nat, i: nat, scale: nat, value: nat)
    requires i < 8
    ensures Leb(f, at, i, scale, value)
         == if at + i >= |f| then None
            else
              var b := f[at + i] as nat;
              var next := value + (b % 128) * scale;
              if b < 128 then Some((next, i + 1)) else Leb(f, at, i + 1, scale * 128, next)
  {
  }

  method ReadLeb(f: bytes, at: nat) returns (r: Option<(nat, nat)>)
    ensures r == Leb(f, at, 0, 1, 0)
  {
    var value, scale, i := 0, 1, 0;
    while i < 8
      invariant 0 <= i <= 8
      invariant Leb(f, at, i, scale, value) == Leb(f, at, 0, 1, 0)
    {
      LebStep(f, at, i, scale, value);
      if at + i >= |f| {
        return None;
      }
      var b := f[at + i] as nat;
      value := value + (b % 128) * scale;
      i := i + 1;
      if b < 128 {
        return Some((value, i));
      }
      scale := scale * 128;
    }
    return None;
  }

  /** One open bitstream unit at `pos`: header, optional extension byte, optional size field, payload. */
  function Obu(f: bytes, pos: nat): (u: Option<Unit>)
    requires pos < |f|
  {
    var header := f[pos] as nat;
    var meta := if (header / 4) % 2 == 1 then 2 else 1;
    if header >= 128 || pos + meta > |f| then None
    else if (header / 2) % 2 == 1 then
      match Leb(f, pos + meta, 0, 1, 0)
      case None => None
      case Some((len, width)) =>
        if pos + meta + width + len > |f| then None
        else Some(Unit(pos, pos + meta + width, pos + meta + width + len))
    else Some(Unit(pos, pos + meta, |f|))
  }

  lemma {:induction false} LebWidth(f: bytes, at: nat, i: nat, scale: nat, value: nat)
    requires i < 8
    ensures Leb(f, at, i, scale, value).Some? ==>
      Leb(f, at, i, scale, value).value.1 > i && at + Leb(f, at, i, scale, value).value.1 <= |f|
    decreases 8 - i
  {
    if at + i < |f| && f[at + i] as nat >= 128 && i < 7 {
      LebWidth(f, at, i + 1, scale * 128, value + (f[at + i] as nat % 128) * scale);
    }
  }

  lemma ObuBounds(f: bytes, pos: nat)
    requires pos < |f| && Obu(f, pos).Some?
    ensures var u := Obu(f, pos).value; u.start == pos < u.body <= u.end <= |f|
  {
    var meta := if (f[pos] as nat / 4) % 2 == 1 then 2 else 1;
    LebWidth(f, pos + meta, 0, 1, 0);
  }

  function Obus(f: bytes, pos: nat): (us: Option<seq<Unit>>)
    decreases if pos <= |f| then |f| - pos else 0
  {
    if pos >= |f| then Some([])
    else match Obu(f, pos)
      case None => None
      case Some(u) =>
        ObuBounds(f, pos);
        match Obus(f, u.end)
        case None => None
        case Some(rest) => Some([u] + rest)
  }

  function Av1Layout(f: bytes): (l: Layout) {
    match Obus(f, 0)
    case None => Prefix(0, |f|)
    case Some(us) => if us == [] then Prefix(0, |f|) else FromUnits(us, 0)
  }

  lemma {:induction false} ObusChain(f: bytes, pos: nat)
    requires pos <= |f| && Obus(f, pos).Some?
    ensures Chain(Obus(f, pos).value, pos, |f|)
    decreases |f| - pos
  {
    if pos < |f| {
      ObuBounds(f, pos);
      ObusChain(f, Obu(f, pos).value.end);
    }
  }

  method ReadObu(f: bytes, pos: nat) returns (u: Option<Unit>)
    requires pos < |f|
    ensures u == Obu(f, pos)
  {
    var header := f[pos] as nat;
    if header >= 128 {
      return None;
    }
    var meta := 1;
    if (header / 4) % 2 == 1 {
      meta := meta + 1;
    }
    if pos + meta > |f| {
      return None;
    }
    var payload: nat;
    if (header / 2) % 2 == 1 {
      var size := ReadLeb(f, pos + meta);
      if size == None {
        return None;
      }
      LebWidth(f, pos + meta, 0, 1, 0);
      meta := meta + size.value.1;
      payload := size.value.0;
    } else {
      payload := |f| - (pos + meta);
    }
    if pos + meta + payload > |f| {
      return None;
    }
    u := Some(Unit(pos, pos + meta, pos + meta + payload));
  }

  method WalkObus(f: bytes) returns (l: Layout)
    ensures l == Av1Layout(f)
  {
    var units := [];
    var pos := 0;
    OntoNone(Obus(f, 0));
    while pos < |f|
      invariant pos <= |f|
      invariant Obus(f, 0) == Onto(units, Obus(f, pos))
      decreases |f| - pos
    {
      var unit := ReadObu(f, pos);
      if unit == None {
        return Prefix(0, |f|);
      }
      OntoOne(units, unit.value, Obus(f, unit.value.end));
      units := units + [unit.value];
      pos := unit.value.end;
    }
    assert units + [] == units;
    if units == [] {
      return Prefix(0, |f|);
    }
    l := BuildLayout(units, 0);
  }

  // ------------------------------------------------------------------------------ all the codecs

  /** H.264 keeps one header byte per unit readable, H.265 two. */
  function NalLayout(f: bytes, header: nat): (l: Layout) {
    if AnnexB(f).Some? then FromUnits(AnnexB(f).value, header)
    else if LengthPrefixed(f).Some? then FromUnits(LengthPrefixed(f).value, header)
    else Prefix(0, |f|)
  }

  method LayoutWithHeader(f: bytes, header: nat) returns (l: Layout)
    ensures l == NalLayout(f, header)
  {
    if f == [] {
      return Layout([], []);
    }
    var codes := FindStartCodes(f);
    if codes != [] && codes[0].at == 0 {
      l := BuildLayout(CodeUnits(codes, |f|), header);
      return;
    }
    var units := FindLengthPrefixed(f);
    if units.Some? {
      l := BuildLayout(units.value, header);
      return;
    }
    return Prefix(0, |f|);
  }

  function Vp8Layout(f: bytes, keyframe: bool): (l: Layout) {
    Prefix(if keyframe && f != [] && f[0] as nat % 2 == 0 then 10 else 3, |f|)
  }

  function LayoutOf(c: Codec, f: bytes, keyframe: bool): (l: Layout) {
    match c
    case H264 => NalLayout(f, 1)
    case H265 => NalLayout(f, 2)
    case Av1 => Av1Layout(f)
    case Vp8 => Vp8Layout(f, keyframe)
    case Vp9 => Prefix(0, |f|)
    case Opus => Prefix(1, |f|)
    case Generic => Prefix(0, |f|)
  }

  lemma NalTiles(f: bytes, header: nat)
    ensures Tiles(NalLayout(f, header), |f|)
  {
    AnnexBChains(f);
    if AnnexB(f).Some? {
      FromUnitsTiles(AnnexB(f).value, header, |f|);
    } else if LengthPrefixed(f).Some? {
      PrefixedChains(f, 0);
      FromUnitsTiles(LengthPrefixed(f).value, header, |f|);
    } else {
      PrefixTiles(0, |f|);
    }
  }

  /** Every codec tiles every byte string: no gap leaves content readable, no overlap encrypts twice. */
  lemma EveryCodecTiles(c: Codec, f: bytes, keyframe: bool)
    ensures Tiles(LayoutOf(c, f, keyframe), |f|)
  {
    match c
    case H264 => NalTiles(f, 1);
    case H265 => NalTiles(f, 2);
    case Av1 =>
      PrefixTiles(0, |f|);
      if Obus(f, 0).Some? {
        ObusChain(f, 0);
        FromUnitsTiles(Obus(f, 0).value, 0, |f|);
      }
    case Vp8 =>
      PrefixTiles(10, |f|);
      PrefixTiles(3, |f|);
    case Vp9 => PrefixTiles(0, |f|);
    case Opus => PrefixTiles(1, |f|);
    case Generic => PrefixTiles(0, |f|);
  }
}
