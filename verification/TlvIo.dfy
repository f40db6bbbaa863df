/** The writer and reader objects of the TLV codec (crates/cfr-core/src/codec.rs). */
module TlvIo {
  import opened Base
  import opened Coders
  import opened Tlv
  import BE = BigEndian

  // ------------------------------------------------------------------------- ordering of images

  lemma {:induction false} LessTotal(a: bytes, b: bytes)
    ensures BE.Less(a, b) || a == b || BE.Less(b, a)
  {
    if a != [] && b != [] {
      LessTotal(a[1..], b[1..]);
      if a[0] == b[0] && a[1..] == b[1..] {
        assert a == [a[0]] + a[1..] && b == [b[0]] + b[1..];
      }
    }
  }

  lemma {:induction false} LessTrans(a: bytes, b: bytes, c: bytes)
    requires BE.Less(a, b) && BE.Less(b, c)
    ensures BE.Less(a, c)
  {
    if a != [] && a[0] == b[0] && b[0] == c[0] {
      LessTrans(a[1..], b[1..], c[1..]);
    }
  }

  lemma {:induction false} LessIrreflexive(a: bytes)
    ensures !BE.Less(a, a)
  {
    if a != [] {
      LessIrreflexive(a[1..]);
    }
  }

  lemma {:induction false} RisingFirst(r: seq<bytes>, i: nat)
    requires Rising(r) && 0 < i < |r|
    ensures BE.Less(r[0], r[i])
  {
    if i > 1 {
      RisingFirst(r, i - 1);
      LessTrans(r[0], r[i - 1], r[i]);
    }
  }

  lemma FirstIsLeast(r: seq<bytes>, x: bytes)
    requires Rising(r) && x in r
    ensures x == r[0] || BE.Less(r[0], x)
  {
    var i :| 0 <= i < |r| && r[i] == x;
    if i > 0 {
      RisingFirst(r, i);
    }
  }

  lemma TailElements(r: seq<bytes>, x: bytes)
    requires Rising(r) && r != []
    ensures x in r[1..] <==> x in r && x != r[0]
  {
    if i :| 0 < i < |r| && r[i] == x {
      RisingFirst(r, i);
      LessIrreflexive(x);
      assert r[1..][i - 1] == x;
    }
  }

  /** A rising listing is determined by its elements. */
  lemma {:induction false} RisingUnique(r: seq<bytes>, q: seq<bytes>)
    requires Rising(r) && Rising(q) && forall x :: x in r <==> x in q
    ensures r == q
  {
    if r == [] {
      assert forall i :: 0 <= i < |q| ==> q[i] in r;
    } else {
      assert r[0] in q;
      SameFirst(r, q);
      forall x ensures x in r[1..] <==> x in q[1..] {
        TailElements(r, x);
        TailElements(q, x);
      }
      RisingUnique(r[1..], q[1..]);
      assert r == [r[0]] + r[1..] && q == [q[0]] + q[1..];
    }
  }

  lemma SameFirst(r: seq<bytes>, q: seq<bytes>)
    requires Rising(r) && Rising(q) && r != [] && q != [] && r[0] in q && q[0] in r
    ensures r[0] == q[0]
  {
    FirstIsLeast(q, r[0]);
    FirstIsLeast(r, q[0]);
    if r[0] != q[0] {
      LessTrans(r[0], q[0], r[0]);
      LessIrreflexive(r[0]);
    }
  }

  /** Inserts an image into a rising listing, once. */
  method Insert(r: seq<bytes>, x: bytes) returns (q: seq<bytes>)
    requires Rising(r)
    ensures Rising(q) && forall y :: y in q <==> y in r || y == x
  {
    var i := 0;
    while i < |r| && BE.Less(r[i], x)
      invariant 0 <= i <= |r|
      invariant i > 0 ==> BE.Less(r[i - 1], x)
    {
      i := i + 1;
    }
    if i < |r| && r[i] == x {
      return r;
    }
    if i < |r| {
      LessTotal(r[i], x);
    }
    q := r[..i] + [x] + r[i..];
    assert q[i] == x;
    assert r == r[..i] + r[i..];
  }

  /** Sorting by image and dropping duplicates. */
  method SortUnique(images: seq<bytes>) returns (r: seq<bytes>)
    ensures Rising(r) && forall y :: y in r <==> y in images
  {
    r := [];
    for i := 0 to |images|
      invariant Rising(r) && forall y :: y in r <==> y in images[..i]
    {
      r := Insert(r, images[i]);
      TakeOne(images, i);
    }
    TakeAll(images);
  }

  function Concat(images: seq<bytes>): (b: bytes) {
    if images == [] then [] else images[0] + Concat(images[1..])
  }

  lemma {:induction false} ConcatPush(images: seq<bytes>, x: bytes)
    ensures Concat(images + [x]) == Concat(images) + x
  {
    if images == [] {
      assert images + [x] == [x];
    } else {
      assert (images + [x])[1..] == images[1..] + [x];
      ConcatPush(images[1..], x);
    }
  }

  lemma {:induction false} ConcatIsEncAll<T>(c: Coder<T>, xs: seq<T>)
    ensures Concat(Images(c, xs)) == EncAll(c, xs)
  {
    if xs != [] {
      assert Images(c, xs)[1..] == Images(c, xs[1..]);
      ConcatIsEncAll(c, xs[1..]);
    }
  }

  // -------------------------------------------------------------------------------------- writer

  class Writer {
    var buf: bytes

    constructor ()
      ensures buf == []
    {
      buf := [];
    }

    method Bytes(v: bytes)
      requires |v| <= MAX_U32
      modifies this
      ensures buf == old(buf) + Field().enc(v)
    {
      buf := buf + [T_BYTES as byte];
      buf := buf + BE.Encode(|v|, 4);
      buf := buf + v;
    }

    method Int(n: nat)
      requires n <= MAX_U64
      modifies this
      ensures buf == old(buf) + U64().enc(n)
    {
      buf := buf + [T_U64 as byte];
      buf := buf + BE.Encode(n, 8);
    }

    /** Tag, count and images one after the other. */
    method Collection(tag: nat, images: seq<bytes>)
      requires tag < 256
      modifies this
      ensures buf == old(buf) + Framed(tag, images)
    {
      buf := buf + [tag as byte];
      buf := buf + BE.Encode(|images|, 4);
      ghost var head := buf;
      for i := 0 to |images|
        invariant buf == head + Concat(images[..i])
      {
        TakeOne(images, i);
        ConcatPush(images[..i], images[i]);
        buf := buf + images[i];
      }
      TakeAll(images);
    }

    /** A list of elements already turned into images by the caller's closure. */
    method ListOf<T>(c: Coder<T>, xs: seq<T>, images: seq<bytes>)
      requires images == Images(c, xs) && |xs| <= MAX_U32
      modifies this
      ensures buf == old(buf) + List(c).enc(xs)
    {
      ListFramed(c, xs);
      Collection(T_LIST, images);
    }

    /** The bytes depend only on which identifiers are listed, not on their order or repetition. */
    method SetOfIds(ids: seq<nat>)
      requires AllFit(ids) && |ids| <= MAX_U32
      modifies this
      ensures buf == old(buf) + IdSet().enc(SetFrom(ids))
    {
      var images := ImagesOf(ids);
      var sorted := SortUnique(images);
      SortedIsAscending(ids, sorted);
      SetFramed(SetFrom(ids));
      Collection(T_SET, sorted);
    }
  }

  method ImagesOf(ids: seq<nat>) returns (images: seq<bytes>)
    ensures images == Images(Array(32), ids)
  {
    images := [];
    for i := 0 to |ids|
      invariant |images| == i && forall k :: 0 <= k < i ==> images[k] == Array(32).enc(ids[k])
    {
      var w := new Writer();
      w.Bytes(BE.Encode(ids[i], 32));
      images := images + [w.buf];
    }
  }

  function Framed(tag: nat, images: seq<bytes>): (b: bytes)
    requires tag < 256
  {
    [tag as byte] + BE.Encode(|images|, 4) + Concat(images)
  }

  lemma CountedFramed<T>(c: Coder<T>, limit: nat, xs: seq<T>)
    ensures Counted(c, limit).enc(xs) == BE.Encode(|xs|, 4) + Concat(Images(c, xs))
  {
    ConcatIsEncAll(c, xs);
  }

  lemma ListFramed<T>(c: Coder<T>, xs: seq<T>)
    ensures List(c).enc(xs) == Framed(T_LIST, Images(c, xs))
  {
    CountedFramed(c, MAX_ITEMS, xs);
  }

  lemma SetOfFramed<T>(c: Coder<T>, xs: seq<T>)
    ensures SetOf(c).enc(xs) == Framed(T_SET, Images(c, xs))
  {
    CountedFramed(c, MAX_ITEMS, xs);
  }

  lemma SetFramed(s: set<nat>)
    ensures IdSet().enc(s) == Framed(T_SET, Images(Array(32), Ascending(s)))
  {
    SetOfFramed(Array(32), Ascending(s));
  }

  lemma SameImages<T>(c: Coder<T>, ids: seq<T>, xs: seq<T>)
    requires forall x :: x in xs <==> x in ids
    ensures forall y :: y in Images(c, xs) <==> y in Images(c, ids)
  {
    ImagesWithin(c, ids, xs);
    ImagesWithin(c, xs, ids);
  }

  lemma ImagesWithin<T>(c: Coder<T>, ids: seq<T>, xs: seq<T>)
    requires forall x :: x in xs ==> x in ids
    ensures forall y :: y in Images(c, xs) ==> y in Images(c, ids)
  {
    forall y | y in Images(c, xs) ensures y in Images(c, ids) {
      var i :| 0 <= i < |xs| && Images(c, xs)[i] == y;
      assert xs[i] in ids;
      var k :| 0 <= k < |ids| && ids[k] == xs[i];
      assert Images(c, ids)[k] == y;
    }
  }

  lemma SortedFrom<T>(c: Coder<T>, ids: seq<T>, xs: seq<T>, sorted: seq<bytes>)
    requires Rising(sorted) && forall y :: y in sorted <==> y in Images(c, ids)
    requires Rising(Images(c, xs)) && forall x :: x in xs <==> x in ids
    ensures sorted == Images(c, xs)
  {
    SameImages(c, ids, xs);
    RisingUnique(sorted, Images(c, xs));
  }

  lemma AscendingWithin(ids: seq<nat>, p: nat -> bool)
    requires forall i :: 0 <= i < |ids| ==> p(ids[i])
    ensures forall i :: 0 <= i < |Ascending(SetFrom(ids))| ==> p(Ascending(SetFrom(ids))[i])
  {
    var xs := Ascending(SetFrom(ids));
    forall i | 0 <= i < |xs| ensures p(xs[i]) {
      assert xs[i] in SetFrom(ids);
    }
  }

  lemma SortedIsAscending(ids: seq<nat>, sorted: seq<bytes>)
    requires AllFit(ids) && Rising(sorted) && forall y :: y in sorted <==> y in Images(Array(32), ids)
    ensures sorted == Images(Array(32), Ascending(SetFrom(ids)))
  {
    AscendingWithin(ids, (n: nat) => BE.Fits(n, 32));
    RisingIsAscending(Ascending(SetFrom(ids)));
    SortedFrom(Array(32), ids, Ascending(SetFrom(ids)), sorted);
  }

  // -------------------------------------------------------------------------------------- reader

  /** The reader returned what the parser finds, and stands where the parser stops. */
  ghost predicate Did<T>(d: Option<(T, bytes)>, r: Option<T>, rest: bytes) {
    match d
    case None => r == None
    case Some((v, t)) => r == Some(v) && rest == t
  }

  class Reader {
    const buf: bytes
    var pos: nat

    ghost predicate Valid()
      reads this
    {
      pos <= |buf|
    }

    function Rest(): (b: bytes)
      requires Valid()
      reads this
    {
      buf[pos..]
    }

    constructor (buf: bytes)
      ensures Valid() && Rest() == buf
    {
      this.buf, pos := buf, 0;
    }

    method Finish() returns (ok: bool)
      requires Valid()
      ensures ok <==> Rest() == []
    {
      ok := pos == |buf|;
    }

    method Take(n: nat) returns (r: Option<bytes>)
      requires Valid()
      modifies this
      ensures Valid() && Did(TakeRaw(n, old(Rest())), r, Rest())
    {
      if |buf| - pos < n {
        return None;
      }
      assert buf[pos..][..n] == buf[pos..pos + n] && buf[pos..][n..] == buf[pos + n..];
      r := Some(buf[pos..pos + n]);
      pos := pos + n;
    }

    method Fixed(w: nat) returns (r: Option<nat>)
      requires Valid()
      modifies this
      ensures Valid() && Did(Number(w).dec(old(Rest())), r, Rest())
    {
      var raw := Take(w);
      r := if raw.Some? then Some(BE.Decode(raw.value)) else None;
    }

    /** The type tag. */
    method Expect(want: nat) returns (ok: bool)
      requires Valid() && want < 256
      modifies this
      ensures Valid()
      ensures Did(Where(Number(1), (n: nat) => n == want).dec(old(Rest())), if ok then Some(want) else None, Rest())
    {
      var got := Fixed(1);
      ok := got == Some(want);
    }

    method Len32(limit: nat) returns (r: Option<nat>)
      requires Valid()
      modifies this
      ensures Valid() && Did(Limited(limit).dec(old(Rest())), r, Rest())
    {
      var n := Fixed(4);
      r := if n.Some? && n.value <= limit then n else None;
    }

    method Bytes() returns (r: Option<bytes>)
      requires Valid()
      modifies this
      ensures Valid() && Did(Field().dec(old(Rest())), r, Rest())
    {
      var ok := Expect(T_BYTES);
      if !ok {
        return None;
      }
      var n := Len32(MAX_FIELD);
      if n == None {
        return None;
      }
      r := Take(n.value);
    }

    method Int() returns (r: Option<nat>)
      requires Valid()
      modifies this
      ensures Valid() && Did(U64().dec(old(Rest())), r, Rest())
    {
      var ok := Expect(T_U64);
      if !ok {
        return None;
      }
      r := Fixed(8);
    }

    method Int32() returns (r: Option<nat>)
      requires Valid()
      modifies this
      ensures Valid() && Did(U32().dec(old(Rest())), r, Rest())
    {
      var n := Int();
      r := if n.Some? && n.value <= MAX_U32 then n else None;
    }

    /** A byte string of exactly `w` bytes. */
    method Exactly(w: nat) returns (r: Option<nat>)
      requires Valid()
      modifies this
      ensures Valid() && Did(Array(w).dec(old(Rest())), r, Rest())
    {
      var v := Bytes();
      r := if v.Some? && |v.value| == w then Some(BE.Decode(v.value)) else None;
    }

    /** Runs an element parser at the current position. */
    method One<T(!new)>(c: Coder<T>) returns (r: Option<T>)
      requires Valid() && Canonical(c)
      modifies this
      ensures Valid() && Did(c.dec(old(Rest())), r, Rest())
    {
      match c.dec(Rest())
      case None => r := None;
      case Some((x, t)) =>
        assert Parses(c, Rest());
        assert Rest()[|c.enc(x)|..] == t;
        r := Some(x);
        pos := |buf| - |t|;
    }

    method Items<T(!new)>(c: Coder<T>, n: nat) returns (r: Option<seq<T>>)
      requires Valid() && Canonical(c)
      modifies this
      ensures Valid() && Did(DecMany(c, n, old(Rest())), r, Rest())
    {
      var out: seq<T> := [];
      PrependNone(DecMany(c, n, Rest()));
      for i := 0 to n
        invariant Valid() && DecMany(c, n, old(Rest())) == Prepend(out, DecMany(c, n - i, Rest()))
      {
        ghost var b := Rest();
        var x := One(c);
        if x == None {
          return None;
        }
        PrependStep(c, n - i, b, out);
        out := out + [x.value];
      }
      assert out + [] == out;
      r := Some(out);
    }

    method ListOf<T(!new)>(c: Coder<T>) returns (r: Option<seq<T>>)
      requires Valid() && Canonical(c)
      modifies this
      ensures Valid() && Did(List(c).dec(old(Rest())), r, Rest())
    {
      var ok := Expect(T_LIST);
      if !ok {
        return None;
      }
      var n := Len32(MAX_ITEMS);
      if n == None {
        return None;
      }
      r := Items(c, n.value);
    }

    /** Reads items, refusing as soon as an image does not rise above the one before it. */
    method RisingItems<T(!new)>(c: Coder<T>, n: nat) returns (r: Option<seq<T>>)
      requires Valid() && Canonical(c)
      modifies this
      ensures Valid() && Did(RisingMany(c, n, old(Rest())), r, Rest())
    {
      var out: seq<T> := [];
      var prev: Option<bytes> := None;
      PrependNone(DecMany(c, n, Rest()));
      for i := 0 to n
        invariant Valid() && DecMany(c, n, old(Rest())) == Prepend(out, DecMany(c, n - i, Rest()))
        invariant |out| == i && Rising(Images(c, out))
        invariant prev == if out == [] then None else Some(c.enc(out[i - 1]))
      {
        var start := pos;
        ghost var b := Rest();
        var x := One(c);
        if x == None {
          return None;
        }
        PrependStep(c, n - i, b, out);
        assert Parses(c, b);
        var image := buf[start..pos];
        ImageRead(b, c.enc(x.value), Rest(), buf, start, pos);
        if prev.Some? && !BE.Less(prev.value, image) {
          NotRising(c, out, x.value, DecMany(c, n - i - 1, Rest()));
          return None;
        }
        RisingPush(c, out, x.value);
        prev := Some(image);
        out := out + [x.value];
      }
      assert out + [] == out;
      r := Some(out);
    }

    method SetItems<T(!new)>(c: Coder<T>) returns (r: Option<seq<T>>)
      requires Valid() && Canonical(c)
      modifies this
      ensures Valid() && Did(SetOf(c).dec(old(Rest())), r, Rest())
    {
      var ok := Expect(T_SET);
      if !ok {
        return None;
      }
      var n := Len32(MAX_ITEMS);
      if n == None {
        return None;
      }
      r := RisingItems(c, n.value);
    }
  }

  function Prepend<T>(xs: seq<T>, d: Option<(seq<T>, bytes)>): (r: Option<(seq<T>, bytes)>) {
    match d
    case None => None
    case Some((ys, end)) => Some((xs + ys, end))
  }

  lemma PrependNone<T>(d: Option<(seq<T>, bytes)>)
    ensures Prepend([], d) == d
  {
    if d.Some? {
      assert [] + d.value.0 == d.value.0;
    }
  }

  lemma PrependStep<T>(c: Coder<T>, n: nat, b: bytes, xs: seq<T>)
    requires n > 0 && c.dec(b).Some?
    ensures Prepend(xs, DecMany(c, n, b)) == Prepend(xs + [c.dec(b).value.0], DecMany(c, n - 1, c.dec(b).value.1))
  {
    var (x, t) := c.dec(b).value;
    match DecMany(c, n - 1, t)
    case None =>
    case Some((ys, end)) => assert xs + ([x] + ys) == (xs + [x]) + ys;
  }

  function RisingMany<T>(c: Coder<T>, n: nat, b: bytes): (r: Option<(seq<T>, bytes)>) {
    match DecMany(c, n, b)
    case None => None
    case Some((xs, t)) => if Rising(Images(c, xs)) then Some((xs, t)) else None
  }

  lemma ImageRead(b: bytes, image: bytes, t: bytes, buf: bytes, start: nat, pos: nat)
    requires start <= pos <= |buf| && b == buf[start..] && t == buf[pos..] && b == image + t
    ensures buf[start..pos] == image
  {
    assert b[..pos - start] == buf[start..pos];
  }

  lemma RisingPush<T>(c: Coder<T>, xs: seq<T>, x: T)
    requires Rising(Images(c, xs)) && (xs != [] ==> BE.Less(c.enc(xs[|xs| - 1]), c.enc(x)))
    ensures Rising(Images(c, xs + [x]))
  {
  }

  lemma NotRising<T>(c: Coder<T>, xs: seq<T>, x: T, d: Option<(seq<T>, bytes)>)
    requires xs != [] && !BE.Less(c.enc(xs[|xs| - 1]), c.enc(x))
    ensures var e := Prepend(xs + [x], d); e.Some? ==> !Rising(Images(c, e.value.0))
  {
    var e := Prepend(xs + [x], d);
    if e.Some? {
      var images := Images(c, e.value.0);
      assert images[|xs| - 1] == c.enc(xs[|xs| - 1]) && images[|xs|] == c.enc(x);
    }
  }
}
