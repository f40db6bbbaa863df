/** Codec-aware frame partitioning (crates/cfr-media/src/codec). */
module Layout {
  import opened Base

  datatype Range = Range(start: nat, end: nat)

  /** Readable ranges and ranges to encrypt, both ascending. */
  datatype Layout = Layout(clear: seq<Range>, secret: seq<Range>)

  predicate Within(r: Range, p: nat) {
    r.start <= p < r.end
  }

  ghost predicate Covers(rs: seq<Range>, p: nat) {
    exists i :: 0 <= i < |rs| && Within(rs[i], p)
  }

  /** Ascending, disjoint and inside the frame. */
  ghost predicate Ordered(rs: seq<Range>, total: nat) {
    && (forall i :: 0 <= i < |rs| ==> rs[i].start < rs[i].end <= total)
    && (forall i, j :: 0 <= i < j < |rs| ==> rs[i].end <= rs[j].start)
  }

  /** Every byte is readable or encrypted, never both. */
  ghost predicate Tiles(l: Layout, total: nat) {
    && Ordered(l.clear, total) && Ordered(l.secret, total)
    && forall p: nat :: p < total ==> (Covers(l.clear, p) <==> !Covers(l.secret, p))
  }

  // ---------------------------------------------------------------------------- fixed prefixes

  function Prefix(len: nat, total: nat): (l: Layout) {
    var cut := if len < total then len else total;
    Layout(if cut > 0 then [Range(0, cut)] else [], if cut < total then [Range(cut, total)] else [])
  }

  lemma PrefixTiles(len: nat, total: nat)
    ensures Tiles(Prefix(len, total), total)
  {
    var l := Prefix(len, total);
    var cut := if len < total then len else total;
    forall p: nat | p < total ensures Covers(l.clear, p) <==> p < cut ensures Covers(l.secret, p) <==> p >= cut {
      if p < cut {
        assert Within(l.clear[0], p);
      } else {
        assert Within(l.secret[0], p);
      }
    }
  }

  // ------------------------------------------------------------------------- units to layouts

  /** A unit of a bitstream: a readable prefix and a body. */
  datatype Unit = Unit(start: nat, body: nat, end: nat)

  /** The units lie one after the other from `a` to `total`, each with a non-empty prefix. */
  ghost predicate Chain(us: seq<Unit>, a: nat, total: nat) {
    if us == [] then a == total
    else us[0].start == a < us[0].body <= us[0].end && Chain(us[1..], us[0].end, total)
  }

  function ClearEnd(u: Unit, header: nat): (e: nat) {
    if u.body + header < u.end then u.body + header else u.end
  }

  function Clears(us: seq<Unit>, header: nat): (rs: seq<Range>) {
    if us == [] then [] else [Range(us[0].start, ClearEnd(us[0], header))] + Clears(us[1..], header)
  }

  function Secrets(us: seq<Unit>, header: nat): (rs: seq<Range>) {
    if us == [] then []
    else (if ClearEnd(us[0], header) < us[0].end then [Range(ClearEnd(us[0], header), us[0].end)]
          else []) + Secrets(us[1..], header)
  }

  /** Joins `r` to the last range when they touch. */
  function Extend(rs: seq<Range>, r: Range): (x: seq<Range>) {
    if rs != [] && rs[|rs| - 1].end == r.start then rs[..|rs| - 1] + [Range(rs[|rs| - 1].start, r.end)] else rs + [r]
  }

  function Merge(rs: seq<Range>): (x: seq<Range>) {
    if rs == [] then [] else Extend(Merge(rs[..|rs| - 1]), rs[|rs| - 1])
  }

  function FromUnits(us: seq<Unit>, header: nat): (l: Layout) {
    Layout(Merge(Clears(us, header)), Secrets(us, header))
  }

  lemma CoversCons(r: Range, rs: seq<Range>, p: nat)
    ensures Covers([r] + rs, p) <==> Within(r, p) || Covers(rs, p)
  {
    var all := [r] + rs;
    if i :| 0 <= i < |rs| && Within(rs[i], p) {
      assert Within(all[i + 1], p);
    }
    if Within(r, p) {
      assert Within(all[0], p);
    }
    if i :| 0 <= i < |all| && Within(all[i], p) {
      assert i == 0 || Within(rs[i - 1], p);
    }
  }

  lemma CoversSnoc(rs: seq<Range>, r: Range, p: nat)
    ensures Covers(rs + [r], p) <==> Within(r, p) || Covers(rs, p)
  {
    var all := rs + [r];
    if i :| 0 <= i < |rs| && Within(rs[i], p) {
      assert Within(all[i], p);
    }
    if Within(r, p) {
      assert Within(all[|rs|], p);
    }
  }

  /** The units split every position between their readable and their secret parts. */
  lemma {:induction false} UnitsSplit(us: seq<Unit>, a: nat, total: nat, header: nat, p: nat)
    requires Chain(us, a, total)
    ensures a <= total
    ensures Covers(Clears(us, header), p) ==> a <= p < total
    ensures Covers(Secrets(us, header), p) ==> a <= p < total
    ensures a <= p < total ==> (Covers(Clears(us, header), p) <==> !Covers(Secrets(us, header), p))
    decreases |us|
  {
    if us != [] {
      var u, cs, ss := us[0], Clears(us[1..], header), Secrets(us[1..], header);
      UnitsSplit(us[1..], u.end, total, header, p);
      var e := ClearEnd(u, header);
      CoversCons(Range(u.start, e), cs, p);
      if e < u.end {
        CoversCons(Range(e, u.end), ss, p);
      } else {
        assert [] + ss == ss;
      }
    }
  }

  ghost predicate OrderedFrom(rs: seq<Range>, a: nat, total: nat) {
    Ordered(rs, total) && (rs != [] ==> a <= rs[0].start)
  }

  lemma OrderedCons(r: Range, rs: seq<Range>, a: nat, total: nat)
    requires a <= r.start < r.end <= total && OrderedFrom(rs, r.end, total)
    ensures OrderedFrom([r] + rs, a, total)
  {
    var all := [r] + rs;
    forall i, j | 0 <= i < j < |all| ensures all[i].end <= all[j].start {
      if i == 0 && j > 1 {
        assert rs[0].end <= rs[j - 1].start;
      }
    }
  }

  lemma {:induction false} UnitsOrdered(us: seq<Unit>, a: nat, total: nat, header: nat)
    requires Chain(us, a, total)
    ensures a <= total && OrderedFrom(Clears(us, header), a, total) && OrderedFrom(Secrets(us, header), a, total)
    decreases |us|
  {
    if us != [] {
      var u := us[0];
      UnitsOrdered(us[1..], u.end, total, header);
      var e := ClearEnd(u, header);
      OrderedCons(Range(u.start, e), Clears(us[1..], header), a, total);
      if e < u.end {
        OrderedCons(Range(e, u.end), Secrets(us[1..], header), a, total);
      } else {
        assert [] + Secrets(us[1..], header) == Secrets(us[1..], header);
      }
    }
  }

  lemma ExtendOrdered(rs: seq<Range>, r: Range, total: nat)
    requires Ordered(rs, total) && r.start < r.end <= total && (rs != [] ==> rs[|rs| - 1].end <= r.start)
    ensures Ordered(Extend(rs, r), total) && Extend(rs, r)[|Extend(rs, r)| - 1].end == r.end
  {
    if rs != [] && rs[|rs| - 1].end == r.start {
      OrderedInit(rs, total);
      OrderedPush(rs[..|rs| - 1], Range(rs[|rs| - 1].start, r.end), total);
    } else {
      OrderedPush(rs, r, total);
    }
  }

  lemma OrderedPush(rs: seq<Range>, r: Range, total: nat)
    requires Ordered(rs, total) && r.start < r.end <= total && (rs != [] ==> rs[|rs| - 1].end <= r.start)
    ensures Ordered(rs + [r], total)
  {
    var all := rs + [r];
    forall i | 0 <= i < |rs| ensures all[i].end <= r.start {
      if i < |rs| - 1 {
        assert rs[i].end <= rs[|rs| - 1].start;
      }
    }
  }

  lemma ExtendCovers(rs: seq<Range>, r: Range, p: nat)
    requires r.start < r.end && (rs != [] ==> rs[|rs| - 1].start < rs[|rs| - 1].end)
    ensures Covers(Extend(rs, r), p) <==> Covers(rs, p) || Within(r, p)
  {
    if rs != [] && rs[|rs| - 1].end == r.start {
      var init, last := rs[..|rs| - 1], rs[|rs| - 1];
      assert rs == init + [last];
      CoversSnoc(init, last, p);
      CoversSnoc(init, Range(last.start, r.end), p);
    } else {
      CoversSnoc(rs, r, p);
    }
  }

  lemma OrderedInit(rs: seq<Range>, total: nat)
    requires Ordered(rs, total) && rs != []
    ensures var init, last := rs[..|rs| - 1], rs[|rs| - 1];
      && Ordered(init, total) && last.start < last.end <= total
      && (init != [] ==> init[|init| - 1].end <= last.start)
  {
  }

  lemma {:induction false} MergeOrdered(rs: seq<Range>, total: nat)
    requires Ordered(rs, total)
    ensures Ordered(Merge(rs), total)
    ensures rs != [] ==> Merge(rs) != [] && Merge(rs)[|Merge(rs)| - 1].end == rs[|rs| - 1].end
    ensures rs == [] ==> Merge(rs) == []
  {
    if rs != [] {
      OrderedInit(rs, total);
      MergeOrdered(rs[..|rs| - 1], total);
      ExtendOrdered(Merge(rs[..|rs| - 1]), rs[|rs| - 1], total);
    }
  }

  lemma CoversLast(rs: seq<Range>, p: nat)
    requires rs != []
    ensures Covers(rs, p) <==> Covers(rs[..|rs| - 1], p) || Within(rs[|rs| - 1], p)
  {
    assert rs == rs[..|rs| - 1] + [rs[|rs| - 1]];
    CoversSnoc(rs[..|rs| - 1], rs[|rs| - 1], p);
  }

  lemma {:induction false} MergeCovers(rs: seq<Range>, total: nat, p: nat)
    requires Ordered(rs, total)
    ensures Covers(Merge(rs), p) <==> Covers(rs, p)
  {
    if rs != [] {
      var init, last := rs[..|rs| - 1], rs[|rs| - 1];
      OrderedInit(rs, total);
      MergeCovers(init, total, p);
      MergeOrdered(init, total);
      ExtendCovers(Merge(init), last, p);
      CoversLast(rs, p);
    }
  }

  lemma MergeKeeps(rs: seq<Range>, total: nat)
    requires Ordered(rs, total)
    ensures Ordered(Merge(rs), total) && forall p :: Covers(Merge(rs), p) <==> Covers(rs, p)
  {
    MergeOrdered(rs, total);
    forall p ensures Covers(Merge(rs), p) <==> Covers(rs, p) {
      MergeCovers(rs, total, p);
    }
  }

  lemma FromUnitsTiles(us: seq<Unit>, header: nat, total: nat)
    requires Chain(us, 0, total)
    ensures Tiles(FromUnits(us, header), total)
  {
    UnitsOrdered(us, 0, total, header);
    MergeKeeps(Clears(us, header), total);
    forall p: nat | p < total ensures Covers(Merge(Clears(us, header)), p) <==> !Covers(Secrets(us, header), p) {
      UnitsSplit(us, 0, total, header, p);
    }
  }

  lemma SplitNext(us: seq<Unit>, header: nat, i: nat)
    requires i < |us|
    ensures var e := ClearEnd(us[i], header);
      && Clears(us[i..], header) == [Range(us[i].start, e)] + Clears(us[i + 1..], header)
      && Secrets(us[i..], header)
           == (if e < us[i].end then [Range(e, us[i].end)] else []) + Secrets(us[i + 1..], header)
  {
    assert us[i..][0] == us[i] && us[i..][1..] == us[i + 1..];
  }

  /** The loops of `from_units`: collect, then merge adjacent readable ranges. */
  method BuildLayout(us: seq<Unit>, header: nat) returns (l: Layout)
    ensures l == FromUnits(us, header)
  {
    var clear, secret := [], [];
    assert us[0..] == us;
    for i := 0 to |us|
      invariant clear + Clears(us[i..], header) == Clears(us, header)
      invariant secret + Secrets(us[i..], header) == Secrets(us, header)
    {
      var u := us[i];
      SplitNext(us, header, i);
      var e := ClearEnd(u, header);
      clear := clear + [Range(u.start, e)];
      if e < u.end {
        secret := secret + [Range(e, u.end)];
      }
    }
    assert us[|us|..] == [] && clear + [] == clear && secret + [] == secret;
    var merged := [];
    for i := 0 to |clear|
      invariant merged == Merge(clear[..i])
    {
      assert clear[..i + 1][..i] == clear[..i];
      merged := Extend(merged, clear[i]);
    }
    TakeAll(clear);
    l := Layout(merged, secret);
  }
}
