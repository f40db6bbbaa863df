/** Sorted maps and small values as coders. */
module MapCoder {
  import opened Base
  import opened Coders
  import BE = BigEndian

  type Entries<V> = seq<(nat, V)>

  function KeysOf<V>(xs: Entries<V>): (ks: seq<nat>)
    ensures |ks| == |xs| && forall i :: 0 <= i < |xs| ==> ks[i] == xs[i].0
  {
    seq(|xs|, i requires 0 <= i < |xs| => xs[i].0)
  }

  predicate Rises(ks: seq<nat>) {
    forall i, j :: 0 <= i < j < |ks| ==> ks[i] < ks[j]
  }

  function MapFrom<V>(xs: Entries<V>): (m: map<nat, V>) {
    if xs == [] then map[] else MapFrom(xs[..|xs| - 1])[xs[|xs| - 1].0 := xs[|xs| - 1].1]
  }

  /** The entries in key order. */
  function Listing<V>(m: map<nat, V>): (xs: Entries<V>) {
    Looked(m, Ascending(m.Keys))
  }

  function Looked<V>(m: map<nat, V>, ks: seq<nat>): (xs: Entries<V>)
    requires forall k :: k in ks ==> k in m
    ensures |xs| == |ks| && forall i :: 0 <= i < |ks| ==> ks[i] in m && xs[i] == (ks[i], m[ks[i]])
  {
    assert forall i :: 0 <= i < |ks| ==> ks[i] in ks;
    seq(|ks|, i requires 0 <= i < |ks| => (ks[i], m[ks[i]]))
  }

  lemma ListingIs<V>(m: map<nat, V>)
    ensures |Listing(m)| == |m.Keys| && KeysOf(Listing(m)) == Ascending(m.Keys)
    ensures forall i :: 0 <= i < |Listing(m)| ==> Listing(m)[i].0 in m && Listing(m)[i].1 == m[Listing(m)[i].0]
  {
  }

  lemma {:induction false} MapFromIs<V>(xs: Entries<V>)
    requires Rises(KeysOf(xs))
    ensures forall k :: k in MapFrom(xs) <==> k in KeysOf(xs)
    ensures forall i :: 0 <= i < |xs| ==> xs[i].0 in MapFrom(xs) && MapFrom(xs)[xs[i].0] == xs[i].1
  {
    if xs != [] {
      var init := xs[..|xs| - 1];
      assert KeysOf(xs) == KeysOf(init) + [xs[|xs| - 1].0];
      MapFromIs(init);
      forall i | 0 <= i < |xs| ensures xs[i].0 in MapFrom(xs) && MapFrom(xs)[xs[i].0] == xs[i].1 {
        if i < |init| {
          assert init[i] == xs[i] && KeysOf(xs)[i] < KeysOf(xs)[|init|];
        }
      }
    }
  }

  lemma ListingFrom<V>(xs: Entries<V>)
    requires Rises(KeysOf(xs))
    ensures Listing(MapFrom(xs)) == xs
  {
    MapFromIs(xs);
    var m := MapFrom(xs);
    AscendingUnique(Ascending(m.Keys), KeysOf(xs));
    LookedUp(m, KeysOf(xs), xs);
  }

  lemma LookedUp<V>(m: map<nat, V>, ks: seq<nat>, xs: Entries<V>)
    requires |xs| == |ks| && (forall k :: k in ks ==> k in m)
    requires forall i :: 0 <= i < |xs| ==> xs[i].0 == ks[i] && xs[i].0 in m && m[xs[i].0] == xs[i].1
    ensures Looked(m, ks) == xs
  {
    forall i | 0 <= i < |xs| ensures Looked(m, ks)[i] == xs[i] {
    }
  }

  lemma FromListing<V>(m: map<nat, V>)
    ensures Rises(KeysOf(Listing(m))) && MapFrom(Listing(m)) == m
  {
    ListingIs(m);
    Rebuilds(m, Listing(m));
  }

  lemma Rebuilds<V>(m: map<nat, V>, xs: Entries<V>)
    requires Rises(KeysOf(xs)) && (forall k :: k in m <==> k in KeysOf(xs))
    requires forall i :: 0 <= i < |xs| ==> xs[i].0 in m && xs[i].1 == m[xs[i].0]
    ensures MapFrom(xs) == m
  {
    forall k ensures Agree(MapFrom(xs), m, k) {
      ValueAt(m, xs, k);
    }
    AgreeEverywhere(MapFrom(xs), m);
  }

  ghost predicate Agree<V>(a: map<nat, V>, b: map<nat, V>, k: nat) {
    (k in a <==> k in b) && (k in a ==> a[k] == b[k])
  }

  lemma AgreeEverywhere<V>(a: map<nat, V>, b: map<nat, V>)
    requires forall k :: Agree(a, b, k)
    ensures a == b
  {
    forall k | k in a ensures k in b && a[k] == b[k] {
      assert Agree(a, b, k);
    }
    forall k | k in b ensures k in a {
      assert Agree(a, b, k);
    }
  }

  lemma ValueAt<V>(m: map<nat, V>, xs: Entries<V>, k: nat)
    requires Rises(KeysOf(xs)) && (k in m <==> k in KeysOf(xs))
    requires forall i :: 0 <= i < |xs| ==> xs[i].0 in m && xs[i].1 == m[xs[i].0]
    ensures Agree(MapFrom(xs), m, k)
  {
    MapFromIs(xs);
    if k in m {
      var i :| 0 <= i < |xs| && KeysOf(xs)[i] == k;
      assert xs[i].0 == k;
    }
  }

  predicate MapOk<V>(m: map<nat, V>, w: nat, limit: nat, item: nat -> Coder<V>) {
    |m.Keys| <= limit && forall k :: k in m ==> BE.Fits(k, w) && item(k).ok(m[k])
  }

  /** A bounded count, then entries in strictly rising key order; the value's coder may look at the key. */
  function MapC<V>(item: nat -> Coder<V>, w: nat, limit: nat): (c: Coder<map<nat, V>>) {
    As(Where(Counted(Then(Number(w), item), limit), (xs: Entries<V>) => Rises(KeysOf(xs))),
       (xs: Entries<V>) => MapFrom(xs), (m: map<nat, V>) => Listing(m), (m: map<nat, V>) => MapOk(m, w, limit, item))
  }

  lemma ListingOk<V>(item: nat -> Coder<V>, w: nat, limit: nat, m: map<nat, V>)
    requires MapOk(m, w, limit, item)
    ensures |Listing(m)| <= limit && AllOk(Then(Number(w), item), Listing(m))
  {
    ListingIs(m);
  }

  lemma {:induction false} MapFromSize<V>(xs: Entries<V>)
    ensures |MapFrom(xs).Keys| <= |xs|
  {
    if xs != [] {
      MapFromSize(xs[..|xs| - 1]);
      assert MapFrom(xs).Keys == MapFrom(xs[..|xs| - 1]).Keys + {xs[|xs| - 1].0};
    }
  }

  lemma EntriesOk<V>(item: nat -> Coder<V>, w: nat, limit: nat, xs: Entries<V>)
    requires |xs| <= limit && AllOk(Then(Number(w), item), xs) && Rises(KeysOf(xs))
    ensures MapOk(MapFrom(xs), w, limit, item)
  {
    MapFromIs(xs);
    MapFromSize(xs);
    var m := MapFrom(xs);
    forall k | k in m ensures BE.Fits(k, w) && item(k).ok(m[k]) {
      var i :| 0 <= i < |xs| && KeysOf(xs)[i] == k;
      assert Then(Number(w), item).ok(xs[i]);
    }
  }

  lemma MapCanonical<V(!new)>(item: nat -> Coder<V>, w: nat, limit: nat)
    requires limit <= MAX_U32 && forall k :: Canonical(item(k))
    ensures Canonical(MapC(item, w, limit))
  {
    NumberCanonical(w);
    ThenCanonical(Number(w), item);
    CountedCanonical(Then(Number(w), item), limit);
    var a := Where(Counted(Then(Number(w), item), limit), (xs: Entries<V>) => Rises(KeysOf(xs)));
    WhereCanonical(Counted(Then(Number(w), item), limit), (xs: Entries<V>) => Rises(KeysOf(xs)));
    forall xs | a.ok(xs) ensures MapOk(MapFrom(xs), w, limit, item) && Listing(MapFrom(xs)) == xs {
      EntriesOk(item, w, limit, xs);
      ListingFrom(xs);
    }
    forall m | MapOk(m, w, limit, item) ensures a.ok(Listing(m)) && MapFrom(Listing(m)) == m {
      ListingOk(item, w, limit, m);
      FromListing(m);
    }
    AsCanonical(a, (xs: Entries<V>) => MapFrom(xs), (m: map<nat, V>) => Listing(m),
                (m: map<nat, V>) => MapOk(m, w, limit, item));
  }

  // ------------------------------------------------------------------------------- small values

  function Flag(): (c: Coder<bool>) {
    As(Where(Number(1), (n: nat) => n <= 1), (n: nat) => n == 1, (b: bool) => if b then 1 else 0, (_: bool) => true)
  }

  lemma FlagCanonical()
    ensures Canonical(Flag())
  {
    NumberCanonical(1);
    assert BE.Pow256(1) == 256 * BE.Pow256(0);
    WhereCanonical(Number(1), (n: nat) => n <= 1);
    AsCanonical(Where(Number(1), (n: nat) => n <= 1), (n: nat) => n == 1, (b: bool) => if b then 1 else 0,
                (_: bool) => true);
  }

  /** A presence byte, then the value when present. */
  function Maybe<T(==)>(item: Coder<T>, default: T): (c: Coder<Option<T>>) {
    As(Then(Flag(), (b: bool) => Present(item, default, b)), (p: (bool, Option<T>)) => p.1,
       (o: Option<T>) => (o.Some?, o),
       (o: Option<T>) => o.Some? ==> item.ok(o.value))
  }

  function NoneOf<T>(b: bytes): (o: Option<T>) {
    None
  }

  function Present<T(==)>(item: Coder<T>, default: T, there: bool): (c: Coder<Option<T>>) {
    if there then
      As(item, (x: T) => Some(x), (o: Option<T>) => if o.Some? then o.value else default,
         (o: Option<T>) => o.Some? && item.ok(o.value))
    else As(Raw(0), (b: bytes) => NoneOf(b), (_: Option<T>) => [], (o: Option<T>) => o == None)
  }

  lemma MaybeCanonical<T(!new)>(item: Coder<T>, default: T)
    requires Canonical(item)
    ensures Canonical(Maybe(item, default))
  {
    FlagCanonical();
    var items := (b: bool) => Present(item, default, b);
    forall b: bool ensures Canonical(items(b)) {
      PresentCanonical(item, default, b);
    }
    ThenCanonical(Flag(), items);
    AsCanonical(Then(Flag(), items), (p: (bool, Option<T>)) => p.1, (o: Option<T>) => (o.Some?, o),
                (o: Option<T>) => o.Some? ==> item.ok(o.value));
  }

  lemma PresentCanonical<T(!new)>(item: Coder<T>, default: T, there: bool)
    requires Canonical(item)
    ensures Canonical(Present(item, default, there))
  {
    if there {
      AsCanonical(item, (x: T) => Some(x), (o: Option<T>) => if o.Some? then o.value else default,
                  (o: Option<T>) => o.Some? && item.ok(o.value));
    } else {
      RawCanonical(0);
      AsCanonical(Raw(0), (b: bytes) => NoneOf<T>(b), (_: Option<T>) => [], (o: Option<T>) => o == None);
    }
  }
}
