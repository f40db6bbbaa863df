/** The persisted form of the logical state (crates/cfr/src/persistence/state.rs). */
module LogicalCodec {
  import opened Base
  import opened Ops
  import opened Coders
  import opened MapCoder
  import opened Tlv
  import OpCodec
  import opened Wire
  import opened Outbox
  import opened Wal
  import BE = BigEndian

  const SCHEMA: nat := 1
  const MAX_WINDOW_ENTRIES: nat := 65536

  datatype Options = Options(window: nat, maxOutbox: nat, maxState: nat, maxRecord: nat, maxWal: nat, threshold: nat)

  predicate OptionsOk(o: Options) {
    && 1 <= o.window <= MAX_WINDOW_ENTRIES && 1 <= o.maxOutbox <= MAX_WINDOW_ENTRIES
    && 1 <= o.maxState <= HARD_MAX_STATE_BYTES && 1 <= o.maxRecord <= HARD_MAX_STATE_BYTES
    && 1 <= o.maxWal <= HARD_MAX_WAL_BYTES && 1 <= o.threshold <= o.maxWal
  }

  datatype Logical<C> = Logical(sequence: nat, options: Options, book: Book<C>)

  // ------------------------------------------------------------------------------------- options

  type OptionFields = (nat, (nat, (nat, (nat, (nat, nat)))))

  function Six(n: Coder<nat>): (c: Coder<OptionFields>) {
    Both(n, Both(n, Both(n, Both(n, Both(n, n)))))
  }

  function OptionsOver(n: Coder<nat>): (c: Coder<Options>) {
    As(Where(Six(n), (p: OptionFields) => OptionsOk(Options(p.0, p.1.0, p.1.1.0, p.1.1.1.0, p.1.1.1.1.0, p.1.1.1.1.1))),
       (p: OptionFields) => Options(p.0, p.1.0, p.1.1.0, p.1.1.1.0, p.1.1.1.1.0, p.1.1.1.1.1),
       (o: Options) => (o.window, (o.maxOutbox, (o.maxState, (o.maxRecord, (o.maxWal, o.threshold))))),
       (o: Options) => OptionsOk(o))
  }

  lemma OptionsOverCanonical(n: Coder<nat>)
    requires Canonical(n) && forall x: nat :: n.ok(x) <==> x <= MAX_U64
    ensures Canonical(OptionsOver(n))
  {
    BothCanonical(n, n);
    BothCanonical(n, Both(n, n));
    BothCanonical(n, Both(n, Both(n, n)));
    BothCanonical(n, Both(n, Both(n, Both(n, n))));
    BothCanonical(n, Both(n, Both(n, Both(n, Both(n, n)))));
    var check := (p: OptionFields) => OptionsOk(Options(p.0, p.1.0, p.1.1.0, p.1.1.1.0, p.1.1.1.1.0, p.1.1.1.1.1));
    WhereCanonical(Six(n), check);
    AsCanonical(Where(Six(n), check),
                (p: OptionFields) => Options(p.0, p.1.0, p.1.1.0, p.1.1.1.0, p.1.1.1.1.0, p.1.1.1.1.1),
                (o: Options) => (o.window, (o.maxOutbox, (o.maxState, (o.maxRecord, (o.maxWal, o.threshold))))),
                (o: Options) => OptionsOk(o));
  }

  // ------------------------------------------------------------------------------ inbound window

  type Pairs = seq<(nat, nat)>
  type Inbound = (map<nat, nat>, seq<nat>)

  predicate DistinctKeys(xs: Pairs) {
    forall i, j :: 0 <= i < j < |xs| ==> xs[i].0 != xs[j].0
  }

  predicate Consistent(w: Inbound) {
    && (forall i :: 0 <= i < |w.1| ==> w.1[i] in w.0)
    && w.0.Keys == SetFrom(w.1)
    && (forall i, j :: 0 <= i < j < |w.1| ==> w.1[i] != w.1[j])
  }

  function WindowOf(xs: Pairs): (w: Inbound) {
    (MapFrom(xs), KeysOf(xs))
  }

  /** The entries in arrival order. */
  function EntriesOf(w: Inbound): (xs: Pairs)
    ensures |xs| == |w.1| && forall i :: 0 <= i < |xs| ==> xs[i].0 == w.1[i]
  {
    seq(|w.1|, i requires 0 <= i < |w.1| => (w.1[i], if w.1[i] in w.0 then w.0[w.1[i]] else 0))
  }

  lemma {:induction false} MapFromDistinct(xs: Pairs)
    requires DistinctKeys(xs)
    ensures MapFrom(xs).Keys == SetFrom(KeysOf(xs))
    ensures forall i :: 0 <= i < |xs| ==> xs[i].0 in MapFrom(xs) && MapFrom(xs)[xs[i].0] == xs[i].1
  {
    if xs != [] {
      var init := xs[..|xs| - 1];
      MapFromDistinct(init);
      assert KeysOf(xs) == KeysOf(init) + [xs[|xs| - 1].0];
      forall i | 0 <= i < |xs| ensures xs[i].0 in MapFrom(xs) && MapFrom(xs)[xs[i].0] == xs[i].1 {
        if i < |init| {
          assert init[i] == xs[i];
        }
      }
    }
  }

  lemma WindowThere(xs: Pairs)
    requires DistinctKeys(xs)
    ensures Consistent(WindowOf(xs)) && EntriesOf(WindowOf(xs)) == xs
  {
    MapFromDistinct(xs);
  }

  lemma WindowBack(w: Inbound)
    requires Consistent(w)
    ensures DistinctKeys(EntriesOf(w)) && WindowOf(EntriesOf(w)) == w
  {
    var xs := EntriesOf(w);
    MapFromDistinct(xs);
    assert KeysOf(xs) == w.1;
    forall k | k in w.0 ensures MapFrom(xs)[k] == w.0[k] {
      assert k in SetFrom(w.1);
      var i :| 0 <= i < |w.1| && w.1[i] == k;
      assert xs[i].0 == k;
    }
    assert MapFrom(xs) == w.0;
  }

  predicate InboundFits(window: nat, w: Inbound) {
    && |w.1| <= window && Consistent(w)
    && forall i :: 0 <= i < |w.1| ==> BE.Fits(w.1[i], 32) && BE.Fits(w.0[w.1[i]], 32)
  }

  function InboundOver(entries: Coder<Pairs>, window: nat): (c: Coder<Inbound>) {
    As(Where(entries, (xs: Pairs) => |xs| <= window && DistinctKeys(xs)), (xs: Pairs) => WindowOf(xs),
       (w: Inbound) => EntriesOf(w), (w: Inbound) => InboundFits(window, w))
  }

  predicate PairsFit(xs: Pairs) {
    |xs| <= MAX_ITEMS && forall i :: 0 <= i < |xs| ==> BE.Fits(xs[i].0, 32) && BE.Fits(xs[i].1, 32)
  }

  lemma InboundOverCanonical(entries: Coder<Pairs>, window: nat)
    requires Canonical(entries) && (forall xs :: entries.ok(xs) <==> PairsFit(xs)) && window <= MAX_ITEMS
    ensures Canonical(InboundOver(entries, window))
  {
    var a := Where(entries, (xs: Pairs) => |xs| <= window && DistinctKeys(xs));
    WhereCanonical(entries, (xs: Pairs) => |xs| <= window && DistinctKeys(xs));
    forall xs | a.ok(xs) ensures InboundFits(window, WindowOf(xs)) && EntriesOf(WindowOf(xs)) == xs {
      WindowThere(xs);
      WindowFits(xs, window);
    }
    forall w | InboundFits(window, w) ensures a.ok(EntriesOf(w)) && WindowOf(EntriesOf(w)) == w {
      WindowBack(w);
    }
    AsCanonical(a, (xs: Pairs) => WindowOf(xs), (w: Inbound) => EntriesOf(w), (w: Inbound) => InboundFits(window, w));
  }

  lemma WindowFits(xs: Pairs, window: nat)
    requires DistinctKeys(xs) && PairsFit(xs) && |xs| <= window
    ensures InboundFits(window, WindowOf(xs))
  {
    WindowThere(xs);
    MapFromDistinct(xs);
    forall i | 0 <= i < |xs| ensures BE.Fits(WindowOf(xs).1[i], 32) && BE.Fits(WindowOf(xs).0[WindowOf(xs).1[i]], 32) {
      assert WindowOf(xs).1[i] == xs[i].0;
    }
  }

  function PairsC(): (c: Coder<Pairs>) {
    List(Both(Array(32), Array(32)))
  }

  lemma PairsCanonical()
    ensures Canonical(PairsC())
  {
    ArrayCanonical(32);
    BothCanonical(Array(32), Array(32));
    ListCanonical(Both(Array(32), Array(32)));
  }

  lemma PairsAllowed(xs: Pairs)
    ensures PairsC().ok(xs) <==> PairsFit(xs)
  {
  }

  // -------------------------------------------------------------------------------------- outbox

  function ToPeer(id: Id): (o: Option<Id>) {
    Some(id)
  }

  function ToEveryone(b: bytes): (o: Option<Id>) {
    None
  }

  function RecipientBody(tag: nat): (c: Coder<Option<Id>>) {
    if tag == 0 then As(Raw(0), (b: bytes) => ToEveryone(b), (_: Option<Id>) => [], (o: Option<Id>) => o == None)
    else if tag == 1 then
      As(Array(32), (i: Id) => ToPeer(i), (o: Option<Id>) => if o.Some? then o.value else 0,
         (o: Option<Id>) => o.Some? && BE.Fits(o.value, 32))
    else OpCodec.Nothing()
  }

  predicate RecipientFits(o: Option<Id>) {
    o.Some? ==> BE.Fits(o.value, 32)
  }

  function RecipientC(): (c: Coder<Option<Id>>) {
    As(Then(U32(), (t: nat) => RecipientBody(t)), (p: (nat, Option<Id>)) => p.1,
       (o: Option<Id>) => (if o == None then 0 else 1, o), (o: Option<Id>) => RecipientFits(o))
  }

  lemma RecipientBodyCanonical(tag: nat)
    ensures Canonical(RecipientBody(tag))
  {
    if tag == 0 {
      RawCanonical(0);
      AsCanonical(Raw(0), (b: bytes) => ToEveryone(b), (_: Option<Id>) => [], (o: Option<Id>) => o == None);
    } else if tag == 1 {
      ArrayCanonical(32);
      AsCanonical(Array(32), (i: Id) => ToPeer(i), (o: Option<Id>) => if o.Some? then o.value else 0,
                  (o: Option<Id>) => o.Some? && BE.Fits(o.value, 32));
    } else {
      OpCodec.NothingCanonical<Option<Id>>();
    }
  }

  lemma RecipientCanonical()
    ensures Canonical(RecipientC())
  {
    IntCanonical();
    var items := (t: nat) => RecipientBody(t);
    forall t: nat ensures Canonical(items(t)) {
      RecipientBodyCanonical(t);
    }
    ThenCanonical(U32(), items);
    AsCanonical(Then(U32(), items), (p: (nat, Option<Id>)) => p.1, (o: Option<Id>) => (if o == None then 0 else 1, o),
                (o: Option<Id>) => RecipientFits(o));
  }

  type DeliveryFields = (nat, (nat, (Option<Id>, bytes)))

  predicate DeliveryFits(d: Delivery) {
    d.id <= MAX_U64 && BE.Fits(d.key, 32) && RecipientFits(d.recipient) && |d.payload| <= MAX_FIELD
  }

  function DeliveryC(): (c: Coder<Delivery>) {
    As(Both(U64(), Both(Array(32), Both(RecipientC(), Field()))),
       (p: DeliveryFields) => Delivery(p.0, p.1.0, p.1.1.0, p.1.1.1),
       (d: Delivery) => (d.id, (d.key, (d.recipient, d.payload))), (d: Delivery) => DeliveryFits(d))
  }

  lemma DeliveryCanonical()
    ensures Canonical(DeliveryC())
  {
    IntCanonical();
    ArrayCanonical(32);
    RecipientCanonical();
    FieldCanonical();
    BothCanonical(RecipientC(), Field());
    BothCanonical(Array(32), Both(RecipientC(), Field()));
    BothCanonical(U64(), Both(Array(32), Both(RecipientC(), Field())));
    AsCanonical(Both(U64(), Both(Array(32), Both(RecipientC(), Field()))),
                (p: DeliveryFields) => Delivery(p.0, p.1.0, p.1.1.0, p.1.1.1),
                (d: Delivery) => (d.id, (d.key, (d.recipient, d.payload))), (d: Delivery) => DeliveryFits(d));
  }

  type KeyOf = (nat, Option<Id>, bytes) -> nat

  function Tabled(ds: seq<Delivery>): (xs: Entries<Delivery>)
    ensures |xs| == |ds| && forall i :: 0 <= i < |ds| ==> xs[i] == (ds[i].id, ds[i])
  {
    seq(|ds|, i requires 0 <= i < |ds| => (ds[i].id, ds[i]))
  }

  function Untabled(xs: Entries<Delivery>): (ds: seq<Delivery>)
    ensures |ds| == |xs| && forall i :: 0 <= i < |xs| ==> ds[i] == xs[i].1
  {
    seq(|xs|, i requires 0 <= i < |xs| => xs[i].1)
  }

  predicate Bound(keyOf: KeyOf, d: Delivery) {
    d.id >= 1 && d.key == keyOf(d.id, d.recipient, d.payload)
  }

  predicate DeliveriesOk(keyOf: KeyOf, limit: nat, ds: seq<Delivery>) {
    |ds| <= limit && Rises(KeysOf(Tabled(ds))) && forall i :: 0 <= i < |ds| ==> Bound(keyOf, ds[i])
  }

  predicate OutboxFits(keyOf: KeyOf, limit: nat, m: map<nat, Delivery>) {
    |m.Keys| <= limit && forall id :: id in m ==> m[id].id == id && Bound(keyOf, m[id]) && DeliveryFits(m[id])
  }

  function OutboxOver(list: Coder<seq<Delivery>>, keyOf: KeyOf, limit: nat): (c: Coder<map<nat, Delivery>>) {
    As(Where(list, (ds: seq<Delivery>) => DeliveriesOk(keyOf, limit, ds)), (ds: seq<Delivery>) => MapFrom(Tabled(ds)),
       (m: map<nat, Delivery>) => Untabled(Listing(m)), (m: map<nat, Delivery>) => OutboxFits(keyOf, limit, m))
  }

  predicate AllFitList(ds: seq<Delivery>) {
    |ds| <= MAX_ITEMS && forall i :: 0 <= i < |ds| ==> DeliveryFits(ds[i])
  }

  lemma OutboxThere(keyOf: KeyOf, limit: nat, ds: seq<Delivery>)
    requires DeliveriesOk(keyOf, limit, ds) && AllFitList(ds)
    ensures OutboxFits(keyOf, limit, MapFrom(Tabled(ds)))
  {
    var xs := Tabled(ds);
    MapFromSize(xs);
    forall id | id in MapFrom(xs)
      ensures MapFrom(xs)[id].id == id && Bound(keyOf, MapFrom(xs)[id]) && DeliveryFits(MapFrom(xs)[id])
    {
      var i := PlaceOf(ds, id);
    }
  }

  lemma OutboxListed(ds: seq<Delivery>)
    requires Rises(KeysOf(Tabled(ds)))
    ensures Untabled(Listing(MapFrom(Tabled(ds)))) == ds
  {
    ListingFrom(Tabled(ds));
  }

  lemma PlaceOf(ds: seq<Delivery>, id: nat) returns (i: nat)
    requires Rises(KeysOf(Tabled(ds))) && id in MapFrom(Tabled(ds))
    ensures i < |ds| && ds[i].id == id && MapFrom(Tabled(ds))[id] == ds[i]
  {
    var xs := Tabled(ds);
    MapFromIs(xs);
    assert id in KeysOf(xs);
    i :| 0 <= i < |xs| && KeysOf(xs)[i] == id;
    assert xs[i] == (ds[i].id, ds[i]);
  }

  lemma OutboxBack(keyOf: KeyOf, limit: nat, m: map<nat, Delivery>)
    requires OutboxFits(keyOf, limit, m) && limit <= MAX_ITEMS
    ensures DeliveriesOk(keyOf, limit, Untabled(Listing(m))) && AllFitList(Untabled(Listing(m)))
    ensures MapFrom(Tabled(Untabled(Listing(m)))) == m
  {
    FromListing(m);
    ListingIs(m);
    assert Tabled(Untabled(Listing(m))) == Listing(m);
  }

  lemma OutboxOverCanonical(list: Coder<seq<Delivery>>, keyOf: KeyOf, limit: nat)
    requires Canonical(list) && (forall ds :: list.ok(ds) <==> AllFitList(ds)) && limit <= MAX_ITEMS
    ensures Canonical(OutboxOver(list, keyOf, limit))
  {
    var check := (ds: seq<Delivery>) => DeliveriesOk(keyOf, limit, ds);
    WhereCanonical(list, check);
    forall ds | Where(list, check).ok(ds)
      ensures OutboxFits(keyOf, limit, MapFrom(Tabled(ds))) && Untabled(Listing(MapFrom(Tabled(ds)))) == ds
    {
      OutboxThere(keyOf, limit, ds);
      OutboxListed(ds);
    }
    forall m | OutboxFits(keyOf, limit, m)
      ensures Where(list, check).ok(Untabled(Listing(m))) && MapFrom(Tabled(Untabled(Listing(m)))) == m
    {
      OutboxBack(keyOf, limit, m);
    }
    AsCanonical(Where(list, check), (ds: seq<Delivery>) => MapFrom(Tabled(ds)),
                (m: map<nat, Delivery>) => Untabled(Listing(m)),
                (m: map<nat, Delivery>) => OutboxFits(keyOf, limit, m));
  }

  // --------------------------------------------------------------------------------- whole states

  /** The opaque conference: its own codec, and the retry key it derives. */
  datatype Conf<!C> = Conf(coder: Coder<C>, keyOf: C -> KeyOf)

  type Head = (nat, (nat, Options))
  type Tail<C> = (C, (Inbound, (map<nat, Delivery>, nat)))

  predicate HeadFits(h: Head) {
    h.0 == SCHEMA && 1 <= h.1.0 <= MAX_U64 && OptionsOk(h.1.1)
  }

  predicate ConfFits<C>(k: Conf<C>, conf: C) {
    k.coder.ok(conf) && |k.coder.enc(conf)| <= MAX_FIELD
  }

  /** Every stored identifier lies below the next one. */
  predicate NextOk(m: map<nat, Delivery>, next: nat) {
    1 <= next <= MAX_U64 && forall id :: id in m ==> id < next
  }

  predicate BooksFit(keyOf: KeyOf, o: Options, t: (Inbound, (map<nat, Delivery>, nat))) {
    InboundFits(o.window, t.0) && OutboxFits(keyOf, o.maxOutbox, t.1.0) && NextOk(t.1.0, t.1.1)
  }

  datatype Pieces = Pieces(long: Coder<nat>, short: Coder<nat>, pairs: Coder<Pairs>, list: Coder<seq<Delivery>>)

  ghost predicate PiecesOk(p: Pieces) {
    && Canonical(p.long) && Canonical(p.short) && Canonical(p.pairs) && Canonical(p.list)
    && (forall n: nat :: p.long.ok(n) <==> n <= MAX_U64)
    && (forall n: nat :: p.short.ok(n) ==> n <= MAX_U32)
    && (forall n: nat :: n == SCHEMA ==> p.short.ok(n))
    && (forall xs :: p.pairs.ok(xs) <==> PairsFit(xs))
    && (forall ds :: p.list.ok(ds) <==> AllFitList(ds))
  }

  function PiecesC(): (p: Pieces) {
    Pieces(U64(), U32(), PairsC(), List(DeliveryC()))
  }

  lemma PiecesAreOk()
    ensures PiecesOk(PiecesC())
  {
    IntCanonical();
    PairsCanonical();
    DeliveryCanonical();
    ListCanonical(DeliveryC());
    forall xs ensures PairsC().ok(xs) <==> PairsFit(xs) {
      PairsAllowed(xs);
    }
  }

  function HeadC(p: Pieces): (c: Coder<Head>) {
    Where(Both(p.short, Both(p.long, OptionsOver(p.long))), (h: Head) => h.0 == SCHEMA && h.1.0 >= 1)
  }

  function BooksC(p: Pieces, keyOf: KeyOf, o: Options): (c: Coder<(Inbound, (map<nat, Delivery>, nat))>) {
    Where(Both(InboundOver(p.pairs, o.window), Both(OutboxOver(p.list, keyOf, o.maxOutbox), p.long)),
          (t: (Inbound, (map<nat, Delivery>, nat))) => NextOk(t.1.0, t.1.1))
  }

  function TailC<C>(p: Pieces, k: Conf<C>, o: Options): (c: Coder<Tail<C>>) {
    Then(Nested(k.coder), (conf: C) => BooksC(p, k.keyOf(conf), o))
  }

  predicate LogicalFits<C>(k: Conf<C>, s: Logical<C>) {
    && HeadFits((SCHEMA, (s.sequence, s.options)))
    && ConfFits(k, s.book.conf)
    && BooksFit(k.keyOf(s.book.conf), s.options, ((s.book.inbound, s.book.order), (s.book.outbox, s.book.next)))
  }

  function LogicalOver<C>(p: Pieces, k: Conf<C>): (c: Coder<Logical<C>>) {
    As(Then(HeadC(p), (h: Head) => TailC(p, k, h.1.1)),
       (t: (Head, Tail<C>)) => Logical(t.0.1.0, t.0.1.1, Book(t.1.0, t.1.1.0.0, t.1.1.0.1, t.1.1.1.0, t.1.1.1.1)),
       (s: Logical<C>) => ((SCHEMA, (s.sequence, s.options)),
                           (s.book.conf, ((s.book.inbound, s.book.order), (s.book.outbox, s.book.next)))),
       (s: Logical<C>) => LogicalFits(k, s))
  }

  function LogicalC<C>(k: Conf<C>): (c: Coder<Logical<C>>) {
    LogicalOver(PiecesC(), k)
  }

  lemma HeadCanonical(p: Pieces)
    requires PiecesOk(p)
    ensures Canonical(HeadC(p)) && forall h :: HeadC(p).ok(h) <==> HeadFits(h)
  {
    OptionsOverCanonical(p.long);
    BothCanonical(p.long, OptionsOver(p.long));
    BothCanonical(p.short, Both(p.long, OptionsOver(p.long)));
    WhereCanonical(Both(p.short, Both(p.long, OptionsOver(p.long))), (h: Head) => h.0 == SCHEMA && h.1.0 >= 1);
  }

  lemma BooksCanonical(p: Pieces, keyOf: KeyOf, o: Options)
    requires PiecesOk(p) && OptionsOk(o)
    ensures Canonical(BooksC(p, keyOf, o)) && forall t :: BooksC(p, keyOf, o).ok(t) <==> BooksFit(keyOf, o, t)
  {
    InboundOverCanonical(p.pairs, o.window);
    OutboxOverCanonical(p.list, keyOf, o.maxOutbox);
    BothCanonical(OutboxOver(p.list, keyOf, o.maxOutbox), p.long);
    BothCanonical(InboundOver(p.pairs, o.window), Both(OutboxOver(p.list, keyOf, o.maxOutbox), p.long));
    WhereCanonical(Both(InboundOver(p.pairs, o.window), Both(OutboxOver(p.list, keyOf, o.maxOutbox), p.long)),
                   (t: (Inbound, (map<nat, Delivery>, nat))) => NextOk(t.1.0, t.1.1));
  }

  lemma TailCanonical<C(!new)>(p: Pieces, k: Conf<C>, o: Options)
    requires PiecesOk(p) && OptionsOk(o) && Canonical(k.coder)
    ensures Canonical(TailC(p, k, o))
  {
    NestedCanonical(k.coder);
    var items := (conf: C) => BooksC(p, k.keyOf(conf), o);
    forall conf: C ensures Canonical(items(conf)) {
      BooksCanonical(p, k.keyOf(conf), o);
    }
    ThenCanonical(Nested(k.coder), items);
  }

  lemma TailAllowed<C>(p: Pieces, k: Conf<C>, o: Options, t: Tail<C>)
    requires PiecesOk(p) && OptionsOk(o)
    ensures TailC(p, k, o).ok(t) <==> ConfFits(k, t.0) && BooksFit(k.keyOf(t.0), o, t.1)
  {
    BooksCanonical(p, k.keyOf(t.0), o);
  }

  lemma LogicalOverCanonical<C(!new)>(p: Pieces, k: Conf<C>)
    requires PiecesOk(p) && Canonical(k.coder)
    ensures Canonical(LogicalOver(p, k))
  {
    HeadCanonical(p);
    var items := (h: Head) => TailC(p, k, h.1.1);
    forall h: Head | HeadFits(h)
      ensures Canonical(items(h))
      ensures forall t :: items(h).ok(t) <==> ConfFits(k, t.0) && BooksFit(k.keyOf(t.0), h.1.1, t.1)
    {
      TailCanonical(p, k, h.1.1);
      forall t: Tail<C> ensures items(h).ok(t) <==> ConfFits(k, t.0) && BooksFit(k.keyOf(t.0), h.1.1, t.1) {
        TailAllowed(p, k, h.1.1, t);
      }
    }
    JoinedCanonical(k, HeadC(p), items);
  }

  lemma JoinedCanonical<C(!new)>(k: Conf<C>, head: Coder<Head>, tail: Head -> Coder<Tail<C>>)
    requires Canonical(head) && forall h :: head.ok(h) <==> HeadFits(h)
    requires forall h :: HeadFits(h) ==>
      Canonical(tail(h)) && forall t :: tail(h).ok(t) <==> ConfFits(k, t.0) && BooksFit(k.keyOf(t.0), h.1.1, t.1)
    ensures Canonical(As(Then(head, tail),
       (t: (Head, Tail<C>)) => Logical(t.0.1.0, t.0.1.1, Book(t.1.0, t.1.1.0.0, t.1.1.0.1, t.1.1.1.0, t.1.1.1.1)),
       (s: Logical<C>) => ((SCHEMA, (s.sequence, s.options)),
                           (s.book.conf, ((s.book.inbound, s.book.order), (s.book.outbox, s.book.next)))),
       (s: Logical<C>) => LogicalFits(k, s)))
  {
    ThenCanonical(head, tail);
    AsCanonical(Then(head, tail),
       (t: (Head, Tail<C>)) => Logical(t.0.1.0, t.0.1.1, Book(t.1.0, t.1.1.0.0, t.1.1.0.1, t.1.1.1.0, t.1.1.1.1)),
       (s: Logical<C>) => ((SCHEMA, (s.sequence, s.options)),
                           (s.book.conf, ((s.book.inbound, s.book.order), (s.book.outbox, s.book.next)))),
       (s: Logical<C>) => LogicalFits(k, s));
  }

  lemma LogicalCanonical<C(!new)>(k: Conf<C>)
    requires Canonical(k.coder)
    ensures Canonical(LogicalC(k))
  {
    PiecesAreOk();
    LogicalOverCanonical(PiecesC(), k);
  }

  // ----------------------------------------------------------------------------- save and restore

  predicate SizeOk(o: Options, b: bytes) {
    |b| <= HARD_MAX_STATE_BYTES && |b| <= o.maxState && |b| <= o.maxRecord
  }

  function Encoded<C>(c: Coder<Logical<C>>, s: Logical<C>): (b: Option<bytes>) {
    if SizeOk(s.options, c.enc(s)) then Some(c.enc(s)) else None
  }

  function Decoded<C>(c: Coder<Logical<C>>, b: bytes, sequence: nat): (s: Option<Logical<C>>) {
    match FromWire(c, b)
    case None => None
    case Some(s) => if s.sequence == sequence && SizeOk(s.options, b) && c.enc(s) == b then Some(s) else None
  }

  /** The image of a logical state of another schema version. */
  predicate OfOtherSchema(b: bytes) {
    |b| <= HARD_MAX_STATE_BYTES && U32().dec(b).Some? && U32().dec(b).value.0 != SCHEMA
  }

  // ------------------------------------------------------ an image is no shorter than what it holds

  lemma FieldSize(v: bytes)
    ensures |Field().enc(v)| >= |v|
  {
  }

  lemma {:induction false} EncAllSize<T>(c: Coder<T>, xs: seq<T>, i: nat)
    requires i < |xs|
    ensures |EncAll(c, xs)| >= |c.enc(xs[i])|
    decreases |xs|
  {
    if i > 0 {
      EncAllSize(c, xs[1..], i - 1);
    }
  }

  lemma ListSize<T>(c: Coder<T>, xs: seq<T>, i: nat)
    requires i < |xs|
    ensures |List(c).enc(xs)| >= |c.enc(xs[i])|
  {
    EncAllSize(c, xs, i);
  }

  lemma DeliverySize(d: Delivery)
    ensures |DeliveryC().enc(d)| >= |d.payload|
  {
    FieldSize(d.payload);
  }

  lemma DeliveriesSize(ds: seq<Delivery>, i: nat)
    requires i < |ds|
    ensures |List(DeliveryC()).enc(ds)| >= |ds[i].payload|
  {
    ListSize(DeliveryC(), ds, i);
    DeliverySize(ds[i]);
  }

  lemma ListedAt(m: map<nat, Delivery>, id: nat) returns (i: nat)
    requires id in m
    ensures i < |Untabled(Listing(m))| && Untabled(Listing(m))[i] == m[id]
  {
    var xs := Listing(m);
    ListingIs(m);
    FromListing(m);
    MapFromIs(xs);
    assert id in KeysOf(xs);
    i :| 0 <= i < |xs| && KeysOf(xs)[i] == id;
  }

  lemma OutboxSize(m: map<nat, Delivery>, id: nat)
    requires id in m
    ensures |List(DeliveryC()).enc(Untabled(Listing(m)))| >= |m[id].payload|
  {
    var i := ListedAt(m, id);
    DeliveriesSize(Untabled(Listing(m)), i);
  }

  lemma LogicalSize<C>(k: Conf<C>, s: Logical<C>)
    ensures |LogicalC(k).enc(s)| >= |k.coder.enc(s.book.conf)|
    ensures |LogicalC(k).enc(s)| >= |List(DeliveryC()).enc(Untabled(Listing(s.book.outbox)))|
  {
    FieldSize(k.coder.enc(s.book.conf));
    var p := PiecesC();
    var tail := (s.book.conf, ((s.book.inbound, s.book.order), (s.book.outbox, s.book.next)));
    assert |BooksC(p, k.keyOf(s.book.conf), s.options).enc(tail.1)| >= |p.list.enc(Untabled(Listing(s.book.outbox)))|;
    assert LogicalC(k).enc(s) == HeadC(p).enc((SCHEMA, (s.sequence, s.options))) + TailC(p, k, s.options).enc(tail);
  }

  /** What fits the size limit of a state fits the length limit of its fields. */
  lemma SizedFields<C>(k: Conf<C>, s: Logical<C>)
    requires Encoded(LogicalC(k), s).Some?
    ensures |k.coder.enc(s.book.conf)| <= MAX_FIELD
    ensures forall id :: id in s.book.outbox ==> |s.book.outbox[id].payload| <= MAX_FIELD
  {
    LogicalSize(k, s);
    forall id | id in s.book.outbox ensures |s.book.outbox[id].payload| <= MAX_FIELD {
      OutboxSize(s.book.outbox, id);
    }
  }

  /** Widths of the source's fixed-size identifiers, keys and digests. */
  ghost predicate Widths<C>(b: Book<C>) {
    && (forall id :: id in b.inbound ==> BE.Fits(id, 32) && BE.Fits(b.inbound[id], 32))
    && (forall id :: id in b.outbox ==> BE.Fits(b.outbox[id].key, 32) && RecipientFits(b.outbox[id].recipient))
  }

  lemma KeptFits<C>(rules: Rules, k: Conf<C>, s: Logical<C>, p: Past)
    requires Kept(rules, s.book, p) && Widths(s.book) && ConfFits(k, s.book.conf) && 1 <= s.sequence <= MAX_U64
    requires OptionsOk(s.options) && rules.window == s.options.window && rules.maxOutbox == s.options.maxOutbox
    requires rules.keyOf == k.keyOf(s.book.conf)
    requires forall id :: id in s.book.outbox ==> |s.book.outbox[id].payload| <= MAX_FIELD
    ensures LogicalFits(k, s)
  {
    KeptInbound(rules, s.book, p);
    KeptOutbox(rules, s.book, p);
  }

  lemma KeptInbound<C>(rules: Rules, b: Book<C>, p: Past)
    requires InboundOk(rules, b, p) && forall id :: id in b.inbound ==> BE.Fits(id, 32) && BE.Fits(b.inbound[id], 32)
    ensures InboundFits(rules.window, (b.inbound, b.order))
  {
    assert b.inbound.Keys == SetFrom(b.order);
    forall i | 0 <= i < |b.order| ensures b.order[i] in b.inbound {
      assert b.order[i] in b.order;
    }
  }

  lemma KeptOutbox<C>(rules: Rules, b: Book<C>, p: Past)
    requires OutboxOk(rules, b, p)
    requires forall id :: id in b.outbox ==>
      BE.Fits(b.outbox[id].key, 32) && RecipientFits(b.outbox[id].recipient) && |b.outbox[id].payload| <= MAX_FIELD
    ensures OutboxFits(rules.keyOf, rules.maxOutbox, b.outbox) && NextOk(b.outbox, b.next)
  {
    assert |b.outbox.Keys| == |b.outbox|;
    forall id | id in b.outbox ensures b.outbox[id].id == id && Bound(rules.keyOf, b.outbox[id]) && id < b.next {
    }
  }

  /** The conference's own export can be imported again. */
  predicate Imports<C(==)>(k: Conf<C>, conf: C) {
    k.coder.ok(conf) && FromWire(k.coder, k.coder.enc(conf)) == Some(conf)
  }

  lemma TailPrints<C>(p: Pieces, k: Conf<C>, o: Options, t: Tail<C>)
    requires PiecesOk(p) && OptionsOk(o) && Imports(k, t.0)
    ensures Prints(TailC(p, k, o), t, [])
  {
    var items := (conf: C) => BooksC(p, k.keyOf(conf), o);
    BooksCanonical(p, k.keyOf(t.0), o);
    assert Prints(items(t.0), t.1, []);
    NestedPrints(k.coder, t.0, items(t.0).enc(t.1) + []);
    ThenPrints(Nested(k.coder), items, t, []);
  }

  lemma JoinedPrints<C>(k: Conf<C>, head: Coder<Head>, tail: Head -> Coder<Tail<C>>, s: Logical<C>)
    requires var h := (SCHEMA, (s.sequence, s.options));
      var t := (s.book.conf, ((s.book.inbound, s.book.order), (s.book.outbox, s.book.next)));
      head.ok(h) && tail(h).ok(t) && Prints(head, h, tail(h).enc(t) + []) && Prints(tail(h), t, [])
    ensures Prints(As(Then(head, tail),
       (t: (Head, Tail<C>)) => Logical(t.0.1.0, t.0.1.1, Book(t.1.0, t.1.1.0.0, t.1.1.0.1, t.1.1.1.0, t.1.1.1.1)),
       (s: Logical<C>) => ((SCHEMA, (s.sequence, s.options)),
                           (s.book.conf, ((s.book.inbound, s.book.order), (s.book.outbox, s.book.next)))),
       (s: Logical<C>) => LogicalFits(k, s)), s, [])
  {
    var h := (SCHEMA, (s.sequence, s.options));
    var t := (s.book.conf, ((s.book.inbound, s.book.order), (s.book.outbox, s.book.next)));
    ThenPrints(head, tail, (h, t), []);
  }

  lemma LogicalPrints<C>(p: Pieces, k: Conf<C>, s: Logical<C>)
    requires PiecesOk(p) && LogicalFits(k, s) && Imports(k, s.book.conf)
    ensures Prints(LogicalOver(p, k), s, [])
  {
    var items := (h: Head) => TailC(p, k, h.1.1);
    var head := (SCHEMA, (s.sequence, s.options));
    var tail := (s.book.conf, ((s.book.inbound, s.book.order), (s.book.outbox, s.book.next)));
    HeadPrints(p, head, items(head).enc(tail) + []);
    TailPrints(p, k, s.options, tail);
    TailAllowed(p, k, s.options, tail);
    JoinedPrints(k, HeadC(p), items, s);
  }

  lemma HeadPrints(p: Pieces, h: Head, rest: bytes)
    requires PiecesOk(p) && HeadFits(h)
    ensures HeadC(p).ok(h) && Prints(HeadC(p), h, rest)
  {
    HeadCanonical(p);
  }

  /** Reopening a stored book gives back the same book: the outbox, identifiers and window of every
    * committed run survive, provided the conference inside does. */
  lemma BookSurvives<C>(rules: Rules, k: Conf<C>, s: Logical<C>, p: Past)
    requires Kept(rules, s.book, p) && Widths(s.book) && Imports(k, s.book.conf)
    requires 1 <= s.sequence <= MAX_U64 && OptionsOk(s.options)
    requires rules.window == s.options.window && rules.maxOutbox == s.options.maxOutbox
    requires rules.keyOf == k.keyOf(s.book.conf)
    requires Encoded(LogicalC(k), s).Some?
    ensures Decoded(LogicalC(k), Encoded(LogicalC(k), s).value, s.sequence) == Some(s)
  {
    SizedFields(k, s);
    KeptFits(rules, k, s, p);
    PiecesAreOk();
    LogicalPrints(PiecesC(), k, s);
    PrintedDecodes(LogicalC(k), s);
  }

  lemma PrintedDecodes<C>(c: Coder<Logical<C>>, s: Logical<C>)
    requires Prints(c, s, []) && c.ok(s) && Encoded(c, s).Some?
    ensures Decoded(c, Encoded(c, s).value, s.sequence) == Some(s)
  {
    assert c.enc(s) + [] == c.enc(s);
  }
}
