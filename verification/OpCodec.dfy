/** Byte images of operations (crates/cfr-core/src/op.rs). */
module OpCodec {
  import opened Base
  import opened Ops
  import opened Coders
  import opened Tlv
  import BE = BigEndian

  const MAX_DEPS: nat := 256
  const MAX_RECIPIENTS: nat := 256

  /** Accepts nothing. */
  function Nothing<T>(): (c: Coder<T>) {
    Coder((_: T) => [], (_: bytes) => None, (_: T) => false)
  }

  lemma NothingCanonical<T(!new)>()
    ensures Canonical(Nothing<T>())
  {
  }

  // -------------------------------------------------------------------------------------- slices

  type Opening = Option<(nat, nat)>

  predicate OpeningOk(o: Opening) {
    o.Some? ==> o.value.0 <= MAX_U32 && BE.Fits(o.value.1, 32)
  }

  function Absent(b: bytes): (o: Opening) {
    None
  }

  function OpeningBody(flag: nat): (c: Coder<Opening>) {
    if flag == 0 then As(Raw(0), (b: bytes) => Absent(b), (_: Opening) => [], (o: Opening) => o == None)
    else if flag == 1 then
      As(Both(U32(), Array(32)), (p: (nat, nat)) => Some(p), (o: Opening) => if o.Some? then o.value else (0, 0),
         (o: Opening) => o.Some? && OpeningOk(o))
    else Nothing()
  }

  /** Presence flag, then the generation and ephemeral key when present. */
  function OpeningC(): (c: Coder<Opening>) {
    As(Then(U32(), (n: nat) => OpeningBody(n)), (p: (nat, Opening)) => p.1,
       (o: Opening) => (if o == None then 0 else 1, o), (o: Opening) => OpeningOk(o))
  }

  lemma OpeningBodyCanonical(n: nat)
    ensures Canonical(OpeningBody(n))
  {
    if n == 0 {
      RawCanonical(0);
      AsCanonical(Raw(0), (b: bytes) => Absent(b), (_: Opening) => [], (o: Opening) => o == None);
    } else if n == 1 {
      IntCanonical();
      ArrayCanonical(32);
      BothCanonical(U32(), Array(32));
      AsCanonical(Both(U32(), Array(32)), (p: (nat, nat)) => Some(p),
                  (o: Opening) => if o.Some? then o.value else (0, 0),
                  (o: Opening) => o.Some? && OpeningOk(o));
    } else {
      NothingCanonical<Opening>();
    }
  }

  lemma OpeningCanonical()
    ensures Canonical(OpeningC())
  {
    IntCanonical();
    var items := (n: nat) => OpeningBody(n);
    forall n: nat ensures Canonical(items(n)) {
      OpeningBodyCanonical(n);
    }
    OpeningOver(U32(), items);
  }

  lemma OpeningOver(tag: Coder<nat>, items: nat -> Coder<Opening>)
    requires Canonical(tag) && (forall n: nat :: Canonical(items(n))) && (forall n: nat :: n <= 1 ==> tag.ok(n))
    requires forall n: nat, o :: items(n).ok(o) <==> OpeningBody(n).ok(o)
    ensures Canonical(As(Then(tag, items), (p: (nat, Opening)) => p.1,
                         (o: Opening) => (if o == None then 0 else 1, o), (o: Opening) => OpeningOk(o)))
  {
    ThenCanonical(tag, items);
    AsCanonical(Then(tag, items), (p: (nat, Opening)) => p.1,
                (o: Opening) => (if o == None then 0 else 1, o), (o: Opening) => OpeningOk(o));
  }

  type SliceFields = (nat, (Opening, (nat, bytes)))

  function SliceParts(): (c: Coder<SliceFields>) {
    Both(Array(32), Both(OpeningC(), Both(U64(), Field())))
  }

  function SliceC(): (c: Coder<Slice>) {
    As(SliceParts(), (p: SliceFields) => Slice(p.0, p.1.0, p.1.1.0, p.1.1.1),
       (s: Slice) => (s.to, (s.establish, (s.seqno, s.ct))), (s: Slice) => SliceOk(s))
  }

  predicate SliceOk(s: Slice) {
    BE.Fits(s.to, 32) && OpeningOk(s.establish) && s.seqno <= MAX_U64 && |s.ct| <= MAX_FIELD
  }

  lemma SlicePartsCanonical()
    ensures Canonical(SliceParts())
  {
    ArrayCanonical(32);
    OpeningCanonical();
    IntCanonical();
    FieldCanonical();
    BothCanonical(U64(), Field());
    BothCanonical(OpeningC(), Both(U64(), Field()));
    BothCanonical(Array(32), Both(OpeningC(), Both(U64(), Field())));
  }

  lemma SliceCanonical()
    ensures Canonical(SliceC())
  {
    SlicePartsCanonical();
    AsCanonical(SliceParts(), (p: SliceFields) => Slice(p.0, p.1.0, p.1.1.0, p.1.1.1),
                (s: Slice) => (s.to, (s.establish, (s.seqno, s.ct))), (s: Slice) => SliceOk(s));
  }

  // -------------------------------------------------------------------------------------- bodies

  function KindOf(b: Body): (k: nat)
    ensures 1 <= k <= 6
  {
    match b
    case Add(_) => 1
    case Remove(_) => 2
    case Prekeys(_, _) => 3
    case Contrib(_, _, _, _, _) => 4
    case Accuse(_, _, _, _) => 5
    case PrekeyRequest(_) => 6
  }

  predicate IdsOk(ids: seq<Id>) {
    |ids| <= MAX_RECIPIENTS && forall i :: 0 <= i < |ids| ==> BE.Fits(ids[i], 32)
  }

  predicate SlicesOk(ss: seq<Slice>) {
    |ss| <= MAX_RECIPIENTS && forall i :: 0 <= i < |ss| ==> SliceOk(ss[i])
  }

  predicate OidsOk(s: set<Oid>) {
    |s| <= MAX_DEPS && forall x :: x in s ==> BE.Fits(x, 32)
  }

  /** The bounds the decoder enforces and the field widths of the source's types. */
  predicate BodyOk(b: Body) {
    match b
    case Add(who) => BE.Fits(who, 32)
    case Remove(who) => BE.Fits(who, 32)
    case Prekeys(gen, pk) => gen <= MAX_U32 && BE.Fits(pk, 32)
    case Contrib(cid, cparents, recips, slices, view) =>
      BE.Fits(cid, 32) && OidsOk(cparents) && IdsOk(recips) && SlicesOk(slices) && BE.Fits(view, 32)
    case Accuse(who, coid, mk, seqno) => BE.Fits(who, 32) && BE.Fits(coid, 32) && BE.Fits(mk, 32) && seqno <= MAX_U64
    case PrekeyRequest(targets) => IdsOk(targets)
  }

  function Ids(): (c: Coder<seq<Id>>) {
    As(Where(List(Array(32)), (xs: seq<Id>) => |xs| <= MAX_RECIPIENTS), (xs: seq<Id>) => xs, (xs: seq<Id>) => xs,
       (xs: seq<Id>) => IdsOk(xs))
  }

  function Slices(): (c: Coder<seq<Slice>>) {
    As(Where(List(SliceC()), (xs: seq<Slice>) => |xs| <= MAX_RECIPIENTS), (xs: seq<Slice>) => xs,
       (xs: seq<Slice>) => xs,
       (xs: seq<Slice>) => SlicesOk(xs))
  }

  function Oids(): (c: Coder<set<Oid>>) {
    As(Where(IdSet(), (s: set<Oid>) => |s| <= MAX_DEPS), (s: set<Oid>) => s, (s: set<Oid>) => s,
       (s: set<Oid>) => OidsOk(s))
  }

  lemma IdsCanonical()
    ensures Canonical(Ids())
  {
    ArrayCanonical(32);
    ListCanonical(Array(32));
    WhereCanonical(List(Array(32)), (xs: seq<Id>) => |xs| <= MAX_RECIPIENTS);
    AsCanonical(Where(List(Array(32)), (xs: seq<Id>) => |xs| <= MAX_RECIPIENTS), (xs: seq<Id>) => xs,
                (xs: seq<Id>) => xs,
                (xs: seq<Id>) => IdsOk(xs));
  }

  lemma SlicesCanonical()
    ensures Canonical(Slices())
  {
    SliceCanonical();
    ListCanonical(SliceC());
    WhereCanonical(List(SliceC()), (xs: seq<Slice>) => |xs| <= MAX_RECIPIENTS);
    AsCanonical(Where(List(SliceC()), (xs: seq<Slice>) => |xs| <= MAX_RECIPIENTS), (xs: seq<Slice>) => xs,
                (xs: seq<Slice>) => xs, (xs: seq<Slice>) => SlicesOk(xs));
  }

  lemma OidsCanonical()
    ensures Canonical(Oids())
  {
    IdSetCanonical();
    WhereCanonical(IdSet(), (s: set<Oid>) => |s| <= MAX_DEPS);
    AsCanonical(Where(IdSet(), (s: set<Oid>) => |s| <= MAX_DEPS), (s: set<Oid>) => s, (s: set<Oid>) => s,
                (s: set<Oid>) => OidsOk(s));
  }

  type ContribFields = (nat, (set<Oid>, (seq<Id>, (seq<Slice>, nat))))
  type AccuseFields = (nat, (nat, (nat, nat)))

  function WhoOf(b: Body): (who: Id) {
    if b.Add? || b.Remove? then b.who else 0
  }

  function PrekeyOf(b: Body): (p: (nat, nat)) {
    if b.Prekeys? then (b.gen, b.pk) else (0, 0)
  }

  function ContribOf(b: Body): (p: ContribFields) {
    if b.Contrib? then (b.cid, (b.cparents, (b.recips, (b.slices, b.view)))) else (0, ({}, ([], ([], 0))))
  }

  function AccuseOf(b: Body): (p: AccuseFields) {
    if b.Accuse? then (b.who, (b.coid, (b.mk, b.seqno))) else (0, (0, (0, 0)))
  }

  function TargetsOf(b: Body): (t: seq<Id>) {
    if b.PrekeyRequest? then b.targets else []
  }

  /** The coders bodies are made of. */
  datatype Parts = Parts(
    id: Coder<nat>, short: Coder<nat>, long: Coder<nat>,
    oids: Coder<set<Oid>>, ids: Coder<seq<Id>>, slices: Coder<seq<Slice>>)

  function PartsC(): (p: Parts) {
    Parts(Array(32), U32(), U64(), Oids(), Ids(), Slices())
  }

  ghost predicate PartsCanonical(p: Parts) {
    && Canonical(p.id) && Canonical(p.short) && Canonical(p.long)
    && Canonical(p.oids) && Canonical(p.ids) && Canonical(p.slices)
  }

  predicate Fits(p: Parts, b: Body) {
    match b
    case Add(who) => p.id.ok(who)
    case Remove(who) => p.id.ok(who)
    case Prekeys(gen, pk) => p.short.ok(gen) && p.id.ok(pk)
    case Contrib(cid, cparents, recips, slices, view) =>
      p.id.ok(cid) && p.oids.ok(cparents) && p.ids.ok(recips) && p.slices.ok(slices) && p.id.ok(view)
    case Accuse(who, coid, mk, seqno) => p.id.ok(who) && p.id.ok(coid) && p.id.ok(mk) && p.long.ok(seqno)
    case PrekeyRequest(targets) => p.ids.ok(targets)
  }

  predicate IsKind(p: Parts, kind: nat, b: Body) {
    KindOf(b) == kind && Fits(p, b)
  }

  /** The body is read after its kind, which is written earlier in the image. */
  function BodyC(p: Parts, kind: nat): (c: Coder<Body>) {
    if kind == 1 then As(p.id, (w: Id) => Add(w), (b: Body) => WhoOf(b), (b: Body) => IsKind(p, 1, b))
    else if kind == 2 then As(p.id, (w: Id) => Remove(w), (b: Body) => WhoOf(b), (b: Body) => IsKind(p, 2, b))
    else if kind == 3 then
      As(Both(p.short, p.id), (f: (nat, nat)) => Prekeys(f.0, f.1), (b: Body) => PrekeyOf(b),
         (b: Body) => IsKind(p, 3, b))
    else if kind == 4 then
      As(Both(p.id, Both(p.oids, Both(p.ids, Both(p.slices, p.id)))),
         (f: ContribFields) => Contrib(f.0, f.1.0, f.1.1.0, f.1.1.1.0, f.1.1.1.1),
         (b: Body) => ContribOf(b), (b: Body) => IsKind(p, 4, b))
    else if kind == 5 then
      As(Both(p.id, Both(p.id, Both(p.id, p.long))), (f: AccuseFields) => Accuse(f.0, f.1.0, f.1.1.0, f.1.1.1),
         (b: Body) => AccuseOf(b), (b: Body) => IsKind(p, 5, b))
    else if kind == 6 then As(p.ids, (t: seq<Id>) => PrekeyRequest(t), (b: Body) => TargetsOf(b),
                              (b: Body) => IsKind(p, 6, b))
    else Nothing()
  }

  lemma PartsAreCanonical()
    ensures PartsCanonical(PartsC())
  {
    ArrayCanonical(32);
    IntCanonical();
    OidsCanonical();
    IdsCanonical();
    SlicesCanonical();
  }

  lemma ContribCanonical(p: Parts)
    requires PartsCanonical(p)
    ensures Canonical(BodyC(p, 4))
  {
    BothCanonical(p.slices, p.id);
    BothCanonical(p.ids, Both(p.slices, p.id));
    BothCanonical(p.oids, Both(p.ids, Both(p.slices, p.id)));
    BothCanonical(p.id, Both(p.oids, Both(p.ids, Both(p.slices, p.id))));
    AsCanonical(Both(p.id, Both(p.oids, Both(p.ids, Both(p.slices, p.id)))),
                (f: ContribFields) => Contrib(f.0, f.1.0, f.1.1.0, f.1.1.1.0, f.1.1.1.1),
                (b: Body) => ContribOf(b), (b: Body) => IsKind(p, 4, b));
  }

  lemma AccuseCanonical(p: Parts)
    requires PartsCanonical(p)
    ensures Canonical(BodyC(p, 5))
  {
    BothCanonical(p.id, p.long);
    BothCanonical(p.id, Both(p.id, p.long));
    BothCanonical(p.id, Both(p.id, Both(p.id, p.long)));
    AsCanonical(Both(p.id, Both(p.id, Both(p.id, p.long))), (f: AccuseFields) => Accuse(f.0, f.1.0, f.1.1.0, f.1.1.1),
                (b: Body) => AccuseOf(b), (b: Body) => IsKind(p, 5, b));
  }

  lemma PrekeysCanonical(p: Parts)
    requires PartsCanonical(p)
    ensures Canonical(BodyC(p, 3))
  {
    BothCanonical(p.short, p.id);
    AsCanonical(Both(p.short, p.id), (f: (nat, nat)) => Prekeys(f.0, f.1), (b: Body) => PrekeyOf(b),
                (b: Body) => IsKind(p, 3, b));
  }

  lemma BodyCanonical(p: Parts, kind: nat)
    requires PartsCanonical(p)
    ensures Canonical(BodyC(p, kind))
  {
    if kind == 1 {
      AsCanonical(p.id, (w: Id) => Add(w), (b: Body) => WhoOf(b), (b: Body) => IsKind(p, 1, b));
    } else if kind == 2 {
      AsCanonical(p.id, (w: Id) => Remove(w), (b: Body) => WhoOf(b), (b: Body) => IsKind(p, 2, b));
    } else if kind == 3 {
      PrekeysCanonical(p);
    } else if kind == 4 {
      ContribCanonical(p);
    } else if kind == 5 {
      AccuseCanonical(p);
    } else if kind == 6 {
      AsCanonical(p.ids, (t: seq<Id>) => PrekeyRequest(t), (b: Body) => TargetsOf(b), (b: Body) => IsKind(p, 6, b));
    } else {
      NothingCanonical<Body>();
    }
  }

  // ---------------------------------------------------------------------------------- operations

  /** What an author signs. */
  datatype Content = Content(sid: nat, author: Id, deps: set<Oid>, body: Body)

  predicate ContentOk(c: Content) {
    BE.Fits(c.sid, 32) && BE.Fits(c.author, 32) && OidsOk(c.deps) && BodyOk(c.body)
  }

  type HeaderFields = (nat, (nat, (nat, set<Oid>)))

  function ImageOver(p: Parts): (c: Coder<Content>) {
    As(Then(Both(p.id, Both(p.short, Both(p.id, p.oids))), (h: HeaderFields) => BodyC(p, h.1.0)),
       (f: (HeaderFields, Body)) => Content(f.0.0, f.0.1.1.0, f.0.1.1.1, f.1),
       (c: Content) => ((c.sid, (KindOf(c.body), (c.author, c.deps))), c.body), (c: Content) => ContentFits(p, c))
  }

  predicate ContentFits(p: Parts, c: Content) {
    p.id.ok(c.sid) && p.id.ok(c.author) && p.oids.ok(c.deps) && Fits(p, c.body)
  }

  /** Session, kind, author, dependencies and body: the bytes that are hashed and signed. */
  function Image(): (c: Coder<Content>) {
    ImageOver(PartsC())
  }

  lemma BodyAllowed(p: Parts, kind: nat, b: Body)
    ensures BodyC(p, kind).ok(b) <==> IsKind(p, kind, b)
  {
  }

  lemma ImageOverCanonical(p: Parts)
    requires PartsCanonical(p) && forall k: nat :: 1 <= k <= 6 ==> p.short.ok(k)
    ensures Canonical(ImageOver(p))
  {
    var head := Both(p.id, Both(p.short, Both(p.id, p.oids)));
    BothCanonical(p.id, p.oids);
    BothCanonical(p.short, Both(p.id, p.oids));
    BothCanonical(p.id, Both(p.short, Both(p.id, p.oids)));
    var items := (h: HeaderFields) => BodyC(p, h.1.0);
    forall h: HeaderFields ensures Canonical(items(h)) {
      BodyCanonical(p, h.1.0);
    }
    forall h: HeaderFields, b ensures items(h).ok(b) <==> IsKind(p, h.1.0, b) {
      BodyAllowed(p, h.1.0, b);
    }
    ImageFrom(p, head, items);
  }

  lemma ImageFrom(p: Parts, head: Coder<HeaderFields>, items: HeaderFields -> Coder<Body>)
    requires Canonical(head) && (forall h :: Canonical(items(h))) && forall k: nat :: 1 <= k <= 6 ==> p.short.ok(k)
    requires forall h: HeaderFields :: head.ok(h) <==>
      p.id.ok(h.0) && p.short.ok(h.1.0) && p.id.ok(h.1.1.0) && p.oids.ok(h.1.1.1)
    requires forall h: HeaderFields, b :: items(h).ok(b) <==> IsKind(p, h.1.0, b)
    ensures Canonical(As(Then(head, items), (f: (HeaderFields, Body)) => Content(f.0.0, f.0.1.1.0, f.0.1.1.1, f.1),
       (c: Content) => ((c.sid, (KindOf(c.body), (c.author, c.deps))), c.body), (c: Content) => ContentFits(p, c)))
  {
    ThenCanonical(head, items);
    AsCanonical(Then(head, items), (f: (HeaderFields, Body)) => Content(f.0.0, f.0.1.1.0, f.0.1.1.1, f.1),
                (c: Content) => ((c.sid, (KindOf(c.body), (c.author, c.deps))), c.body),
                (c: Content) => ContentFits(p, c));
  }

  lemma ImageCanonical()
    ensures Canonical(Image())
  {
    PartsAreCanonical();
    ImageOverCanonical(PartsC());
  }

  lemma ImageAllowed(c: Content)
    ensures Image().ok(c) <==> ContentOk(c)
  {
  }

  /** A signature covers one meaning: equal signed bytes mean equal session, author, dependencies and body. */
  lemma SignedImageInjective(c: Content, d: Content)
    requires ContentOk(c) && ContentOk(d) && Image().enc(c) == Image().enc(d)
    ensures c == d
  {
    ImageCanonical();
    ImageAllowed(c);
    ImageAllowed(d);
    assert Image().enc(c) + [] == Image().enc(d) + [];
    PrefixFree(Image(), c, d, [], []);
  }

  function ContentOf(op: Op): (c: Content) {
    Content(op.sid, op.author, op.deps, op.body)
  }

  /** `digest` is the hash of the signed image and the signature. */
  type Digest = (bytes, nat) -> Oid

  predicate OpOk(digest: Digest, op: Op) {
    ContentOk(ContentOf(op)) && BE.Fits(op.sig, 64) && op.oid == digest(Image().enc(ContentOf(op)), op.sig)
  }

  function Rebuilt(digest: Digest, c: Content, sig: nat): (op: Op) {
    Op(digest(Image().enc(c), sig), c.sid, c.author, c.deps, c.body, sig)
  }

  function OpC(digest: Digest): (c: Coder<Op>) {
    As(Both(Image(), Array(64)), (p: (Content, nat)) => Rebuilt(digest, p.0, p.1), (op: Op) => (ContentOf(op), op.sig),
       (op: Op) => OpOk(digest, op))
  }

  /** Rebuilding from an image coder and a signature coder; `ok` is what both allow. */
  lemma OpFrom(digest: Digest, image: Coder<Content>, sig: Coder<nat>, ok: Op -> bool)
    requires Canonical(image) && Canonical(sig)
    requires forall op :: ok(op) <==>
      image.ok(ContentOf(op)) && sig.ok(op.sig) && op == Rebuilt(digest, ContentOf(op), op.sig)
    ensures Canonical(As(Both(image, sig), (p: (Content, nat)) => Rebuilt(digest, p.0, p.1),
                         (op: Op) => (ContentOf(op), op.sig), ok))
  {
    BothCanonical(image, sig);
    forall p | Both(image, sig).ok(p)
      ensures ok(Rebuilt(digest, p.0, p.1)) && ContentOf(Rebuilt(digest, p.0, p.1)) == p.0
    {
    }
    AsCanonical(Both(image, sig), (p: (Content, nat)) => Rebuilt(digest, p.0, p.1), (op: Op) => (ContentOf(op), op.sig),
                ok);
  }

  lemma OpAllowed(digest: Digest, op: Op)
    ensures OpOk(digest, op) <==>
      Image().ok(ContentOf(op)) && Array(64).ok(op.sig) && op == Rebuilt(digest, ContentOf(op), op.sig)
  {
    ImageAllowed(ContentOf(op));
  }

  lemma OpCanonical(digest: Digest)
    ensures Canonical(OpC(digest))
  {
    ImageCanonical();
    ArrayCanonical(64);
    forall op ensures OpOk(digest, op) <==>
      Image().ok(ContentOf(op)) && Array(64).ok(op.sig) && op == Rebuilt(digest, ContentOf(op), op.sig)
    {
      OpAllowed(digest, op);
    }
    OpFrom(digest, Image(), Array(64), (op: Op) => OpOk(digest, op));
  }

  /** Operations survive the wire, and accepted bytes are exactly what the encoder writes. */
  lemma OpWire(digest: Digest, op: Op, b: bytes)
    ensures OpOk(digest, op) ==> FromWire(OpC(digest), OpC(digest).enc(op)) == Some(op)
    ensures FromWire(OpC(digest), b) == Some(op) ==> OpOk(digest, op) && b == OpC(digest).enc(op)
  {
    OpCanonical(digest);
    if OpOk(digest, op) {
      WireRoundTrip(OpC(digest), op);
    }
    if FromWire(OpC(digest), b) == Some(op) {
      WireExact(OpC(digest), b);
    }
  }

  /** The digest tells the signed images of the two operations apart. */
  ghost predicate Distinguishes(digest: Digest, p: Op, q: Op) {
    digest(Image().enc(ContentOf(p)), p.sig) == digest(Image().enc(ContentOf(q)), q.sig) ==>
      Image().enc(ContentOf(p)) == Image().enc(ContentOf(q)) && p.sig == q.sig
  }

  /** Where the digest does not collide on them, an identifier names one operation: every field of it is
    * covered. */
  lemma OidIdentifies(digest: Digest, p: Op, q: Op)
    requires OpOk(digest, p) && OpOk(digest, q) && p.oid == q.oid
    requires Distinguishes(digest, p, q)
    ensures p == q
  {
    OidCovers(digest, p);
    OidCovers(digest, q);
    SignedImageInjective(ContentOf(p), ContentOf(q));
  }

  lemma OidCovers(digest: Digest, op: Op)
    requires OpOk(digest, op)
    ensures ContentOk(ContentOf(op)) && op.oid == digest(Image().enc(ContentOf(op)), op.sig)
    ensures op == Op(op.oid, ContentOf(op).sid, ContentOf(op).author, ContentOf(op).deps, ContentOf(op).body, op.sig)
  {
  }
}
