/** Control-plane messages (crates/cfr-core/src/wire.rs). */
module Wire {
  import opened Base
  import opened Ops
  import opened Coders
  import opened Tlv
  import opened OpCodec
  import BE = BigEndian

  const CFR_WIRE_MARKER: nat := 0x4346_5221
  const PROTOCOL_ID: nat := 1
  const MAX_BATCH: nat := 4096

  datatype Envelope = Envelope(eph: nat, gen: nat, ct: bytes)

  /** Identifier lists are written as sets, so the message holds the set. */
  datatype Message =
    | OpMsg(op: Op)
    | Welcome(sid: nat, inviter: Id, envelope: Envelope, history: seq<Op>, pruned: set<Oid>)
    | SyncMsg(asker: Id, heads: set<Oid>)
    | Deliver(ops: seq<Op>, dropped: set<Oid>)
    | NodeKeyRequest(asker: Id, nodes: set<Oid>)
    | NodeKeyResponse(responder: Id, envelope: Envelope)

  function MessageTag(m: Message): (t: nat) {
    match m
    case OpMsg(_) => 1
    case Welcome(_, _, _, _, _) => 2
    case SyncMsg(_, _) => 3
    case Deliver(_, _) => 4
    case NodeKeyRequest(_, _) => 5
    case NodeKeyResponse(_, _) => 6
  }

  // ---------------------------------------------------------------------------------- the pieces

  predicate EnvelopeOk(e: Envelope) {
    BE.Fits(e.eph, 32) && e.gen <= MAX_U32 && |e.ct| <= MAX_FIELD
  }

  type EnvelopeFields = (nat, (nat, bytes))

  function EnvelopeC(): (c: Coder<Envelope>) {
    As(Both(Array(32), Both(U32(), Field())), (p: EnvelopeFields) => Envelope(p.0, p.1.0, p.1.1),
       (e: Envelope) => (e.eph, (e.gen, e.ct)), (e: Envelope) => EnvelopeOk(e))
  }

  lemma EnvelopeCanonical()
    ensures Canonical(EnvelopeC())
  {
    ArrayCanonical(32);
    IntCanonical();
    FieldCanonical();
    BothCanonical(U32(), Field());
    BothCanonical(Array(32), Both(U32(), Field()));
    AsCanonical(Both(Array(32), Both(U32(), Field())), (p: EnvelopeFields) => Envelope(p.0, p.1.0, p.1.1),
                (e: Envelope) => (e.eph, (e.gen, e.ct)), (e: Envelope) => EnvelopeOk(e));
  }

  function DecNested<T>(c: Coder<T>, s: bytes): (r: Option<(T, bytes)>) {
    match Field().dec(s)
    case None => None
    case Some((v, rest)) =>
      match FromWire(c, v)
      case None => None
      case Some(x) => Some((x, rest))
  }

  /** A byte string that holds exactly one encoded value. */
  function Nested<T>(c: Coder<T>): (r: Coder<T>) {
    Coder((x: T) => Field().enc(c.enc(x)), (s: bytes) => DecNested(c, s), (x: T) => c.ok(x) && |c.enc(x)| <= MAX_FIELD)
  }

  lemma NestedPrints<T>(c: Coder<T>, x: T, rest: bytes)
    requires c.ok(x) ==> FromWire(c, c.enc(x)) == Some(x)
    ensures Prints(Nested(c), x, rest)
  {
    FieldCanonical();
    assert Prints(Field(), c.enc(x), rest);
  }

  lemma NestedCanonical<T(!new)>(c: Coder<T>)
    requires Canonical(c)
    ensures Canonical(Nested(c))
  {
    FieldCanonical();
    forall x, rest ensures Prints(Nested(c), x, rest) {
      if c.ok(x) {
        WireRoundTrip(c, x);
      }
      NestedPrints(c, x, rest);
    }
    forall s ensures Parses(Nested(c), s) {
      if DecNested(c, s).Some? {
        assert Parses(Field(), s);
        WireExact(c, Field().dec(s).value.0);
      }
    }
  }

  predicate OpFits(digest: Digest, op: Op) {
    OpOk(digest, op) && |OpC(digest).enc(op)| <= MAX_FIELD
  }

  predicate BatchOk(digest: Digest, ops: seq<Op>) {
    |ops| <= MAX_BATCH && forall i :: 0 <= i < |ops| ==> OpFits(digest, ops[i])
  }

  predicate NamesOk(s: set<Oid>) {
    |s| <= MAX_BATCH && forall x :: x in s ==> BE.Fits(x, 32)
  }

  function BatchOver(digest: Digest, op: Coder<Op>): (c: Coder<seq<Op>>) {
    As(Where(List(op), (xs: seq<Op>) => |xs| <= MAX_BATCH), (xs: seq<Op>) => xs, (xs: seq<Op>) => xs,
       (xs: seq<Op>) => BatchOk(digest, xs))
  }

  function Batch(digest: Digest): (c: Coder<seq<Op>>) {
    BatchOver(digest, Nested(OpC(digest)))
  }

  function Names(): (c: Coder<set<Oid>>) {
    As(Where(IdSet(), (s: set<Oid>) => |s| <= MAX_BATCH), (s: set<Oid>) => s, (s: set<Oid>) => s,
       (s: set<Oid>) => NamesOk(s))
  }

  lemma BatchOverCanonical(digest: Digest, op: Coder<Op>)
    requires Canonical(op) && forall x :: op.ok(x) <==> OpFits(digest, x)
    ensures Canonical(BatchOver(digest, op))
  {
    ListCanonical(op);
    WhereCanonical(List(op), (xs: seq<Op>) => |xs| <= MAX_BATCH);
    AsCanonical(Where(List(op), (xs: seq<Op>) => |xs| <= MAX_BATCH), (xs: seq<Op>) => xs, (xs: seq<Op>) => xs,
                (xs: seq<Op>) => BatchOk(digest, xs));
  }

  lemma BatchCanonical(digest: Digest)
    ensures Canonical(Batch(digest))
  {
    OpCanonical(digest);
    NestedCanonical(OpC(digest));
    BatchOverCanonical(digest, Nested(OpC(digest)));
  }

  lemma NamesCanonical()
    ensures Canonical(Names())
  {
    IdSetCanonical();
    WhereCanonical(IdSet(), (s: set<Oid>) => |s| <= MAX_BATCH);
    AsCanonical(Where(IdSet(), (s: set<Oid>) => |s| <= MAX_BATCH), (s: set<Oid>) => s, (s: set<Oid>) => s,
                (s: set<Oid>) => NamesOk(s));
  }

  // ------------------------------------------------------------------------------------ messages

  predicate MessageOk(digest: Digest, m: Message) {
    match m
    case OpMsg(op) => OpFits(digest, op)
    case Welcome(sid, inviter, envelope, history, pruned) =>
      BE.Fits(sid, 32) && BE.Fits(inviter, 32) && EnvelopeOk(envelope) && BatchOk(digest, history) && NamesOk(pruned)
    case SyncMsg(asker, heads) => BE.Fits(asker, 32) && NamesOk(heads)
    case Deliver(ops, dropped) => BatchOk(digest, ops) && NamesOk(dropped)
    case NodeKeyRequest(asker, nodes) => BE.Fits(asker, 32) && NamesOk(nodes)
    case NodeKeyResponse(responder, envelope) => BE.Fits(responder, 32) && EnvelopeOk(envelope)
  }

  const NO_ENVELOPE: Envelope := Envelope(0, 0, [])

  type WelcomeFields = (nat, (nat, (Envelope, (seq<Op>, set<Oid>))))

  function WelcomeOf(m: Message): (p: WelcomeFields) {
    if m.Welcome? then (m.sid, (m.inviter, (m.envelope, (m.history, m.pruned)))) else (0, (0, (NO_ENVELOPE, ([], {}))))
  }

  function OpOf(m: Message): (op: Op) {
    if m.OpMsg? then m.op else Op(0, 0, 0, {}, Add(0), 0)
  }

  function SyncOf(m: Message): (p: (nat, set<Oid>)) {
    if m.SyncMsg? then (m.asker, m.heads) else (0, {})
  }

  function DeliverOf(m: Message): (p: (seq<Op>, set<Oid>)) {
    if m.Deliver? then (m.ops, m.dropped) else ([], {})
  }

  function RequestOf(m: Message): (p: (nat, set<Oid>)) {
    if m.NodeKeyRequest? then (m.asker, m.nodes) else (0, {})
  }

  function ResponseOf(m: Message): (p: (nat, Envelope)) {
    if m.NodeKeyResponse? then (m.responder, m.envelope) else (0, NO_ENVELOPE)
  }

  /** The coders messages are made of. */
  datatype MessageParts = MessageParts(id: Coder<nat>, envelope: Coder<Envelope>, op: Coder<Op>, batch: Coder<seq<Op>>,
                                       names: Coder<set<Oid>>)

  function PartsOf(digest: Digest): (p: MessageParts) {
    MessageParts(Array(32), EnvelopeC(), Nested(OpC(digest)), Batch(digest), Names())
  }

  ghost predicate PartsCanonical(p: MessageParts) {
    Canonical(p.id) && Canonical(p.envelope) && Canonical(p.op) && Canonical(p.batch) && Canonical(p.names)
  }

  predicate Fits(p: MessageParts, m: Message) {
    match m
    case OpMsg(op) => p.op.ok(op)
    case Welcome(sid, inviter, envelope, history, pruned) =>
      p.id.ok(sid) && p.id.ok(inviter) && p.envelope.ok(envelope) && p.batch.ok(history) && p.names.ok(pruned)
    case SyncMsg(asker, heads) => p.id.ok(asker) && p.names.ok(heads)
    case Deliver(ops, dropped) => p.batch.ok(ops) && p.names.ok(dropped)
    case NodeKeyRequest(asker, nodes) => p.id.ok(asker) && p.names.ok(nodes)
    case NodeKeyResponse(responder, envelope) => p.id.ok(responder) && p.envelope.ok(envelope)
  }

  predicate IsMessage(p: MessageParts, tag: nat, m: Message) {
    MessageTag(m) == tag && Fits(p, m)
  }

  function Payload(p: MessageParts, tag: nat): (c: Coder<Message>) {
    if tag == 1 then As(p.op, (o: Op) => OpMsg(o), (m: Message) => OpOf(m), (m: Message) => IsMessage(p, 1, m))
    else if tag == 2 then
      As(Both(p.id, Both(p.id, Both(p.envelope, Both(p.batch, p.names)))),
         (w: WelcomeFields) => Welcome(w.0, w.1.0, w.1.1.0, w.1.1.1.0, w.1.1.1.1),
         (m: Message) => WelcomeOf(m), (m: Message) => IsMessage(p, 2, m))
    else if tag == 3 then
      As(Both(p.id, p.names), (w: (nat, set<Oid>)) => SyncMsg(w.0, w.1), (m: Message) => SyncOf(m),
         (m: Message) => IsMessage(p, 3, m))
    else if tag == 4 then
      As(Both(p.batch, p.names), (w: (seq<Op>, set<Oid>)) => Deliver(w.0, w.1), (m: Message) => DeliverOf(m),
         (m: Message) => IsMessage(p, 4, m))
    else if tag == 5 then
      As(Both(p.id, p.names), (w: (nat, set<Oid>)) => NodeKeyRequest(w.0, w.1), (m: Message) => RequestOf(m),
         (m: Message) => IsMessage(p, 5, m))
    else if tag == 6 then
      As(Both(p.id, p.envelope), (w: (nat, Envelope)) => NodeKeyResponse(w.0, w.1), (m: Message) => ResponseOf(m),
         (m: Message) => IsMessage(p, 6, m))
    else Nothing()
  }

  lemma WelcomeCanonical(p: MessageParts)
    requires PartsCanonical(p)
    ensures Canonical(Payload(p, 2))
  {
    BothCanonical(p.batch, p.names);
    BothCanonical(p.envelope, Both(p.batch, p.names));
    BothCanonical(p.id, Both(p.envelope, Both(p.batch, p.names)));
    BothCanonical(p.id, Both(p.id, Both(p.envelope, Both(p.batch, p.names))));
    AsCanonical(Both(p.id, Both(p.id, Both(p.envelope, Both(p.batch, p.names)))),
                (w: WelcomeFields) => Welcome(w.0, w.1.0, w.1.1.0, w.1.1.1.0, w.1.1.1.1),
                (m: Message) => WelcomeOf(m), (m: Message) => IsMessage(p, 2, m));
  }

  lemma SyncCanonical(p: MessageParts)
    requires PartsCanonical(p)
    ensures Canonical(Payload(p, 3)) && Canonical(Payload(p, 5))
  {
    BothCanonical(p.id, p.names);
    AsCanonical(Both(p.id, p.names), (w: (nat, set<Oid>)) => SyncMsg(w.0, w.1), (m: Message) => SyncOf(m),
                (m: Message) => IsMessage(p, 3, m));
    AsCanonical(Both(p.id, p.names), (w: (nat, set<Oid>)) => NodeKeyRequest(w.0, w.1), (m: Message) => RequestOf(m),
                (m: Message) => IsMessage(p, 5, m));
  }

  lemma DeliverCanonical(p: MessageParts)
    requires PartsCanonical(p)
    ensures Canonical(Payload(p, 4)) && Canonical(Payload(p, 6))
  {
    BothCanonical(p.batch, p.names);
    AsCanonical(Both(p.batch, p.names), (w: (seq<Op>, set<Oid>)) => Deliver(w.0, w.1), (m: Message) => DeliverOf(m),
                (m: Message) => IsMessage(p, 4, m));
    BothCanonical(p.id, p.envelope);
    AsCanonical(Both(p.id, p.envelope), (w: (nat, Envelope)) => NodeKeyResponse(w.0, w.1),
                (m: Message) => ResponseOf(m),
                (m: Message) => IsMessage(p, 6, m));
  }

  lemma PayloadCanonical(p: MessageParts, tag: nat)
    requires PartsCanonical(p)
    ensures Canonical(Payload(p, tag))
  {
    if tag == 1 {
      AsCanonical(p.op, (o: Op) => OpMsg(o), (m: Message) => OpOf(m), (m: Message) => IsMessage(p, 1, m));
    } else if tag == 2 {
      WelcomeCanonical(p);
    } else if tag == 3 || tag == 5 {
      SyncCanonical(p);
    } else if tag == 4 || tag == 6 {
      DeliverCanonical(p);
    } else {
      NothingCanonical<Message>();
    }
  }

  lemma PayloadAllowed(p: MessageParts, tag: nat, m: Message)
    ensures Payload(p, tag).ok(m) <==> IsMessage(p, tag, m)
  {
  }

  lemma PartsAreCanonical(digest: Digest)
    ensures PartsCanonical(PartsOf(digest))
  {
    ArrayCanonical(32);
    EnvelopeCanonical();
    OpCanonical(digest);
    NestedCanonical(OpC(digest));
    BatchCanonical(digest);
    NamesCanonical();
  }

  type Preamble = (nat, (nat, nat))

  /** Marker, protocol number and message tag. */
  function PreambleC(): (c: Coder<Preamble>) {
    Both(Where(U64(), (n: nat) => n == CFR_WIRE_MARKER), Both(Where(U64(), (n: nat) => n == PROTOCOL_ID), U32()))
  }

  lemma PreambleCanonical()
    ensures Canonical(PreambleC())
  {
    IntCanonical();
    WhereCanonical(U64(), (n: nat) => n == CFR_WIRE_MARKER);
    WhereCanonical(U64(), (n: nat) => n == PROTOCOL_ID);
    BothCanonical(Where(U64(), (n: nat) => n == PROTOCOL_ID), U32());
    BothCanonical(Where(U64(), (n: nat) => n == CFR_WIRE_MARKER),
                  Both(Where(U64(), (n: nat) => n == PROTOCOL_ID), U32()));
  }

  predicate PreambleOk(p: Preamble) {
    p.0 == CFR_WIRE_MARKER && p.1.0 == PROTOCOL_ID && p.1.1 <= MAX_U32
  }

  lemma PreambleAllowed(p: Preamble)
    ensures PreambleC().ok(p) <==> PreambleOk(p)
  {
  }

  function MessageOver(pre: Coder<Preamble>, payload: nat -> Coder<Message>, ok: Message -> bool): (c: Coder<Message>) {
    As(Then(pre, (p: Preamble) => payload(p.1.1)), (p: (Preamble, Message)) => p.1,
       (m: Message) => ((CFR_WIRE_MARKER, (PROTOCOL_ID, MessageTag(m))), m), ok)
  }

  function MessageC(digest: Digest): (c: Coder<Message>) {
    MessageOver(PreambleC(), (tag: nat) => Payload(PartsOf(digest), tag), (m: Message) => MessageOk(digest, m))
  }

  lemma MessageOverCanonical(pre: Coder<Preamble>, payload: nat -> Coder<Message>, ok: Message -> bool)
    requires Canonical(pre) && forall p :: pre.ok(p) <==> PreambleOk(p)
    requires forall t :: Canonical(payload(t))
    requires forall t: nat, m :: payload(t).ok(m) <==> MessageTag(m) == t && ok(m)
    ensures Canonical(MessageOver(pre, payload, ok))
  {
    var items := (p: Preamble) => payload(p.1.1);
    forall p: Preamble ensures Canonical(items(p)) {
      assert Canonical(payload(p.1.1));
    }
    ThenCanonical(pre, items);
    AsCanonical(Then(pre, items), (p: (Preamble, Message)) => p.1,
                (m: Message) => ((CFR_WIRE_MARKER, (PROTOCOL_ID, MessageTag(m))), m), ok);
  }

  ghost predicate Allows(digest: Digest, p: MessageParts) {
    && (forall n: nat :: p.id.ok(n) <==> BE.Fits(n, 32))
    && (forall e :: p.envelope.ok(e) <==> EnvelopeOk(e))
    && (forall b :: p.batch.ok(b) <==> BatchOk(digest, b))
    && (forall s :: p.names.ok(s) <==> NamesOk(s))
  }

  lemma PartsAllow(digest: Digest, p: MessageParts)
    requires p == PartsOf(digest)
    ensures Allows(digest, p)
  {
  }

  lemma NestedOpOk(digest: Digest, o: Op)
    ensures Nested(OpC(digest)).ok(o) <==> OpFits(digest, o)
  {
  }

  lemma FitsFrom(digest: Digest, p: MessageParts, m: Message)
    requires Allows(digest, p) && (m.OpMsg? ==> (p.op.ok(m.op) <==> OpFits(digest, m.op)))
    ensures Fits(p, m) <==> MessageOk(digest, m)
  {
  }

  lemma FitsIsOk(digest: Digest, m: Message)
    ensures Fits(PartsOf(digest), m) <==> MessageOk(digest, m)
  {
    PartsAllow(digest, PartsOf(digest));
    if m.OpMsg? {
      NestedOpOk(digest, m.op);
    }
    FitsFrom(digest, PartsOf(digest), m);
  }

  lemma EveryMessageFits(digest: Digest)
    ensures forall m :: Fits(PartsOf(digest), m) <==> MessageOk(digest, m)
  {
    forall m ensures Fits(PartsOf(digest), m) <==> MessageOk(digest, m) {
      FitsIsOk(digest, m);
    }
  }

  lemma PreamblesAllowed()
    ensures forall p :: PreambleC().ok(p) <==> PreambleOk(p)
  {
    forall p ensures PreambleC().ok(p) <==> PreambleOk(p) {
      PreambleAllowed(p);
    }
  }

  lemma MessageWith(digest: Digest, pre: Coder<Preamble>, parts: MessageParts)
    requires Canonical(pre) && (forall p :: pre.ok(p) <==> PreambleOk(p)) && PartsCanonical(parts)
    requires forall m :: Fits(parts, m) <==> MessageOk(digest, m)
    ensures Canonical(MessageOver(pre, (tag: nat) => Payload(parts, tag), (m: Message) => MessageOk(digest, m)))
  {
    var payload := (tag: nat) => Payload(parts, tag);
    forall t: nat ensures Canonical(payload(t)) {
      PayloadCanonical(parts, t);
    }
    forall t: nat, m ensures payload(t).ok(m) <==> MessageTag(m) == t && MessageOk(digest, m) {
      PayloadAllowed(parts, t, m);
    }
    MessageOverCanonical(pre, payload, (m: Message) => MessageOk(digest, m));
  }

  lemma MessageCanonical(digest: Digest)
    ensures Canonical(MessageC(digest))
  {
    PreambleCanonical();
    PreamblesAllowed();
    PartsAreCanonical(digest);
    EveryMessageFits(digest);
    MessageWith(digest, PreambleC(), PartsOf(digest));
  }

  /** Messages survive the wire, and accepted bytes are exactly what the encoder writes. */
  lemma MessageWire(digest: Digest, m: Message, b: bytes)
    ensures MessageOk(digest, m) ==> FromWire(MessageC(digest), MessageC(digest).enc(m)) == Some(m)
    ensures FromWire(MessageC(digest), b) == Some(m) ==> MessageOk(digest, m) && b == MessageC(digest).enc(m)
  {
    MessageCanonical(digest);
    if MessageOk(digest, m) {
      WireRoundTrip(MessageC(digest), m);
    }
    if FromWire(MessageC(digest), b) == Some(m) {
      WireExact(MessageC(digest), b);
    }
  }
}
