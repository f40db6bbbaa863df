/** Saving and restoring the protector (crates/cfr-media/src/state.rs). */
module MediaState {
  import opened Base
  import opened Ops
  import opened Coders
  import opened MapCoder
  import opened ReplayModule
  import opened RatchetModule
  import opened Media
  import BE = BigEndian

  const MAX_MEDIA_STATE_BYTES: nat := 0x40_0000
  const MAX_RETAINED_VERSIONS: nat := 64
  const MAX_ROSTER: nat := 256

  // ------------------------------------------------------------------------------- 64-bit words

  function Pow2(w: nat): (n: nat) {
    if w == 0 then 1 else 2 * Pow2(w - 1)
  }

  function Value(b: seq<bool>): (n: nat) {
    if b == [] then 0 else (if b[0] then 1 else 0) + 2 * Value(b[1..])
  }

  function Bits(n: nat, w: nat): (b: seq<bool>)
    ensures |b| == w
  {
    if w == 0 then [] else [n % 2 == 1] + Bits(n / 2, w - 1)
  }

  lemma {:induction false} BitsValue(b: seq<bool>)
    ensures Value(b) < Pow2(|b|) && Bits(Value(b), |b|) == b
  {
    if b != [] {
      BitsValue(b[1..]);
      assert Value(b) / 2 == Value(b[1..]);
      assert b == [b[0]] + b[1..];
    }
  }

  lemma {:induction false} ValueBits(n: nat, w: nat)
    requires n < Pow2(w)
    ensures Value(Bits(n, w)) == n
  {
    if w > 0 {
      ValueBits(n / 2, w - 1);
      assert Bits(n, w)[1..] == Bits(n / 2, w - 1);
    }
  }

  lemma {:induction false} PowersAgree(w: nat)
    ensures Pow2(8 * w) == BE.Pow256(w)
  {
    if w > 0 {
      PowersAgree(w - 1);
      var k := 8 * (w - 1);
      assert Pow2(k + 2) == 2 * Pow2(k + 1) && Pow2(k + 4) == 2 * Pow2(k + 3);
      assert Pow2(k + 6) == 2 * Pow2(k + 5) && Pow2(k + 8) == 2 * Pow2(k + 7);
    }
  }

  function WordOf(n: nat): (w: Word) {
    Bits(n, WINDOW)
  }

  function WordC(): (c: Coder<Word>) {
    As(Number(8), (n: nat) => WordOf(n), (w: Word) => Value(w), (_: Word) => true)
  }

  lemma WordCanonical()
    ensures Canonical(WordC())
  {
    NumberCanonical(8);
    PowersAgree(8);
    forall n: nat | BE.Fits(n, 8) ensures Value(WordOf(n)) == n {
      ValueBits(n, WINDOW);
    }
    forall w: Word ensures BE.Fits(Value(w), 8) && WordOf(Value(w)) == w {
      BitsValue(w);
    }
    AsCanonical(Number(8), (n: nat) => WordOf(n), (w: Word) => Value(w), (_: Word) => true);
  }

  function AsKey(b: bytes): (k: Key) {
    if |b| == 32 then b else seq(32, _ => 0 as byte)
  }

  function KeyC(): (c: Coder<Key>) {
    As(Raw(32), (b: bytes) => AsKey(b), (k: Key) => k, (_: Key) => true)
  }

  function RatchetC(): (c: Coder<Ratchet>) {
    As(Both(KeyC(), Number(8)), (p: (Key, nat)) => Ratchet(p.0, p.1), (r: Ratchet) => (r.chain, r.epoch),
       (r: Ratchet) => BE.Fits(r.epoch, 8))
  }

  lemma RatchetCanonical()
    ensures Canonical(RatchetC())
  {
    NumberCanonical(8);
    BothCanonical(KeyC(), Number(8));
    AsCanonical(Both(KeyC(), Number(8)), (p: (Key, nat)) => Ratchet(p.0, p.1), (r: Ratchet) => (r.chain, r.epoch),
                (r: Ratchet) => BE.Fits(r.epoch, 8));
  }

  type WindowFields = (nat, (Word, bool))

  function WindowC(): (c: Coder<Window>) {
    As(Both(Number(8), Both(WordC(), Flag())), (p: WindowFields) => Window(p.0, p.1.0, p.1.1),
       (w: Window) => (w.high, (w.seen, w.started)), (w: Window) => BE.Fits(w.high, 8))
  }

  lemma WindowCanonical()
    ensures Canonical(WindowC())
  {
    NumberCanonical(8);
    WordCanonical();
    FlagCanonical();
    BothCanonical(WordC(), Flag());
    BothCanonical(Number(8), Both(WordC(), Flag()));
    AsCanonical(Both(Number(8), Both(WordC(), Flag())), (p: WindowFields) => Window(p.0, p.1.0, p.1.1),
                (w: Window) => (w.high, (w.seen, w.started)), (w: Window) => BE.Fits(w.high, 8));
  }

  // ---------------------------------------------------------------------------------- receivers

  /** The importer's check of one receiver. */
  predicate ReceiverSound(e: Receiver) {
    && (!e.window.started ==> e.window.high == 0 && e.window.seen == Blank())
    && (e.window.started ==> e.window.seen[0] && e.ratchet.epoch == e.window.high / EPOCH)
  }

  predicate ReceiverFits(e: Receiver) {
    BE.Fits(e.ratchet.epoch, 8) && BE.Fits(e.window.high, 8) && ReceiverSound(e)
  }

  function ReceiverC(): (c: Coder<Receiver>) {
    As(Where(Both(RatchetC(), WindowC()), (p: (Ratchet, Window)) => ReceiverSound(Receiver(p.0, p.1))),
       (p: (Ratchet, Window)) => Receiver(p.0, p.1), (e: Receiver) => (e.ratchet, e.window),
       (e: Receiver) => ReceiverFits(e))
  }

  lemma ReceiverCanonical()
    ensures Canonical(ReceiverC())
  {
    RatchetCanonical();
    WindowCanonical();
    BothCanonical(RatchetC(), WindowC());
    var a := Where(Both(RatchetC(), WindowC()), (p: (Ratchet, Window)) => ReceiverSound(Receiver(p.0, p.1)));
    WhereCanonical(Both(RatchetC(), WindowC()), (p: (Ratchet, Window)) => ReceiverSound(Receiver(p.0, p.1)));
    AsCanonical(a, (p: (Ratchet, Window)) => Receiver(p.0, p.1), (e: Receiver) => (e.ratchet, e.window),
                (e: Receiver) => ReceiverFits(e));
  }

  /** Only senders of the roster other than oneself have receivers. */
  function ReceiverFor(mine: Tag, roster: map<Tag, Id>, tag: Tag): (c: Coder<Receiver>) {
    Where(ReceiverC(), (_: Receiver) => tag != mine && tag in roster)
  }

  function ReceiversC(mine: Tag, roster: map<Tag, Id>): (c: Coder<map<Tag, Receiver>>) {
    MapC((tag: nat) => ReceiverFor(mine, roster, tag), 8, |roster.Keys|)
  }

  lemma ReceiversCanonical(mine: Tag, roster: map<Tag, Id>)
    requires |roster.Keys| <= MAX_U32
    ensures Canonical(ReceiversC(mine, roster))
  {
    ReceiverCanonical();
    var item := (tag: nat) => ReceiverFor(mine, roster, tag);
    forall tag: nat ensures Canonical(item(tag)) {
      WhereCanonical(ReceiverC(), (_: Receiver) => tag != mine && tag in roster);
    }
    MapCanonical(item, 8, |roster.Keys|);
  }

  predicate RecvFits(mine: Tag, roster: map<Tag, Id>, recv: map<Tag, Receiver>) {
    && |recv.Keys| <= |roster.Keys|
    && forall t :: t in recv ==> BE.Fits(t, 8) && t != mine && t in roster && ReceiverFits(recv[t])
  }

  lemma ReceiversAllowed(mine: Tag, roster: map<Tag, Id>, recv: map<Tag, Receiver>)
    ensures ReceiversC(mine, roster).ok(recv) <==> RecvFits(mine, roster, recv)
  {
    var item := (tag: nat) => ReceiverFor(mine, roster, tag);
    forall t | t in recv ensures item(t).ok(recv[t]) <==> ReceiverFits(recv[t]) && t != mine && t in roster {
    }
  }

  // ------------------------------------------------------------------------------------- roster

  function MemberC(c: Crypto, tag: Tag): (r: Coder<Id>) {
    Where(Number(32), (i: Id) => c.tagOf(i) == tag)
  }

  function RosterC(c: Crypto): (r: Coder<map<Tag, Id>>) {
    MapC((tag: nat) => MemberC(c, tag), 8, MAX_ROSTER)
  }

  lemma RosterCanonical(c: Crypto)
    ensures Canonical(RosterC(c))
  {
    NumberCanonical(32);
    var item := (tag: nat) => MemberC(c, tag);
    forall tag: nat ensures Canonical(item(tag)) {
      WhereCanonical(Number(32), (i: Id) => c.tagOf(i) == tag);
    }
    MapCanonical(item, 8, MAX_ROSTER);
  }

  predicate RosterFits(c: Crypto, roster: map<Tag, Id>) {
    && |roster.Keys| <= MAX_ROSTER
    && forall t :: t in roster ==> BE.Fits(t, 8) && BE.Fits(roster[t], 32) && c.tagOf(roster[t]) == t
  }

  lemma RosterAllowed(c: Crypto, roster: map<Tag, Id>)
    ensures RosterC(c).ok(roster) <==> RosterFits(c, roster)
  {
    var item := (tag: nat) => MemberC(c, tag);
    forall t | t in roster ensures item(t).ok(roster[t]) <==> BE.Fits(roster[t], 32) && c.tagOf(roster[t]) == t {
    }
  }

  // ----------------------------------------------------------------------------------- versions

  type VersionHead = (nat, (Key, map<Tag, Id>))
  type VersionTail = (Ratchet, (map<Tag, Receiver>, nat))

  predicate HeadFits(c: Crypto, h: VersionHead) {
    BE.Fits(h.0, 8) && RosterFits(c, h.1.1)
  }

  predicate TailFits(mine: Tag, roster: map<Tag, Id>, t: VersionTail) {
    BE.Fits(t.0.epoch, 8) && RecvFits(mine, roster, t.1.0) && BE.Fits(t.1.1, 8)
  }

  function HeadC(c: Crypto): (r: Coder<VersionHead>) {
    Both(Number(8), Both(KeyC(), RosterC(c)))
  }

  function TailC(mine: Tag, roster: map<Tag, Id>): (r: Coder<VersionTail>) {
    Both(RatchetC(), Both(ReceiversC(mine, roster), Number(8)))
  }

  lemma HeadCanonical(c: Crypto)
    ensures Canonical(HeadC(c)) && forall h :: HeadC(c).ok(h) <==> HeadFits(c, h)
  {
    NumberCanonical(8);
    RosterCanonical(c);
    BothCanonical(KeyC(), RosterC(c));
    BothCanonical(Number(8), Both(KeyC(), RosterC(c)));
    forall h: VersionHead ensures HeadC(c).ok(h) <==> HeadFits(c, h) {
      RosterAllowed(c, h.1.1);
    }
  }

  lemma TailCanonical(mine: Tag, roster: map<Tag, Id>)
    requires |roster.Keys| <= MAX_ROSTER
    ensures Canonical(TailC(mine, roster)) && forall t :: TailC(mine, roster).ok(t) <==> TailFits(mine, roster, t)
  {
    RatchetCanonical();
    ReceiversCanonical(mine, roster);
    NumberCanonical(8);
    BothCanonical(ReceiversC(mine, roster), Number(8));
    BothCanonical(RatchetC(), Both(ReceiversC(mine, roster), Number(8)));
    forall t: VersionTail ensures TailC(mine, roster).ok(t) <==> TailFits(mine, roster, t) {
      ReceiversAllowed(mine, roster, t.1.0);
    }
  }

  /** The importer's checks of one version. */
  predicate VersionFits(c: Crypto, mine: Tag, context: Context, v: VersionKeys) {
    && HeadFits(c, (v.version, (v.key, v.roster)))
    && TailFits(mine, v.roster, (v.send, (v.recv, v.counter)))
    && c.contextOf(v.version) == context
    && v.send.epoch == SendEpoch(v.counter)
  }

  function VersionOver(c: Crypto, mine: Tag, context: Context, head: Coder<VersionHead>,
                       tail: VersionHead -> Coder<VersionTail>)
    : (r: Coder<VersionKeys>)
  {
    As(Where(Then(head, tail),
             (p: (VersionHead, VersionTail)) => c.contextOf(p.0.0) == context && p.1.0.epoch == SendEpoch(p.1.1.1)),
       (p: (VersionHead, VersionTail)) => VersionKeys(p.0.0, p.0.1.0, p.0.1.1, p.1.0, p.1.1.0, p.1.1.1),
       (v: VersionKeys) => ((v.version, (v.key, v.roster)), (v.send, (v.recv, v.counter))),
       (v: VersionKeys) => VersionFits(c, mine, context, v))
  }

  function VersionC(c: Crypto, mine: Tag, context: Context): (r: Coder<VersionKeys>) {
    VersionOver(c, mine, context, HeadC(c), (h: VersionHead) => TailC(mine, h.1.1))
  }

  lemma VersionOverCanonical(c: Crypto, mine: Tag, context: Context, head: Coder<VersionHead>,
                             tail: VersionHead -> Coder<VersionTail>)
    requires Canonical(head) && forall h :: head.ok(h) <==> HeadFits(c, h)
    requires forall h :: HeadFits(c, h) ==>
      Canonical(tail(h)) && forall t :: tail(h).ok(t) <==> TailFits(mine, h.1.1, t)
    ensures Canonical(VersionOver(c, mine, context, head, tail))
  {
    ThenCanonical(head, tail);
    var check := (p: (VersionHead, VersionTail)) => c.contextOf(p.0.0) == context && p.1.0.epoch == SendEpoch(p.1.1.1);
    WhereCanonical(Then(head, tail), check);
    AsCanonical(Where(Then(head, tail), check),
                (p: (VersionHead, VersionTail)) => VersionKeys(p.0.0, p.0.1.0, p.0.1.1, p.1.0, p.1.1.0, p.1.1.1),
                (v: VersionKeys) => ((v.version, (v.key, v.roster)), (v.send, (v.recv, v.counter))),
                (v: VersionKeys) => VersionFits(c, mine, context, v));
  }

  lemma VersionCanonical(c: Crypto, mine: Tag, context: Context)
    ensures Canonical(VersionC(c, mine, context))
  {
    HeadCanonical(c);
    var tail := (h: VersionHead) => TailC(mine, h.1.1);
    forall h: VersionHead | HeadFits(c, h)
      ensures Canonical(tail(h)) && forall t :: tail(h).ok(t) <==> TailFits(mine, h.1.1, t)
    {
      TailCanonical(mine, h.1.1);
    }
    VersionOverCanonical(c, mine, context, HeadC(c), tail);
  }

  // -------------------------------------------------------------------------------- whole states

  type StateHead = (nat, (nat, (nat, nat)))
  type StateTail = (map<Context, VersionKeys>, (seq<Context>, Option<Context>))

  predicate OwnerFits(c: Crypto, h: StateHead) {
    && BE.Fits(h.0, 32) && BE.Fits(h.1.0, 32) && BE.Fits(h.1.1.0, 8)
    && h.1.1.0 == c.tagOf(h.1.0)
    && 1 <= h.1.1.1 <= MAX_RETAINED_VERSIONS
  }

  predicate VersionsFit(c: Crypto, mine: Tag, retain: nat, versions: map<Context, VersionKeys>) {
    |versions.Keys| <= retain && forall x :: x in versions ==> BE.Fits(x, 16) && VersionFits(c, mine, x, versions[x])
  }

  predicate OrderFits(retain: nat, order: seq<Context>) {
    |order| <= retain && forall i :: 0 <= i < |order| ==> BE.Fits(order[i], 16)
  }

  /** Order lists each version once, and a current version exists exactly when any version does. */
  predicate Linked(t: StateTail) {
    && |t.1.0| == |t.0.Keys|
    && (forall i :: 0 <= i < |t.1.0| ==> t.1.0[i] in t.0)
    && (forall i, j :: 0 <= i < j < |t.1.0| ==> t.1.0[i] != t.1.0[j])
    && (t.1.1.Some? ==> t.1.1.value in t.0)
    && (t.0.Keys == {} <==> t.1.1.None?)
  }

  predicate ContentFits(c: Crypto, mine: Tag, retain: nat, t: StateTail) {
    && VersionsFit(c, mine, retain, t.0)
    && OrderFits(retain, t.1.0)
    && (t.1.1.Some? ==> BE.Fits(t.1.1.value, 16))
    && Linked(t)
  }

  function OwnerC(c: Crypto): (r: Coder<StateHead>) {
    Where(Both(Number(32), Both(Number(32), Both(Number(8), Limited(MAX_RETAINED_VERSIONS)))),
          (h: StateHead) => h.1.1.0 == c.tagOf(h.1.0) && h.1.1.1 >= 1)
  }

  function VersionsC(c: Crypto, mine: Tag, retain: nat): (r: Coder<map<Context, VersionKeys>>) {
    MapC((x: nat) => VersionC(c, mine, x), 16, retain)
  }

  function ContentC(c: Crypto, mine: Tag, retain: nat): (r: Coder<StateTail>) {
    Where(Both(VersionsC(c, mine, retain), Both(Counted(Number(16), retain), Maybe(Number(16), 0))),
          (t: StateTail) => Linked(t))
  }

  lemma OwnerCanonical(c: Crypto)
    ensures Canonical(OwnerC(c)) && forall h :: OwnerC(c).ok(h) <==> OwnerFits(c, h)
  {
    NumberCanonical(32);
    NumberCanonical(8);
    LimitedCanonical(MAX_RETAINED_VERSIONS);
    BothCanonical(Number(8), Limited(MAX_RETAINED_VERSIONS));
    BothCanonical(Number(32), Both(Number(8), Limited(MAX_RETAINED_VERSIONS)));
    BothCanonical(Number(32), Both(Number(32), Both(Number(8), Limited(MAX_RETAINED_VERSIONS))));
    WhereCanonical(Both(Number(32), Both(Number(32), Both(Number(8), Limited(MAX_RETAINED_VERSIONS)))),
                   (h: StateHead) => h.1.1.0 == c.tagOf(h.1.0) && h.1.1.1 >= 1);
  }

  lemma VersionsCanonical(c: Crypto, mine: Tag, retain: nat)
    requires retain <= MAX_RETAINED_VERSIONS
    ensures Canonical(VersionsC(c, mine, retain))
  {
    var item := (x: nat) => VersionC(c, mine, x);
    forall x: nat ensures Canonical(item(x)) {
      VersionCanonical(c, mine, x);
    }
    MapCanonical(item, 16, retain);
  }

  lemma ContentOver(v: Coder<map<Context, VersionKeys>>, retain: nat)
    requires Canonical(v) && retain <= MAX_RETAINED_VERSIONS
    ensures Canonical(Where(Both(v, Both(Counted(Number(16), retain), Maybe(Number(16), 0))),
                            (t: StateTail) => Linked(t)))
  {
    NumberCanonical(16);
    CountedCanonical(Number(16), retain);
    MaybeCanonical(Number(16), 0);
    BothCanonical(Counted(Number(16), retain), Maybe(Number(16), 0));
    BothCanonical(v, Both(Counted(Number(16), retain), Maybe(Number(16), 0)));
    WhereCanonical(Both(v, Both(Counted(Number(16), retain), Maybe(Number(16), 0))), (t: StateTail) => Linked(t));
  }

  lemma ContentCanonical(c: Crypto, mine: Tag, retain: nat)
    requires retain <= MAX_RETAINED_VERSIONS
    ensures Canonical(ContentC(c, mine, retain))
  {
    VersionsCanonical(c, mine, retain);
    ContentOver(VersionsC(c, mine, retain), retain);
  }

  lemma ContentOverAllowed(v: Coder<map<Context, VersionKeys>>, retain: nat, t: StateTail)
    ensures Where(Both(v, Both(Counted(Number(16), retain), Maybe(Number(16), 0))), (t: StateTail) => Linked(t)).ok(t)
       <==> v.ok(t.0) && OrderFits(retain, t.1.0) && (t.1.1.Some? ==> BE.Fits(t.1.1.value, 16)) && Linked(t)
  {
  }

  lemma ContentAllowed(c: Crypto, mine: Tag, retain: nat, t: StateTail)
    ensures ContentC(c, mine, retain).ok(t) <==> ContentFits(c, mine, retain, t)
  {
    ContentOverAllowed(VersionsC(c, mine, retain), retain, t);
  }

  /** Everything the importer checks. */
  predicate StateFits(c: Crypto, s: State) {
    && OwnerFits(c, (s.sid, (s.me, (s.tag, s.retain))))
    && ContentFits(c, s.tag, s.retain, (s.versions, (s.order, s.current)))
  }

  function StateOver(c: Crypto, owner: Coder<StateHead>, content: StateHead -> Coder<StateTail>): (r: Coder<State>) {
    As(Then(owner, content),
       (p: (StateHead, StateTail)) => State(p.0.0, p.0.1.0, p.0.1.1.0, p.1.0, p.1.1.0, p.1.1.1, p.0.1.1.1),
       (s: State) => ((s.sid, (s.me, (s.tag, s.retain))), (s.versions, (s.order, s.current))),
       (s: State) => StateFits(c, s))
  }

  function StateC(c: Crypto): (r: Coder<State>) {
    StateOver(c, OwnerC(c), (h: StateHead) => ContentC(c, h.1.1.0, h.1.1.1))
  }

  lemma StateOverCanonical(c: Crypto, owner: Coder<StateHead>, content: StateHead -> Coder<StateTail>)
    requires Canonical(owner) && forall h :: owner.ok(h) <==> OwnerFits(c, h)
    requires forall h :: OwnerFits(c, h) ==> Canonical(content(h))
    requires forall h, t :: content(h).ok(t) <==> ContentFits(c, h.1.1.0, h.1.1.1, t)
    ensures Canonical(StateOver(c, owner, content))
  {
    ThenCanonical(owner, content);
    AsCanonical(Then(owner, content),
                (p: (StateHead, StateTail)) => State(p.0.0, p.0.1.0, p.0.1.1.0, p.1.0, p.1.1.0, p.1.1.1, p.0.1.1.1),
                (s: State) => ((s.sid, (s.me, (s.tag, s.retain))), (s.versions, (s.order, s.current))),
                (s: State) => StateFits(c, s));
  }

  lemma StateCanonical(c: Crypto)
    ensures Canonical(StateC(c))
  {
    OwnerCanonical(c);
    var content := (h: StateHead) => ContentC(c, h.1.1.0, h.1.1.1);
    forall h: StateHead | OwnerFits(c, h) ensures Canonical(content(h)) {
      ContentCanonical(c, h.1.1.0, h.1.1.1);
    }
    forall h: StateHead, t ensures content(h).ok(t) <==> ContentFits(c, h.1.1.0, h.1.1.1, t) {
      ContentAllowed(c, h.1.1.0, h.1.1.1, t);
    }
    StateOverCanonical(c, OwnerC(c), content);
  }
}
