/** The media protector as a state machine (crates/cfr-media/src/frame.rs). */
module Media {
  import opened Base
  import opened Ops
  import opened Bitstream
  import opened Frame
  import opened ReplayModule
  import opened RatchetModule

  type Tag = nat
  type Context = nat
  type Label = nat

  /** Digests, key schedule and cipher. The cipher key is paired with the session the nonce names. */
  datatype Crypto = Crypto(tagOf: Id -> Tag, contextOf: Label -> Context, s: Schedule, aead: Aead<(Key, nat)>)

  datatype Receiver = Receiver(ratchet: Ratchet, window: Window)

  datatype VersionKeys = VersionKeys(
    version: Label, key: Key, roster: map<Tag, Id>, send: Ratchet, recv: map<Tag, Receiver>, counter: nat)

  datatype State = State(
    sid: nat, me: Id, tag: Tag, versions: map<Context, VersionKeys>, order: seq<Context>,
    current: Option<Context>, retain: nat)

  datatype Error =
    | Malformed | UnknownVersion | UnknownSender | OwnFrame | Replayed | Stale | BadTag | NoKey | CounterExhausted

  datatype Result<+T> = Ok(value: T) | Err(error: Error)

  // -------------------------------------------------------------------------------- operations

  function New(c: Crypto, sid: nat, me: Id, retain: nat): (s: State) {
    State(sid, me, c.tagOf(me), map[], [], None, if retain < 1 then 1 else retain)
  }

  function RosterOf(c: Crypto, ids: seq<Id>): (r: map<Tag, Id>) {
    if ids == [] then map[]
    else var last := ids[|ids| - 1]; RosterOf(c, ids[..|ids| - 1])[c.tagOf(last) := last]
  }

  /** Forgets the oldest versions beyond the retention limit. */
  function Trim(versions: map<Context, VersionKeys>, order: seq<Context>, retain: nat)
    : (r: (map<Context, VersionKeys>, seq<Context>))
    decreases |order|
  {
    if |order| <= retain then (versions, order) else Trim(versions - {order[0]}, order[1..], retain)
  }

  function FreshVersion(c: Crypto, me: Id, version: Label, key: Key, ids: seq<Id>): (v: VersionKeys) {
    VersionKeys(version, key, RosterOf(c, ids), Fresh(c.s, key, me), map[], 0)
  }

  function Install(c: Crypto, s: State, version: Label, key: Key, ids: seq<Id>): (t: State) {
    var context := c.contextOf(version);
    if context in s.versions then s.(current := Some(context))
    else
      var (versions, order) :=
        Trim(s.versions[context := FreshVersion(c, s.me, version, key, ids)], s.order + [context], s.retain);
      s.(versions := versions, order := order, current := Some(context))
  }

  function With(s: State, context: Context, v: VersionKeys): (t: State) {
    s.(versions := s.versions[context := v])
  }

  function Send(c: Crypto, s: State, codec: Codec, frame: bytes, keyframe: bool): (r: (State, Result<bytes>))
    requires Lawful(c.aead)
  {
    if s.current == None || s.current.value !in s.versions then (s, Err(NoKey))
    else
      var context := s.current.value;
      var v := s.versions[context];
      if v.counter == MAX_U64 then (s, Err(CounterExhausted))
      else
        var (ratchet, k) := SendKey(c.s, v.send, v.counter);
        var next := With(s, context, v.(counter := v.counter + 1, send := ratchet));
        if k == None then (next, Err(NoKey))
        else (next, Ok(Protect(c.aead, (k.value, s.sid), Trailer(s.tag, v.counter, context, codec, keyframe), frame)))
  }

  function EntryOf(c: Crypto, v: VersionKeys, tag: Tag, sender: Id): (e: Receiver) {
    if tag in v.recv then v.recv[tag] else Receiver(Fresh(c.s, v.key, sender), Unstarted())
  }

  function Receive(c: Crypto, s: State, packet: bytes): (r: (State, Result<(Id, bytes)>))
    requires Lawful(c.aead)
  {
    match Parse(packet)
    case None => (s, Err(Malformed))
    case Some(p) => Open(c, s, p)
  }

  /** Replay window and ratchet are stepped on copies and stored only once the tag has verified. */
  function Open(c: Crypto, s: State, p: Parsed): (r: (State, Result<(Id, bytes)>))
    requires Lawful(c.aead)
  {
    if p.t.version !in s.versions then (s, Err(UnknownVersion))
    else
      var v := s.versions[p.t.version];
      if p.t.sender !in v.roster then (s, Err(UnknownSender))
      else
        var sender := v.roster[p.t.sender];
        if sender == s.me then (s, Err(OwnFrame))
        else
          var e := EntryOf(c, v, p.t.sender, sender);
          var (next, out) := OpenFrom(c, s.sid, e, p);
          (With(s, p.t.version, v.(recv := v.recv[p.t.sender := next])),
           if out.Ok? then Ok((sender, out.value)) else Err(out.error))
  }

  function OpenFrom(c: Crypto, sid: nat, e: Receiver, p: Parsed): (r: (Receiver, Result<bytes>))
    requires Lawful(c.aead)
  {
    var (window, ok) := Accept(e.window, p.t.counter);
    if !ok then (e, Err(Replayed))
    else
      var (ratchet, k) := RecvKey(c.s, e.ratchet, p.t.counter);
      if k == None then (e, Err(Stale))
      else match Unprotect(c.aead, (k.value, sid), p)
        case None => (e, Err(BadTag))
        case Some(f) => (Receiver(ratchet, window), Ok(f))
  }

  // ------------------------------------------------------------------------ what every state keeps

  function SendEpoch(counter: nat): (e: nat) {
    (if counter == 0 then 0 else counter - 1) / EPOCH
  }

  ghost predicate ReceiverOk(c: Crypto, key: Key, sender: Id, e: Receiver) {
    && OnChain(c.s, key, sender, e.ratchet)
    && e.window.high <= MAX_U64
    && (e.window.started ==> e.window.seen[0] && e.ratchet.epoch == e.window.high / EPOCH)
    && (!e.window.started ==> e.window == Unstarted() && e.ratchet.epoch == 0)
  }

  ghost predicate ReceiversOk(c: Crypto, me: Id, v: VersionKeys) {
    forall t :: t in v.recv ==> t in v.roster && v.roster[t] != me && ReceiverOk(c, v.key, v.roster[t], v.recv[t])
  }

  ghost predicate RosterOk(c: Crypto, roster: map<Tag, Id>) {
    forall t :: t in roster ==> c.tagOf(roster[t]) == t
  }

  ghost predicate VersionOk(c: Crypto, me: Id, context: Context, v: VersionKeys) {
    && c.contextOf(v.version) == context
    && RosterOk(c, v.roster)
    && v.counter <= MAX_U64
    && OnChain(c.s, v.key, me, v.send)
    && v.send.epoch == SendEpoch(v.counter)
    && ReceiversOk(c, me, v)
  }

  ghost predicate Queue(versions: map<Context, VersionKeys>, order: seq<Context>) {
    && (forall x :: x in order <==> x in versions)
    && (forall i, j :: 0 <= i < j < |order| ==> order[i] != order[j])
  }

  ghost predicate Good(c: Crypto, s: State) {
    && s.tag == c.tagOf(s.me)
    && 1 <= s.retain
    && |s.order| <= s.retain
    && Queue(s.versions, s.order)
    && (s.current.Some? ==> s.current.value in s.versions)
    && (s.current.None? ==> s.versions == map[])
    && VersionsOk(c, s.me, s.versions)
  }

  ghost predicate VersionsOk(c: Crypto, me: Id, versions: map<Context, VersionKeys>) {
    forall x :: x in versions ==> VersionOk(c, me, x, versions[x])
  }

  lemma {:induction false} RosterTagged(c: Crypto, ids: seq<Id>)
    ensures RosterOk(c, RosterOf(c, ids)) && |RosterOf(c, ids)| <= |ids|
    ensures forall t :: t in RosterOf(c, ids) ==> RosterOf(c, ids)[t] in ids
    ensures forall i :: i in ids ==> c.tagOf(i) in RosterOf(c, ids)
  {
    if ids != [] {
      RosterTagged(c, ids[..|ids| - 1]);
    }
  }

  /** Retention keeps the newest versions, untouched, and forgets exactly the others. */
  lemma {:induction false} TrimKeeps(versions: map<Context, VersionKeys>, order: seq<Context>, retain: nat)
    requires Queue(versions, order)
    ensures var (v, o) := Trim(versions, order, retain);
      && Queue(v, o) && |o| <= retain
      && o == order[|order| - |o|..] && |o| == (if |order| <= retain then |order| else retain)
      && forall x :: x in v ==> x in versions && v[x] == versions[x]
    decreases |order|
  {
    if |order| > retain {
      assert order == [order[0]] + order[1..];
      TrimKeeps(versions - {order[0]}, order[1..], retain);
    }
  }

  lemma QueuePush(versions: map<Context, VersionKeys>, order: seq<Context>, x: Context, v: VersionKeys)
    requires Queue(versions, order) && x !in versions
    ensures Queue(versions[x := v], order + [x])
  {
    assert (order + [x])[|order|] == x;
  }

  lemma FreshVersionOk(c: Crypto, me: Id, version: Label, key: Key, ids: seq<Id>)
    ensures VersionOk(c, me, c.contextOf(version), FreshVersion(c, me, version, key, ids))
  {
    RosterTagged(c, ids);
  }

  lemma InstallKeepsGood(c: Crypto, s: State, version: Label, key: Key, ids: seq<Id>)
    requires Good(c, s)
    ensures Good(c, Install(c, s, version, key, ids))
  {
    var x := c.contextOf(version);
    if x !in s.versions {
      var v := FreshVersion(c, s.me, version, key, ids);
      FreshVersionOk(c, s.me, version, key, ids);
      QueuePush(s.versions, s.order, x, v);
      TrimmedOk(c, s.me, s.versions[x := v], s.order + [x], s.retain);
    }
  }

  lemma TrimmedOk(c: Crypto, me: Id, versions: map<Context, VersionKeys>, order: seq<Context>, retain: nat)
    requires Queue(versions, order) && VersionsOk(c, me, versions) && retain >= 1 && order != []
    ensures var (v, o) := Trim(versions, order, retain);
      Queue(v, o) && |o| <= retain && VersionsOk(c, me, v) && order[|order| - 1] in v
  {
    TrimKeeps(versions, order, retain);
    var (v, o) := Trim(versions, order, retain);
    assert o[|o| - 1] == order[|order| - 1];
  }

  lemma WithKeepsGood(c: Crypto, s: State, x: Context, v: VersionKeys)
    requires Good(c, s) && x in s.versions && VersionOk(c, s.me, x, v)
    ensures Good(c, With(s, x, v))
  {
  }

  /** What a successful send leaves of the version it used. */
  function Spent(c: Crypto, v: VersionKeys): (w: VersionKeys) {
    v.(counter := v.counter + 1, send := SendKey(c.s, v.send, v.counter).0)
  }

  lemma SpentOk(c: Crypto, me: Id, x: Context, v: VersionKeys)
    requires VersionOk(c, me, x, v) && v.counter < MAX_U64
    ensures VersionOk(c, me, x, Spent(c, v))
    ensures SendKey(c.s, v.send, v.counter).1 == Some(FrameKey(c.s, v.key, me, v.counter))
  {
    SameKeyBothSides(c.s, v.key, me, v.send, v.counter);
    assert ReceiversOk(c, me, Spent(c, v));
  }

  /** Sending fails only without a version or with the counter used up, and otherwise seals under the
    * key fixed for this sender and counter and moves the counter on. */
  lemma SendOutcome(c: Crypto, s: State, codec: Codec, frame: bytes, keyframe: bool)
    requires Lawful(c.aead) && Good(c, s)
    ensures Send(c, s, codec, frame, keyframe)
         == if s.current == None then (s, Err(NoKey))
            else
              var x := s.current.value;
              var v := s.versions[x];
              if v.counter == MAX_U64 then (s, Err(CounterExhausted))
              else (With(s, x, Spent(c, v)),
                    Ok(Protect(c.aead, (FrameKey(c.s, v.key, s.me, v.counter), s.sid),
                               Trailer(s.tag, v.counter, x, codec, keyframe), frame)))
  {
    if s.current.Some? && s.versions[s.current.value].counter < MAX_U64 {
      SpentOk(c, s.me, s.current.value, s.versions[s.current.value]);
    }
  }

  lemma SendKeepsGood(c: Crypto, s: State, codec: Codec, frame: bytes, keyframe: bool)
    requires Lawful(c.aead) && Good(c, s)
    ensures Good(c, Send(c, s, codec, frame, keyframe).0)
  {
    SendOutcome(c, s, codec, frame, keyframe);
    if s.current.Some? && s.versions[s.current.value].counter < MAX_U64 {
      var x := s.current.value;
      SpentOk(c, s.me, x, s.versions[x]);
      WithKeepsGood(c, s, x, Spent(c, s.versions[x]));
    }
  }

  lemma EntryOk(c: Crypto, me: Id, v: VersionKeys, tag: Tag)
    requires ReceiversOk(c, me, v) && tag in v.roster
    ensures ReceiverOk(c, v.key, v.roster[tag], EntryOf(c, v, tag, v.roster[tag]))
  {
  }

  /** A packet is opened only with the key fixed for its sender and counter; refusing it changes
    * neither ratchet nor window; and the epoch follows the highest accepted counter. */
  lemma OpenFromOk(c: Crypto, key: Key, sender: Id, sid: nat, e: Receiver, p: Parsed)
    requires Lawful(c.aead) && ReceiverOk(c, key, sender, e) && p.t.counter <= MAX_U64
    ensures ReceiverOk(c, key, sender, OpenFrom(c, sid, e, p).0)
    ensures OpenFrom(c, sid, e, p).1.Err? ==> OpenFrom(c, sid, e, p).0 == e
    ensures OpenFrom(c, sid, e, p).1.Ok? ==>
      && OpenFrom(c, sid, e, p).0.window == Accept(e.window, p.t.counter).0
      && Unprotect(c.aead, (FrameKey(c.s, key, sender, p.t.counter), sid), p) == Some(OpenFrom(c, sid, e, p).1.value)
    ensures OpenFrom(c, sid, e, p).1.Ok? <==>
      && Accept(e.window, p.t.counter).1
      && e.ratchet.epoch <= p.t.counter / EPOCH <= e.ratchet.epoch + MAX_EPOCH_JUMP
      && Unprotect(c.aead, (FrameKey(c.s, key, sender, p.t.counter), sid), p).Some?
  {
    SameKeyBothSides(c.s, key, sender, e.ratchet, p.t.counter);
  }

  lemma OpenKeepsGood(c: Crypto, s: State, p: Parsed)
    requires Lawful(c.aead) && Good(c, s) && p.t.counter <= MAX_U64
    ensures Good(c, Open(c, s, p).0)
  {
    var x, tag := p.t.version, p.t.sender;
    if x in s.versions && tag in s.versions[x].roster && s.versions[x].roster[tag] != s.me {
      var v := s.versions[x];
      EntryOk(c, s.me, v, tag);
      var e := EntryOf(c, v, tag, v.roster[tag]);
      OpenFromOk(c, v.key, v.roster[tag], s.sid, e, p);
      WithKeepsGood(c, s, x, v.(recv := v.recv[tag := OpenFrom(c, s.sid, e, p).0]));
    }
  }
}
