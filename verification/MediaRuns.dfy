/** Whole runs of a protector: what is sent, opened and refused (crates/cfr-media/src/frame.rs). */
module MediaRuns {
  import opened Base
  import opened Ops
  import opened Bitstream
  import opened Stability
  import opened Frame
  import opened ReplayModule
  import opened RatchetModule
  import opened Media

  datatype Event =
    | Installed(version: Label, key: Key, ids: seq<Id>)
    | Sent(codec: Codec, frame: bytes, keyframe: bool)
    | Received(packet: bytes)

  function Step(c: Crypto, s: State, e: Event): (t: State)
    requires Lawful(c.aead)
  {
    match e
    case Installed(version, key, ids) => Install(c, s, version, key, ids)
    case Sent(codec, frame, keyframe) => Send(c, s, codec, frame, keyframe).0
    case Received(packet) => Receive(c, s, packet).0
  }

  function Run(c: Crypto, s: State, es: seq<Event>): (t: State)
    requires Lawful(c.aead)
  {
    if es == [] then s else Step(c, Run(c, s, es[..|es| - 1]), es[|es| - 1])
  }

  lemma StepKeepsGood(c: Crypto, s: State, e: Event)
    requires Lawful(c.aead) && Good(c, s)
    ensures Good(c, Step(c, s, e))
  {
    match e
    case Installed(version, key, ids) => InstallKeepsGood(c, s, version, key, ids);
    case Sent(codec, frame, keyframe) => SendKeepsGood(c, s, codec, frame, keyframe);
    case Received(packet) =>
      if Parse(packet).Some? {
        OpenKeepsGood(c, s, Parse(packet).value);
      }
  }

  lemma {:induction false} RunKeepsGood(c: Crypto, sid: nat, me: Id, retain: nat, es: seq<Event>)
    requires Lawful(c.aead)
    ensures Good(c, Run(c, New(c, sid, me, retain), es))
  {
    if es != [] {
      RunKeepsGood(c, sid, me, retain, es[..|es| - 1]);
      StepKeepsGood(c, Run(c, New(c, sid, me, retain), es[..|es| - 1]), es[|es| - 1]);
    }
  }

  // ------------------------------------------------------------------------- opened at most once

  predicate Opens(c: Crypto, s: State, e: Event, x: Context, tag: Tag)
    requires Lawful(c.aead)
  {
    && e.Received?
    && Receive(c, s, e.packet).1.Ok?
    && Parse(e.packet).value.t.version == x
    && Parse(e.packet).value.t.sender == tag
  }

  /** Counters opened from `tag` under context `x` since `x` was last installed. */
  function Opened(c: Crypto, s: State, es: seq<Event>, x: Context, tag: Tag): (log: seq<nat>)
    requires Lawful(c.aead)
  {
    if es == [] then []
    else
      var before, e := Run(c, s, es[..|es| - 1]), es[|es| - 1];
      var log := Opened(c, s, es[..|es| - 1], x, tag);
      if x !in Step(c, before, e).versions then []
      else if Opens(c, before, e, x, tag) then log + [Parse(e.packet).value.t.counter]
      else log
  }

  ghost predicate Traced(s: State, x: Context, tag: Tag, log: seq<nat>) {
    if x in s.versions && tag in s.versions[x].recv then Tracks(s.versions[x].recv[tag].window, log) else log == []
  }

  lemma InstallTraced(c: Crypto, s: State, version: Label, key: Key, ids: seq<Id>, x: Context, tag: Tag, log: seq<nat>)
    requires Good(c, s) && Traced(s, x, tag, log)
    ensures var t := Install(c, s, version, key, ids); Traced(t, x, tag, if x in t.versions then log else [])
  {
    var y := c.contextOf(version);
    if y !in s.versions {
      var v := FreshVersion(c, s.me, version, key, ids);
      QueuePush(s.versions, s.order, y, v);
      TrimKeeps(s.versions[y := v], s.order + [y], s.retain);
    }
  }

  lemma SendTraced(c: Crypto, s: State, codec: Codec, frame: bytes, keyframe: bool, x: Context, tag: Tag, log: seq<nat>)
    requires Lawful(c.aead) && Good(c, s) && Traced(s, x, tag, log)
    ensures var t := Send(c, s, codec, frame, keyframe).0; Traced(t, x, tag, log) && t.versions.Keys == s.versions.Keys
  {
    SendOutcome(c, s, codec, frame, keyframe);
  }

  lemma OpenTraced(c: Crypto, s: State, p: Parsed, x: Context, tag: Tag, log: seq<nat>)
    requires Lawful(c.aead) && Good(c, s) && Traced(s, x, tag, log) && p.t.counter <= MAX_U64
    ensures var (t, out) := Open(c, s, p);
      && t.versions.Keys == s.versions.Keys
      && Traced(t, x, tag, if out.Ok? && p.t.version == x && p.t.sender == tag then log + [p.t.counter] else log)
  {
    if p.t.version in s.versions && p.t.sender in s.versions[p.t.version].roster {
      var v := s.versions[p.t.version];
      var sender := v.roster[p.t.sender];
      if sender != s.me {
        EntryOk(c, s.me, v, p.t.sender);
        var e := EntryOf(c, v, p.t.sender, sender);
        var (next, out) := OpenFrom(c, s.sid, e, p);
        var grown := if out.Ok? && p.t.version == x && p.t.sender == tag then log + [p.t.counter] else log;
        if p.t.version == x && p.t.sender == tag {
          OpenedTracks(c, v.key, sender, s.sid, e, p, log);
        }
        EntryTraced(s, p.t.version, p.t.sender, next, x, tag, log, grown);
      }
    }
  }

  lemma OpenedTracks(c: Crypto, key: Key, sender: Id, sid: nat, e: Receiver, p: Parsed, log: seq<nat>)
    requires Lawful(c.aead) && ReceiverOk(c, key, sender, e) && p.t.counter <= MAX_U64 && Tracks(e.window, log)
    ensures var (next, out) := OpenFrom(c, sid, e, p); Tracks(next.window, if out.Ok? then log + [p.t.counter] else log)
  {
    OpenFromOk(c, key, sender, sid, e, p);
    AcceptTracks(e.window, log, p.t.counter);
  }

  lemma EntryTraced(s: State, y: Context, who: Tag, e: Receiver, x: Context, tag: Tag, log: seq<nat>, grown: seq<nat>)
    requires y in s.versions && Traced(s, x, tag, log)
    requires if y == x && who == tag then Tracks(e.window, grown) else grown == log
    ensures Traced(With(s, y, s.versions[y].(recv := s.versions[y].recv[who := e])), x, tag, grown)
  {
  }

  lemma StepTraced(c: Crypto, s: State, e: Event, x: Context, tag: Tag, log: seq<nat>)
    requires Lawful(c.aead) && Good(c, s) && Traced(s, x, tag, log)
    ensures Traced(Step(c, s, e), x, tag,
      if x !in Step(c, s, e).versions then []
      else if Opens(c, s, e, x, tag) then log + [Parse(e.packet).value.t.counter] else log)
  {
    match e
    case Installed(version, key, ids) => InstallTraced(c, s, version, key, ids, x, tag, log);
    case Sent(codec, frame, keyframe) => SendTraced(c, s, codec, frame, keyframe, x, tag, log);
    case Received(packet) =>
      if Parse(packet).Some? {
        OpenTraced(c, s, Parse(packet).value, x, tag, log);
      }
  }

  /** Over every run, the window of a retained version equals the opened counters inside it, and no
    * counter is opened twice while the version is retained. */
  lemma {:induction false} OpenedAtMostOnce(c: Crypto, sid: nat, me: Id, retain: nat, es: seq<Event>, x: Context,
                                            tag: Tag)
    requires Lawful(c.aead)
    ensures var s := New(c, sid, me, retain);
      Traced(Run(c, s, es), x, tag, Opened(c, s, es, x, tag)) && Distinct(Opened(c, s, es, x, tag))
  {
    if es != [] {
      var s := New(c, sid, me, retain);
      OpenedAtMostOnce(c, sid, me, retain, es[..|es| - 1], x, tag);
      RunKeepsGood(c, sid, me, retain, es[..|es| - 1]);
      StepTraced(c, Run(c, s, es[..|es| - 1]), es[|es| - 1], x, tag, Opened(c, s, es[..|es| - 1], x, tag));
    }
  }

  /** Everything but the one receiver entry a packet names; an absent entry reads as the fresh one. */
  ghost predicate SameBut(c: Crypto, s: State, t: State) {
    && t == s.(versions := t.versions)
    && t.versions.Keys == s.versions.Keys
    && forall x :: x in s.versions ==>
      && t.versions[x] == s.versions[x].(recv := t.versions[x].recv)
      && forall tag :: tag in s.versions[x].roster ==>
           EntryOf(c, t.versions[x], tag, s.versions[x].roster[tag])
             == EntryOf(c, s.versions[x], tag, s.versions[x].roster[tag])
  }

  lemma FreshEntryIsInvisible(c: Crypto, s: State, x: Context, tag: Tag)
    requires x in s.versions && tag in s.versions[x].roster
    ensures var v := s.versions[x];
      SameBut(c, s, With(s, x, v.(recv := v.recv[tag := EntryOf(c, v, tag, v.roster[tag])])))
  {
  }

  /** A refused packet changes neither ratchet nor window of anyone, nor anything else. */
  lemma RefusedChangesNothing(c: Crypto, s: State, packet: bytes)
    requires Lawful(c.aead) && Good(c, s) && Receive(c, s, packet).1.Err?
    ensures SameBut(c, s, Receive(c, s, packet).0)
  {
    var t := Receive(c, s, packet).0;
    if t != s {
      var p := Parse(packet).value;
      var v := s.versions[p.t.version];
      var sender := v.roster[p.t.sender];
      var e := EntryOf(c, v, p.t.sender, sender);
      assert OpenFrom(c, s.sid, e, p).0 == e;
      FreshEntryIsInvisible(c, s, p.t.version, p.t.sender);
    }
  }

  // --------------------------------------------------------------------------- counters are fresh

  /** Counters sent under context `x` since it was last installed. */
  function Used(c: Crypto, s: State, es: seq<Event>, x: Context): (log: seq<nat>)
    requires Lawful(c.aead)
  {
    if es == [] then []
    else
      UsedNext(c, Run(c, s, es[..|es| - 1]), es[|es| - 1], x, Used(c, s, es[..|es| - 1], x))
  }

  function UsedNext(c: Crypto, before: State, e: Event, x: Context, log: seq<nat>): (next: seq<nat>)
    requires Lawful(c.aead)
  {
    if x !in Step(c, before, e).versions then []
    else if && e.Sent? && before.current == Some(x) && x in before.versions
            && Send(c, before, e.codec, e.frame, e.keyframe).1.Ok?
    then log + [before.versions[x].counter]
    else log
  }

  ghost predicate Counting(s: State, x: Context, log: seq<nat>) {
    && |log| == (if x in s.versions then s.versions[x].counter else 0)
    && forall i :: 0 <= i < |log| ==> log[i] == i
  }

  lemma InstallCounting(c: Crypto, s: State, version: Label, key: Key, ids: seq<Id>, x: Context, log: seq<nat>)
    requires Good(c, s) && Counting(s, x, log)
    ensures var t := Install(c, s, version, key, ids); Counting(t, x, if x in t.versions then log else [])
  {
    var y := c.contextOf(version);
    if y !in s.versions {
      var v := FreshVersion(c, s.me, version, key, ids);
      QueuePush(s.versions, s.order, y, v);
      TrimKeeps(s.versions[y := v], s.order + [y], s.retain);
    }
  }

  lemma SendCounting(c: Crypto, s: State, codec: Codec, frame: bytes, keyframe: bool, x: Context, log: seq<nat>)
    requires Lawful(c.aead) && Good(c, s) && Counting(s, x, log)
    ensures Counting(Send(c, s, codec, frame, keyframe).0, x, UsedNext(c, s, Sent(codec, frame, keyframe), x, log))
  {
    SendOutcome(c, s, codec, frame, keyframe);
  }

  lemma ReceiveCounting(c: Crypto, s: State, packet: bytes, x: Context, log: seq<nat>)
    requires Lawful(c.aead) && Counting(s, x, log)
    ensures Counting(Receive(c, s, packet).0, x, log) && Receive(c, s, packet).0.versions.Keys == s.versions.Keys
  {
  }

  /** While a version is retained its frames carry the counters 0, 1, 2, … each once, however often
    * other versions are selected in between. */
  lemma {:induction false} CountersNeverRepeat(c: Crypto, sid: nat, me: Id, retain: nat, es: seq<Event>, x: Context)
    requires Lawful(c.aead)
    ensures Counting(Run(c, New(c, sid, me, retain), es), x, Used(c, New(c, sid, me, retain), es, x))
  {
    if es != [] {
      var s := New(c, sid, me, retain);
      CountersNeverRepeat(c, sid, me, retain, es[..|es| - 1], x);
      RunKeepsGood(c, sid, me, retain, es[..|es| - 1]);
      var before, e := Run(c, s, es[..|es| - 1]), es[|es| - 1];
      match e
      case Installed(version, key, ids) =>
        InstallCounting(c, before, version, key, ids, x, Used(c, s, es[..|es| - 1], x));
      case Sent(codec, frame, keyframe) =>
        SendCounting(c, before, codec, frame, keyframe, x, Used(c, s, es[..|es| - 1], x));
      case Received(packet) => ReceiveCounting(c, before, packet, x, Used(c, s, es[..|es| - 1], x));
    }
  }

  // --------------------------------------------------------------------------------- end to end

  /** What the sender protects, a receiver of the same version opens to the same bytes, unless the
    * counter was already opened, fell out of the window or is out of the ratchet's reach. */
  lemma EndToEnd(c: Crypto, a: State, b: State, codec: Codec, frame: bytes, keyframe: bool)
    requires Lawful(c.aead) && Good(c, a) && Good(c, b) && a.sid == b.sid && a.me != b.me
    requires a.current.Some? && a.current.value in b.versions
    requires a.versions[a.current.value].counter < MAX_U64
    requires a.versions[a.current.value].key == b.versions[a.current.value].key
    requires a.tag in b.versions[a.current.value].roster && b.versions[a.current.value].roster[a.tag] == a.me
    requires BE.Fits(a.tag, 8) && BE.Fits(a.current.value, 16) && KeepsGeometry(codec, frame)
    ensures Send(c, a, codec, frame, keyframe).1.Ok?
    ensures
      var n := a.versions[a.current.value].counter;
      var e := EntryOf(c, b.versions[a.current.value], a.tag, a.me);
      Receive(c, b, Send(c, a, codec, frame, keyframe).1.value).1
      == if !Accept(e.window, n).1 then Err(Replayed)
         else if e.ratchet.epoch <= n / EPOCH <= e.ratchet.epoch + MAX_EPOCH_JUMP then Ok((a.me, frame))
         else Err(Stale)
  {
    var x := a.current.value;
    var v := b.versions[x];
    var n := a.versions[x].counter;
    SendOutcome(c, a, codec, frame, keyframe);
    var t := Trailer(a.tag, n, x, codec, keyframe);
    BE.EightBytes(n);
    var k := (FrameKey(c.s, v.key, a.me, n), a.sid);
    ProtectedParses(c.aead, k, t, frame);
    FrameRoundTrip(c.aead, k, t, frame);
    EntryOk(c, b.me, v, a.tag);
    SameKeyBothSides(c.s, v.key, a.me, EntryOf(c, v, a.tag, a.me).ratchet, n);
  }
}
