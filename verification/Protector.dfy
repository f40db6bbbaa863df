/** The protector object that carries out the media steps (crates/cfr-media/src/frame.rs). */
module ProtectorModule {
  import opened Base
  import opened Ops
  import opened Bitstream
  import opened Frame
  import opened ReplayModule
  import opened RatchetModule
  import opened Media

  method CollectRoster(c: Crypto, ids: seq<Id>) returns (roster: map<Tag, Id>)
    ensures roster == RosterOf(c, ids)
  {
    roster := map[];
    for i := 0 to |ids|
      invariant roster == RosterOf(c, ids[..i])
    {
      TakeOne(ids, i);
      roster := roster[c.tagOf(ids[i]) := ids[i]];
    }
    TakeAll(ids);
  }

  method CopyOf(frame: bytes) returns (a: array<byte>)
    ensures fresh(a) && a[..] == frame
  {
    a := new byte[|frame|](i requires 0 <= i < |frame| => frame[i]);
  }

  /** Encrypts the content in place inside a copy of the frame. */
  method SealFrame(aead: Aead<(Key, nat)>, k: (Key, nat), t: Trailer, frame: bytes) returns (packet: bytes)
    requires Lawful(aead)
    ensures packet == Protect(aead, k, t, frame)
  {
    var l := LayoutOf(t.codec, frame, t.keyframe);
    EveryCodecTiles(t.codec, frame, t.keyframe);
    GatherSize(frame, l.secret);
    var (ct, tag) := aead.seal(k, t, Gather(frame, l.secret), Associated(t, frame, l));
    var out := CopyOf(frame);
    ScatterInPlace(out, l.secret, ct);
    packet := out[..] + tag + EncodeTrailer(t);
  }

  /** Steps copies of the window and the ratchet; the caller stores what comes back. */
  method OpenCopy(c: Crypto, sid: nat, e: Receiver, p: Parsed) returns (next: Receiver, r: Result<bytes>)
    requires Lawful(c.aead)
    ensures (next, r) == OpenFrom(c, sid, e, p)
  {
    var replay := new Replay(e.window);
    var ratchet := new MediaRatchet(c.s, e.ratchet);
    var ok := replay.Offer(p.t.counter);
    if !ok {
      return e, Err(Replayed);
    }
    var k := ratchet.Receive(p.t.counter);
    if k == None {
      return e, Err(Stale);
    }
    var content := Unprotect(c.aead, (k.value, sid), p);
    if content == None {
      return e, Err(BadTag);
    }
    return Receiver(ratchet.View(), replay.View()), Ok(content.value);
  }

  class Protector {
    const c: Crypto
    const sid: nat
    const me: Id
    const tag: Tag
    const retain: nat
    var versions: map<Context, VersionKeys>
    var order: seq<Context>
    var current: Option<Context>

    function View(): (s: State)
      reads this
    {
      State(sid, me, tag, versions, order, current, retain)
    }

    constructor (c: Crypto, sid: nat, me: Id, retain: nat)
      ensures this.c == c && View() == New(c, sid, me, retain)
    {
      this.c, this.sid, this.me, this.tag := c, sid, me, c.tagOf(me);
      this.retain := if retain < 1 then 1 else retain;
      versions, order, current := map[], [], None;
    }

    method InstallKey(version: Label, key: Key, ids: seq<Id>)
      modifies this
      ensures View() == Install(c, old(View()), version, key, ids)
    {
      var context := c.contextOf(version);
      if context in versions {
        current := Some(context);
        return;
      }
      var roster := CollectRoster(c, ids);
      versions := versions[context := VersionKeys(version, key, roster, Fresh(c.s, key, me), map[], 0)];
      order := order + [context];
      current := Some(context);
      ghost var vs, o := versions, order;
      while |order| > retain
        invariant current == Some(context) && Trim(versions, order, retain) == Trim(vs, o, retain)
        decreases |order|
      {
        versions, order := versions - {order[0]}, order[1..];
      }
    }

    method ProtectFrame(codec: Codec, frame: bytes, keyframe: bool) returns (r: Result<bytes>)
      requires Lawful(c.aead)
      modifies this
      ensures (View(), r) == Send(c, old(View()), codec, frame, keyframe)
    {
      if current == None || current.value !in versions {
        return Err(NoKey);
      }
      var context := current.value;
      var v := versions[context];
      if v.counter == MAX_U64 {
        return Err(CounterExhausted);
      }
      var ratchet := new MediaRatchet(c.s, v.send);
      var k := ratchet.Send(v.counter);
      versions := versions[context := v.(counter := v.counter + 1, send := ratchet.View())];
      if k == None {
        return Err(NoKey);
      }
      var packet := SealFrame(c.aead, (k.value, sid), Trailer(tag, v.counter, context, codec, keyframe), frame);
      r := Ok(packet);
    }

    method UnprotectFrame(packet: bytes) returns (r: Result<(Id, bytes)>)
      requires Lawful(c.aead)
      modifies this
      ensures (View(), r) == Receive(c, old(View()), packet)
    {
      var parsed := Parse(packet);
      if parsed == None {
        return Err(Malformed);
      }
      var p := parsed.value;
      if p.t.version !in versions {
        return Err(UnknownVersion);
      }
      var v := versions[p.t.version];
      if p.t.sender !in v.roster {
        return Err(UnknownSender);
      }
      var sender := v.roster[p.t.sender];
      if sender == me {
        return Err(OwnFrame);
      }
      var next, out := OpenCopy(c, sid, EntryOf(c, v, p.t.sender, sender), p);
      versions := versions[p.t.version := v.(recv := v.recv[p.t.sender := next])];
      r := if out.Ok? then Ok((sender, out.value)) else Err(out.error);
    }
  }
}
