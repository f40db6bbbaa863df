/** Every reachable protector state can be saved and restored (crates/cfr-media/src/state.rs). */
module MediaImport {
  import opened Base
  import opened Ops
  import opened Coders
  import opened MapCoder
  import opened Frame
  import opened Media
  import opened MediaRuns
  import opened MediaState
  import BE = BigEndian

  // ------------------------------------------------------------------------------- export, import

  function Save<T>(c: Coder<T>, v: T): (b: Option<bytes>) {
    var b := c.enc(v);
    if |b| > MAX_MEDIA_STATE_BYTES then None else Some(b)
  }

  function Load<T>(c: Coder<T>, b: bytes): (v: Option<T>) {
    if |b| > MAX_MEDIA_STATE_BYTES then None else FromWire(c, b)
  }

  function Export(c: Crypto, s: State): (b: Option<bytes>) {
    Save(StateC(c), s)
  }

  function Import(c: Crypto, b: bytes): (s: Option<State>) {
    Load(StateC(c), b)
  }

  lemma SavedLoads<T(!new)>(c: Coder<T>, v: T)
    requires Canonical(c) && c.ok(v) && |c.enc(v)| <= MAX_MEDIA_STATE_BYTES
    ensures Save(c, v).Some? && Load(c, Save(c, v).value) == Some(v)
  {
    WireRoundTrip(c, v);
  }

  lemma LoadedSaves<T(!new)>(c: Coder<T>, b: bytes)
    requires Canonical(c) && Load(c, b).Some?
    ensures c.ok(Load(c, b).value) && Save(c, Load(c, b).value) == Some(b)
  {
    WireExact(c, b);
  }

  // -------------------------------------------------------------------------------------- sizes

  lemma {:induction false} EncAllSize<T>(c: Coder<T>, xs: seq<T>, k: nat)
    requires forall i :: 0 <= i < |xs| ==> |c.enc(xs[i])| <= k
    ensures |EncAll(c, xs)| <= k * |xs|
  {
    if xs != [] {
      EncAllSize(c, xs[1..], k);
      assert k * |xs| == k + k * (|xs| - 1);
    }
  }

  lemma BothSize<A, B>(a: Coder<A>, b: Coder<B>, x: A, y: B)
    ensures |Both(a, b).enc((x, y))| == |a.enc(x)| + |b.enc(y)|
  {
  }

  lemma CountedSize<T>(c: Coder<T>, limit: nat, xs: seq<T>)
    ensures |Counted(c, limit).enc(xs)| == 4 + |EncAll(c, xs)|
  {
  }

  lemma Scaled(k: nat, n: nat, limit: nat)
    requires n <= limit
    ensures k * n <= k * limit
  {
  }

  lemma ListingSize<V>(entry: Coder<(nat, V)>, m: map<nat, V>, limit: nat, k: nat)
    requires |m.Keys| <= limit && forall x :: x in m ==> |entry.enc((x, m[x]))| <= k
    ensures |EncAll(entry, Listing(m))| <= k * limit
  {
    var xs := Listing(m);
    ListingIs(m);
    forall i | 0 <= i < |xs| ensures |entry.enc(xs[i])| <= k {
      assert xs[i] == (xs[i].0, m[xs[i].0]);
    }
    EncAllSize(entry, xs, k);
    Scaled(k, |xs|, limit);
  }

  lemma CountedListingSize<V>(entry: Coder<(nat, V)>, limit: nat, m: map<nat, V>, cap: nat, k: nat, total: nat)
    requires |m.Keys| <= cap && (forall x :: x in m ==> |entry.enc((x, m[x]))| <= k) && total == k * cap
    ensures |Counted(entry, limit).enc(Listing(m))| <= 4 + total
  {
    ListingSize(entry, m, cap, k);
    CountedSize(entry, limit, Listing(m));
  }

  lemma MapSize<V>(item: nat -> Coder<V>, w: nat, limit: nat, m: map<nat, V>, k: nat, cap: nat, total: nat)
    requires |m.Keys| <= cap && (forall x :: x in m ==> |item(x).enc(m[x])| <= k) && total == (w + k) * cap
    ensures |MapC(item, w, limit).enc(m)| <= 4 + total
  {
    forall x | x in m ensures |Then(Number(w), item).enc((x, m[x]))| <= w + k {
    }
    CountedListingSize(Then(Number(w), item), limit, m, cap, w + k, total);
  }

  lemma HeadSize(c: Crypto, h: VersionHead)
    requires HeadFits(c, h)
    ensures |HeadC(c).enc(h)| <= 10284
  {
    MapSize((tag: nat) => MemberC(c, tag), 8, MAX_ROSTER, h.1.1, 32, MAX_ROSTER, 10240);
    BothSize(KeyC(), RosterC(c), h.1.0, h.1.1);
    BothSize(Number(8), Both(KeyC(), RosterC(c)), h.0, h.1);
  }

  lemma ReceiverForSize(mine: Tag, roster: map<Tag, Id>, tag: Tag, e: Receiver)
    ensures |ReceiverFor(mine, roster, tag).enc(e)| == 57
  {
  }

  lemma ReceiversSize(mine: Tag, roster: map<Tag, Id>, recv: map<Tag, Receiver>)
    requires |recv.Keys| <= MAX_ROSTER
    ensures |ReceiversC(mine, roster).enc(recv)| <= 16644
  {
    var item := (tag: nat) => ReceiverFor(mine, roster, tag);
    forall t | t in recv ensures |item(t).enc(recv[t])| <= 57 {
      ReceiverForSize(mine, roster, t, recv[t]);
    }
    MapSize(item, 8, |roster.Keys|, recv, 57, MAX_ROSTER, 16640);
  }

  lemma TailSize(mine: Tag, roster: map<Tag, Id>, t: VersionTail)
    requires TailFits(mine, roster, t) && |roster.Keys| <= MAX_ROSTER
    ensures |TailC(mine, roster).enc(t)| <= 16692
  {
    ReceiversSize(mine, roster, t.1.0);
    BothSize(ReceiversC(mine, roster), Number(8), t.1.0, t.1.1);
    BothSize(RatchetC(), Both(ReceiversC(mine, roster), Number(8)), t.0, t.1);
  }

  lemma VersionSize(c: Crypto, mine: Tag, x: Context, v: VersionKeys)
    requires VersionFits(c, mine, x, v)
    ensures |VersionC(c, mine, x).enc(v)| <= 26976
  {
    HeadSize(c, (v.version, (v.key, v.roster)));
    TailSize(mine, v.roster, (v.send, (v.recv, v.counter)));
  }

  lemma VersionsOverSize(item: nat -> Coder<VersionKeys>, retain: nat, versions: map<Context, VersionKeys>)
    requires |versions.Keys| <= MAX_RETAINED_VERSIONS
    requires forall x :: x in versions ==> |item(x).enc(versions[x])| <= 26976
    ensures |MapC(item, 16, retain).enc(versions)| <= 1727492
  {
    MapSize(item, 16, retain, versions, 26976, MAX_RETAINED_VERSIONS, 1727488);
  }

  lemma VersionsSize(c: Crypto, mine: Tag, retain: nat, versions: map<Context, VersionKeys>)
    requires VersionsFit(c, mine, retain, versions) && retain <= MAX_RETAINED_VERSIONS
    ensures |VersionsC(c, mine, retain).enc(versions)| <= 1727492
  {
    var item := (x: nat) => VersionC(c, mine, x);
    forall x | x in versions ensures |item(x).enc(versions[x])| <= 26976 {
      VersionSize(c, mine, x, versions[x]);
    }
    VersionsOverSize(item, retain, versions);
  }

  lemma OrderSize(retain: nat, order: seq<Context>)
    requires OrderFits(retain, order) && retain <= MAX_RETAINED_VERSIONS
    ensures |Counted(Number(16), retain).enc(order)| <= 1028
  {
    EncAllSize(Number(16), order, 16);
    CountedSize(Number(16), retain, order);
  }

  lemma CurrentSize(o: Option<Context>)
    ensures |Maybe(Number(16), 0).enc(o)| <= 17
  {
  }

  lemma ContentSize(c: Crypto, mine: Tag, retain: nat, t: StateTail)
    requires ContentFits(c, mine, retain, t) && retain <= MAX_RETAINED_VERSIONS
    ensures |ContentC(c, mine, retain).enc(t)| <= 1728537
  {
    VersionsSize(c, mine, retain, t.0);
    OrderSize(retain, t.1.0);
    CurrentSize(t.1.1);
  }

  lemma OwnerSize(c: Crypto, h: StateHead)
    ensures |OwnerC(c).enc(h)| == 76
  {
    var limit := Limited(MAX_RETAINED_VERSIONS);
    BothSize(Number(8), limit, h.1.1.0, h.1.1.1);
    BothSize(Number(32), Both(Number(8), limit), h.1.0, h.1.1);
    BothSize(Number(32), Both(Number(32), Both(Number(8), limit)), h.0, h.1);
  }

  lemma StateSize(c: Crypto, s: State)
    requires StateFits(c, s)
    ensures |StateC(c).enc(s)| <= MAX_MEDIA_STATE_BYTES
  {
    OwnerSize(c, (s.sid, (s.me, (s.tag, s.retain))));
    ContentSize(c, s.tag, s.retain, (s.versions, (s.order, s.current)));
  }

  /** A state that passes the importer's checks fits the size limit and comes back equal. */
  lemma FittingStatesSurvive(c: Crypto, s: State)
    requires StateFits(c, s)
    ensures Export(c, s).Some? && Import(c, Export(c, s).value) == Some(s)
  {
    StateSize(c, s);
    StateCanonical(c);
    SavedLoads(StateC(c), s);
  }

  // ---------------------------------------------------------------------------- reachable states

  /** Digest widths of the source's fixed-size arrays. */
  ghost predicate Widths(c: Crypto) {
    (forall i: Id :: BE.Fits(c.tagOf(i), 8)) && (forall v: Label :: BE.Fits(c.contextOf(v), 16))
  }

  ghost predicate Admissible(c: Crypto, me: Id, e: Event) {
    e.Installed? ==>
      && BE.Fits(e.version, 8) && |e.ids| <= MAX_ROSTER
      && forall i :: i in e.ids ==> BE.Fits(i, 32) && (c.tagOf(i) == c.tagOf(me) ==> i == me)
  }

  ghost predicate ModestVersion(c: Crypto, me: Id, v: VersionKeys) {
    && BE.Fits(v.version, 8) && |v.roster.Keys| <= MAX_ROSTER
    && forall t :: t in v.roster ==>
      BE.Fits(v.roster[t], 32) && (c.tagOf(v.roster[t]) == c.tagOf(me) ==> v.roster[t] == me)
  }

  ghost predicate Modest(c: Crypto, s: State) {
    forall x :: x in s.versions ==> ModestVersion(c, s.me, s.versions[x])
  }

  lemma WithModest(c: Crypto, s: State, x: Context, w: VersionKeys)
    requires Modest(c, s) && x in s.versions && w.version == s.versions[x].version && w.roster == s.versions[x].roster
    ensures Modest(c, With(s, x, w))
  {
  }

  lemma InstallModest(c: Crypto, s: State, e: Event)
    requires Good(c, s) && Modest(c, s) && e.Installed? && Admissible(c, s.me, e)
    ensures Modest(c, Install(c, s, e.version, e.key, e.ids))
  {
    var x := c.contextOf(e.version);
    if x !in s.versions {
      var v := FreshVersion(c, s.me, e.version, e.key, e.ids);
      RosterTagged(c, e.ids);
      assert |v.roster.Keys| == |v.roster|;
      assert ModestVersion(c, s.me, v);
      QueuePush(s.versions, s.order, x, v);
      TrimKeeps(s.versions[x := v], s.order + [x], s.retain);
    }
  }

  lemma StepModest(c: Crypto, s: State, e: Event)
    requires Lawful(c.aead) && Good(c, s) && Modest(c, s) && Admissible(c, s.me, e)
    ensures Modest(c, Step(c, s, e)) && Step(c, s, e).me == s.me && Step(c, s, e).retain == s.retain
    ensures Step(c, s, e).sid == s.sid
  {
    match e
    case Installed(version, key, ids) => InstallModest(c, s, e);
    case Sent(codec, frame, keyframe) =>
      SendOutcome(c, s, codec, frame, keyframe);
      if s.current.Some? && s.versions[s.current.value].counter < MAX_U64 {
        WithModest(c, s, s.current.value, Spent(c, s.versions[s.current.value]));
      }
    case Received(packet) =>
      var t := Receive(c, s, packet).0;
      if t != s {
        var x := Parse(packet).value.t.version;
        WithModest(c, s, x, t.versions[x]);
      }
  }

  lemma {:induction false} QueueSize(versions: map<Context, VersionKeys>, order: seq<Context>)
    requires Queue(versions, order)
    ensures |versions.Keys| == |order|
  {
    if order == [] {
      assert versions.Keys == {};
    } else {
      assert order == [order[0]] + order[1..];
      QueueSize(versions - {order[0]}, order[1..]);
      assert versions.Keys == (versions - {order[0]}).Keys + {order[0]};
    }
  }

  lemma VersionImports(c: Crypto, me: Id, x: Context, v: VersionKeys)
    requires Widths(c) && VersionOk(c, me, x, v) && ModestVersion(c, me, v)
    ensures VersionFits(c, c.tagOf(me), x, v)
  {
    BE.EightBytes(v.send.epoch);
    BE.EightBytes(v.counter);
    forall t | t in v.recv
      ensures BE.Fits(t, 8) && t != c.tagOf(me) && t in v.roster && ReceiverFits(v.recv[t])
    {
      assert c.tagOf(v.roster[t]) == t;
    }
    Subset(v.recv.Keys, v.roster.Keys);
    forall t | t in v.roster ensures BE.Fits(t, 8) && BE.Fits(v.roster[t], 32) && c.tagOf(v.roster[t]) == t {
    }
  }

  lemma GoodImports(c: Crypto, s: State)
    requires Widths(c) && Good(c, s) && Modest(c, s)
    requires BE.Fits(s.sid, 32) && BE.Fits(s.me, 32) && s.retain <= MAX_RETAINED_VERSIONS
    ensures StateFits(c, s)
  {
    QueueSize(s.versions, s.order);
    forall x | x in s.versions ensures BE.Fits(x, 16) && VersionFits(c, s.tag, x, s.versions[x]) {
      VersionImports(c, s.me, x, s.versions[x]);
    }
    forall i | 0 <= i < |s.order| ensures BE.Fits(s.order[i], 16) && s.order[i] in s.versions {
      assert s.order[i] in s.order;
    }
    assert s.versions.Keys == {} <==> s.current.None?;
  }

  lemma {:induction false} RunModest(c: Crypto, sid: nat, me: Id, retain: nat, es: seq<Event>)
    requires Lawful(c.aead) && forall i :: 0 <= i < |es| ==> Admissible(c, me, es[i])
    ensures var s := Run(c, New(c, sid, me, retain), es);
      Modest(c, s) && s.me == me && s.sid == sid && s.retain == New(c, sid, me, retain).retain
  {
    if es != [] {
      var init := es[..|es| - 1];
      RunModest(c, sid, me, retain, init);
      RunKeepsGood(c, sid, me, retain, init);
      StepModest(c, Run(c, New(c, sid, me, retain), init), es[|es| - 1]);
    }
  }

  /** Every state a protector reaches passes every importer check, fits the size limit and comes back equal. */
  lemma ReachableStatesSurvive(c: Crypto, sid: nat, me: Id, retain: nat, es: seq<Event>)
    requires Lawful(c.aead) && Widths(c) && BE.Fits(sid, 32) && BE.Fits(me, 32) && retain <= MAX_RETAINED_VERSIONS
    requires forall i :: 0 <= i < |es| ==> Admissible(c, me, es[i])
    ensures var s := Run(c, New(c, sid, me, retain), es);
      Export(c, s).Some? && Import(c, Export(c, s).value) == Some(s)
  {
    var s := Run(c, New(c, sid, me, retain), es);
    RunKeepsGood(c, sid, me, retain, es);
    RunModest(c, sid, me, retain, es);
    GoodImports(c, s);
    FittingStatesSurvive(c, s);
  }

  /** Accepted bytes are exactly what exporting the imported state writes. */
  lemma ImportIsExact(c: Crypto, b: bytes)
    requires Import(c, b).Some?
    ensures StateFits(c, Import(c, b).value) && Export(c, Import(c, b).value) == Some(b)
  {
    StateCanonical(c);
    LoadedSaves(StateC(c), b);
  }
}
