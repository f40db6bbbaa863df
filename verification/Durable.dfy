/** The durable conference: the bookkeeping of one participant over the store, across errors, crashes
  * and reopenings (crates/cfr/src/persistence/mod.rs, state.rs and store.rs). */
module Durable {
  import opened Base
  import opened Coders
  import opened Outbox
  import opened LogicalCodec
  import opened Wal
  import opened Store
  import BE = BigEndian
  import Crash

  /** One participant's conference: its bookkeeping rules, its protocol step, its own persistence, the
    * codec of the logical state, the store's checksums and the stored options. */
  datatype World<!C> =
    World(rules: Rules, step: Protocol<C>, k: Conf<C>, c: Coder<Logical<C>>, sums: Sums, options: Options)

  /** The store accepts the records that decode as logical states. */
  function Judged<C>(w: World<C>, r: Record): (v: Verdict) {
    if Decoded(w.c, r.payload, r.sequence).Some? then Sane else if OfOtherSchema(r.payload) then OtherSchema else Broken
  }

  function Disk<C>(w: World<C>): (f: Crash.Fixed) {
    Crash.Fixed(w.sums, (r: Record) => Judged(w, r),
                Crash.Limits(w.options.maxRecord, w.options.maxWal, w.options.threshold))
  }

  /** The state in memory and the store. */
  datatype Host<C> = Host(state: Logical<C>, disk: Crash.Machine)

  // ------------------------------------------------------------------------------------ operations

  /** The book a call wants stored; `None` when it is answered or refused without the store. */
  function Attempt<C>(w: World<C>, b: Book<C>, call: Event<C>): (r: Option<Book<C>>) {
    match call
    case Arrived(id, payload) =>
      var (n, reply) := HandleInbound(w.rules, w.step, b, id, payload);
      if reply == Ran then Some(n) else None
    case Acked(id) =>
      var (n, done) := Acknowledge(b, id);
      if done then Some(n) else None
    case Acted(act) =>
      var (n, done) := Mutate(w.rules, act, b);
      if done then Some(n) else None
  }

  /** The candidate of a call: a decoded copy of the current state with the call's effect, one sequence
    * number on, if its image is within the limits. */
  function Prepared<C>(w: World<C>, s: Logical<C>, call: Event<C>): (r: Option<Logical<C>>)
    ensures r.Some? ==> Encoded(w.c, r.value).Some?
  {
    match Encoded(w.c, s)
    case None => None
    case Some(current) =>
      match Decoded(w.c, current, s.sequence)
      case None => None
      case Some(copy) =>
        match Attempt(w, copy.book, call)
        case None => None
        case Some(book) =>
          var candidate := Logical(copy.sequence + 1, copy.options, book);
          if candidate.sequence > MAX_U64 || Encoded(w.c, candidate) == None then None else Some(candidate)
  }

  /** A call with what befalls its checkpoint and its append, a checkpoint, or a crash and reopening. */
  datatype Happening<!C> =
    | Calling(call: Event<C>, first: Crash.Stop, second: Crash.Stop)
    | Checkpointing(stop: Crash.Stop)
    | Crashing(pick: Crash.Pick)

  /** What is asked of the store, and the state in memory once that returns. */
  function Plan<C>(w: World<C>, s: Logical<C>, e: Happening<C>): (r: Option<(Crash.Event, Logical<C>)>) {
    match e
    case Calling(call, first, second) =>
      (match Prepared(w, s, call)
       case None => None
       case Some(candidate) => Some((Crash.Committing(Encoded(w.c, candidate).value, first, second), candidate)))
    case Checkpointing(stop) =>
      if Encoded(w.c, s) == None then None else Some((Crash.Checkpointing(stop), s))
    case Crashing(pick) => Some((Crash.Crashing(pick), s))
  }

  /** `Idle`: the store was not asked for anything. */
  datatype Outcome = Idle | Did(result: Crash.Result)

  /** The state in memory moves only when the store returns; reopening decodes the recovered record. */
  function Resumed<C>(w: World<C>, s: Logical<C>, next: Logical<C>, o: Option<(Crash.Machine, Crash.Result)>)
    : (r: Option<(Host<C>, Outcome)>)
  {
    match o
    case None => None
    case Some((n, result)) =>
      match result
      case Returned => Some((Host(next, n), Did(result)))
      case Errored => Some((Host(s, n), Did(result)))
      case Recovered =>
        match Decoded(w.c, n.live.payload, n.live.sequence)
        case None => None
        case Some(found) => Some((Host(found, n), Did(result)))
  }

  function Do<C>(w: World<C>, h: Host<C>, e: Happening<C>): (r: Option<(Host<C>, Outcome)>)
    requires h.disk.snaps != []
  {
    match Plan(w, h.state, e)
    case None => Some((h, Idle))
    case Some((ask, next)) => Resumed(w, h.state, next, Crash.Step(Disk(w), h.disk, ask))
  }

  // ------------------------------------------------------------------------------------ whole runs

  ghost function End<C>(w: World<C>, h: Host<C>, es: seq<Happening<C>>): (r: Option<Host<C>>)
    decreases |es|
  {
    if es == [] then Some(h)
    else if h.disk.snaps == [] || Do(w, h, es[0]) == None then None
    else End(w, Do(w, h, es[0]).value.0, es[1..])
  }

  /** What the store was asked for during a run. */
  ghost function Trace<C>(w: World<C>, h: Host<C>, es: seq<Happening<C>>): (asks: seq<Crash.Event>)
    decreases |es|
  {
    if es == [] || h.disk.snaps == [] || Do(w, h, es[0]) == None then []
    else
      var plan := Plan(w, h.state, es[0]);
      (if plan.Some? then [plan.value.0] else []) + Trace(w, Do(w, h, es[0]).value.0, es[1..])
  }

  /** A call took effect when it returned, or when it was in flight at a crash and was found again. */
  ghost predicate Took<C>(h: Host<C>, n: Host<C>, o: Outcome, e: Happening<C>) {
    e.Calling? && o.Did? && (o.result.Returned? || (o.result.Recovered? && n.state.sequence != h.state.sequence))
  }

  ghost function Taken<C>(w: World<C>, h: Host<C>, es: seq<Happening<C>>): (calls: seq<Event<C>>)
    decreases |es|
  {
    if es == [] || h.disk.snaps == [] || Do(w, h, es[0]) == None then []
    else
      var (n, o) := Do(w, h, es[0]).value;
      (if Took(h, n, o, es[0]) then [es[0].call] else []) + Taken(w, n, es[1..])
  }

  // ------------------------------------------------------------------------------------- the setting

  /** A conference whose export can be imported, deriving this participant's retry keys. */
  ghost predicate Holds<C>(w: World<C>, conf: C) {
    Imports(w.k, conf) && w.k.keyOf(conf) == w.rules.keyOf
  }

  ghost predicate Addressed(ms: seq<Outgoing>) {
    forall i :: 0 <= i < |ms| ==> RecipientFits(ms[i].recipient)
  }

  ghost predicate Conforms<C(!new)>(w: World<C>, act: Act<C>) {
    forall conf :: Holds(w, conf) && act(conf).Some? ==> Holds(w, act(conf).value.0) && Addressed(act(conf).value.1)
  }

  ghost predicate StepConforms<C(!new)>(w: World<C>) {
    forall conf, payload :: Holds(w, conf) && w.step(conf, payload).Some? ==>
      Holds(w, w.step(conf, payload).value.0) && Addressed(w.step(conf, payload).value.1)
  }

  /** Digests and retry keys have 32 bytes. */
  ghost predicate Hashes(rules: Rules) {
    && (forall payload :: BE.Fits(rules.digest(payload), 32))
    && (forall id, recipient, payload :: BE.Fits(rules.keyOf(id, recipient, payload), 32))
  }

  ghost predicate WorldOk<C(!new)>(w: World<C>) {
    && OptionsOk(w.options) && w.options.maxWal >= WAL_HEADER_LEN
    && w.rules.window == w.options.window && w.rules.maxOutbox == w.options.maxOutbox
    && Hashes(w.rules) && StepConforms(w)
  }

  /** States are stored in the format of the logical state. */
  ghost predicate Persists<C>(w: World<C>) {
    w.c == LogicalC(w.k)
  }

  ghost predicate CallOk<C(!new)>(w: World<C>, call: Event<C>) {
    match call
    case Arrived(id, _) => BE.Fits(id, 32)
    case Acked(_) => true
    case Acted(act) => Conforms(w, act)
  }

  ghost predicate AllOk<C(!new)>(w: World<C>, es: seq<Happening<C>>) {
    forall i :: 0 <= i < |es| && es[i].Calling? ==> CallOk(w, es[i].call)
  }

  /** The book in memory is the bookkeeping of `t`. */
  ghost predicate Tracks<C>(w: World<C>, s: Logical<C>, t: Tracked<C>) {
    && s.book == t.book && s.options == w.options && 1 <= s.sequence <= MAX_U64
    && Kept(w.rules, t.book, t.past) && Widths(t.book) && Holds(w, t.book.conf)
  }

  /** The record the store takes for live is the image of the state in memory. */
  ghost predicate Mirrors<C>(w: World<C>, s: Logical<C>, live: Record) {
    Encoded(w.c, s) == Some(live.payload) && live.sequence == s.sequence
  }

  ghost predicate Fit<C>(w: World<C>, h: Host<C>, t: Tracked<C>) {
    Tracks(w, h.state, t) && Mirrors(w, h.state, h.disk.live) && Crash.Sound(Disk(w), h.disk)
  }

  // -------------------------------------------------------------------------- widths are preserved

  lemma EnqueueWidths<C>(w: World<C>, b: Book<C>, ms: seq<Outgoing>)
    requires Hashes(w.rules) && Widths(b) && Addressed(ms)
    ensures Widths(Enqueued(w.rules, b, ms))
  {
    var q := Queue(w.rules, b.outbox, b.next, ms);
    forall id | id in q ensures BE.Fits(q[id].key, 32) && RecipientFits(q[id].recipient) {
      QueueAt(w.rules, b.outbox, b.next, ms, id);
    }
  }

  lemma NoteWidths<C>(w: World<C>, b: Book<C>, p: Past, id: nat, digest: nat)
    requires Widths(b) && Kept(w.rules, b, p) && BE.Fits(id, 32) && BE.Fits(digest, 32)
    ensures Widths(Noted(w.rules, b, id, digest))
  {
    ExpireOne(b.inbound[id := digest], b.order + [id], w.rules.window);
  }

  lemma NextTracks<C(!new)>(w: World<C>, t: Tracked<C>, call: Event<C>)
    requires WorldOk(w) && CallOk(w, call) && Kept(w.rules, t.book, t.past) && Widths(t.book) && Holds(w, t.book.conf)
    ensures var u := Next(w.rules, w.step, t, call);
      Kept(w.rules, u.book, u.past) && Widths(u.book) && Holds(w, u.book.conf) && Grows(t.past, u.past)
    ensures match Attempt(w, t.book, call)
      case None => Next(w.rules, w.step, t, call) == t
      case Some(b) => Next(w.rules, w.step, t, call).book == b
  {
    NextKeeps(w.rules, w.step, t, call);
    match call
    case Arrived(id, payload) => ArrivedWidths(w, t, id, payload);
    case Acked(id) =>
    case Acted(act) =>
      if Mutate(w.rules, act, t.book).1 {
        EnqueueWidths(w, t.book.(conf := act(t.book.conf).value.0), act(t.book.conf).value.1);
      }
  }

  lemma ArrivedWidths<C(!new)>(w: World<C>, t: Tracked<C>, id: nat, payload: bytes)
    requires Hashes(w.rules) && StepConforms(w) && BE.Fits(id, 32)
    requires Kept(w.rules, t.book, t.past) && Widths(t.book) && Holds(w, t.book.conf)
    ensures var n := HandleInbound(w.rules, w.step, t.book, id, payload).0; Widths(n) && Holds(w, n.conf)
  {
    var b := t.book;
    if HandleInbound(w.rules, w.step, b, id, payload).1 == Ran {
      var (conf, ms) := w.step(b.conf, payload).value;
      var q := Enqueued(w.rules, b.(conf := conf), ms);
      EnqueueWidths(w, b.(conf := conf), ms);
      EnqueueKeeps(w.rules, b.(conf := conf), t.past, ms);
      NoteWidths(w, q, Sent(w.rules, t.past, b.next, ms), id, w.rules.digest(payload));
    }
  }

  // ------------------------------------------------------------------------------------- one step

  ghost predicate Redecodes<C>(w: World<C>, s: Logical<C>) {
    Encoded(w.c, s).Some? ==> Decoded(w.c, Encoded(w.c, s).value, s.sequence) == Some(s)
  }

  ghost predicate Restores<C(!new)>(w: World<C>) {
    forall s, t :: Tracks(w, s, t) ==> Redecodes(w, s)
  }

  lemma PersistsRestores<C(!new)>(w: World<C>)
    requires WorldOk(w) && Persists(w)
    ensures Restores(w)
  {
    forall s, t | Tracks(w, s, t) ensures Redecodes(w, s) {
      if Encoded(w.c, s).Some? {
        BookSurvives(w.rules, w.k, s, t.past);
      }
    }
  }

  /** The candidate of a call holds exactly the book the call would leave. */
  lemma PreparedTracks<C(!new)>(w: World<C>, s: Logical<C>, t: Tracked<C>, call: Event<C>)
    requires WorldOk(w) && Restores(w) && Tracks(w, s, t) && CallOk(w, call) && Prepared(w, s, call).Some?
    ensures var n := Prepared(w, s, call).value;
      Tracks(w, n, Next(w.rules, w.step, t, call)) && n.sequence == s.sequence + 1 && Redecodes(w, n)
    ensures Grows(t.past, Next(w.rules, w.step, t, call).past)
  {
    var n := Prepared(w, s, call).value;
    assert Redecodes(w, s);
    NextTracks(w, t, call);
    assert Tracks(w, n, Next(w.rules, w.step, t, call));
  }

  ghost function After<C>(w: World<C>, t: Tracked<C>, e: Happening<C>, took: bool): (u: Tracked<C>) {
    if took && e.Calling? then Next(w.rules, w.step, t, e.call) else t
  }

  ghost predicate Went<C>(w: World<C>, h: Host<C>, t: Tracked<C>, e: Happening<C>)
    requires h.disk.snaps != []
  {
    Do(w, h, e).Some? &&
    var (n, o) := Do(w, h, e).value;
    var u := After(w, t, e, Took(h, n, o, e));
    && Fit(w, n, u) && Grows(t.past, u.past)
    && (Crash.Intact(n.disk) || (e.Calling? && o == Did(Crash.Returned) && n.disk.handle.Orphan?))
  }

  /** Whatever happens, the host goes on with the book the calls that took effect leave, and with
    * nothing else. */
  lemma DoKeeps<C(!new)>(w: World<C>, h: Host<C>, t: Tracked<C>, e: Happening<C>)
    requires WorldOk(w) && Restores(w) && Fit(w, h, t) && Crash.Intact(h.disk) && (e.Calling? ==> CallOk(w, e.call))
    ensures Went(w, h, t, e)
  {
    assert Redecodes(w, h.state);
    if Plan(w, h.state, e).Some? {
      if e.Calling? {
        PreparedTracks(w, h.state, t, e.call);
        CallKeeps(w, h, t, e, Plan(w, h.state, e).value.1);
      } else {
        RestKeeps(w, h, t, e);
      }
    }
  }

  lemma RestKeeps<C>(w: World<C>, h: Host<C>, t: Tracked<C>, e: Happening<C>)
    requires Fit(w, h, t) && Redecodes(w, h.state) && Crash.Intact(h.disk) && !e.Calling? && Plan(w, h.state, e).Some?
    ensures Went(w, h, t, e)
  {
    Crash.StepAtomic(Disk(w), h.disk, Plan(w, h.state, e).value.0);
  }

  lemma CallKeeps<C>(w: World<C>, h: Host<C>, t: Tracked<C>, e: Happening<C>, next: Logical<C>)
    requires Fit(w, h, t) && Redecodes(w, h.state) && Crash.Intact(h.disk) && e.Calling?
    requires Prepared(w, h.state, e.call) == Some(next) && Redecodes(w, next) && next.sequence == h.state.sequence + 1
    requires Tracks(w, next, Next(w.rules, w.step, t, e.call)) && Grows(t.past, Next(w.rules, w.step, t, e.call).past)
    ensures Went(w, h, t, e)
  {
    var payload := Encoded(w.c, next).value;
    var ask := Crash.Committing(payload, e.first, e.second);
    assert Crash.Candidate(h.disk, payload) == Record(next.sequence, payload);
    Crash.StepAtomic(Disk(w), h.disk, ask);
    ResumedKeeps(w, h, t, e, next, Crash.Step(Disk(w), h.disk, ask));
  }

  lemma ResumedKeeps<C>(w: World<C>, h: Host<C>, t: Tracked<C>, e: Happening<C>, next: Logical<C>,
                        o: Option<(Crash.Machine, Crash.Result)>)
    requires Tracks(w, h.state, t) && Mirrors(w, h.state, h.disk.live) && Redecodes(w, h.state) && e.Calling?
    requires Tracks(w, next, Next(w.rules, w.step, t, e.call)) && Redecodes(w, next) && Encoded(w.c, next).Some?
    requires next.sequence == h.state.sequence + 1 && Crash.Intact(h.disk)
    requires Crash.Atomic(Disk(w), h.disk, o, Record(next.sequence, Encoded(w.c, next).value), true)
    ensures Resumed(w, h.state, next, o).Some?
    ensures var (n, result) := Resumed(w, h.state, next, o).value;
      && Fit(w, n, After(w, t, e, Took(h, n, result, e)))
      && (Crash.Intact(n.disk) || (result == Did(Crash.Returned) && n.disk.handle.Orphan?))
  {
    var live := o.value.0.live;
    if o.value.1.Recovered? {
      RecoveredAs(w, h, next, live);
    } else {
      assert Mirrors(w, if o.value.1.Returned? then next else h.state, live);
    }
  }

  /** What is recovered is the state in memory or the candidate, told apart by the sequence number. */
  lemma RecoveredAs<C>(w: World<C>, h: Host<C>, next: Logical<C>, live: Record)
    requires Mirrors(w, h.state, h.disk.live) && Redecodes(w, h.state)
    requires Redecodes(w, next) && Encoded(w.c, next).Some? && next.sequence == h.state.sequence + 1
    requires live == h.disk.live || live == Record(next.sequence, Encoded(w.c, next).value)
    ensures var s := if live == h.disk.live then h.state else next;
      && Decoded(w.c, live.payload, live.sequence) == Some(s) && Mirrors(w, s, live)
      && (s.sequence != h.state.sequence <==> live != h.disk.live)
  {
  }

  // ------------------------------------------------------------------------------------- every run

  lemma {:induction false} RunFront<C>(w: World<C>, t: Tracked<C>, call: Event<C>, rest: seq<Event<C>>)
    ensures Run(w.rules, w.step, t, [call] + rest) == Run(w.rules, w.step, Next(w.rules, w.step, t, call), rest)
    decreases |rest|
  {
    var all := [call] + rest;
    if rest == [] {
      assert all[..0] == [];
    } else {
      RunFront(w, t, call, rest[..|rest| - 1]);
      assert all[..|all| - 1] == [call] + rest[..|rest| - 1];
    }
  }

  lemma GrowsOn(p: Past, q: Past, r: Past)
    requires Grows(p, q) && Grows(q, r)
    ensures Grows(p, r)
  {
  }

  /** No call of the run returned through an orphaned handle. */
  ghost predicate Careful<C>(w: World<C>, h: Host<C>, es: seq<Happening<C>>) {
    Crash.Careful(Disk(w), h.disk, Trace(w, h, es))
  }

  lemma CarefulRest<C(!new)>(w: World<C>, h: Host<C>, es: seq<Happening<C>>)
    requires es != [] && h.disk.snaps != [] && Do(w, h, es[0]).Some? && Careful(w, h, es)
    ensures var (n, o) := Do(w, h, es[0]).value;
      Careful(w, n, es[1..]) && !(es[0].Calling? && o == Did(Crash.Returned) && n.disk.handle.Orphan?)
  {
    var n := Do(w, h, es[0]).value.0;
    var plan := Plan(w, h.state, es[0]);
    if plan.Some? {
      var rest := Trace(w, n, es[1..]);
      assert Trace(w, h, es) == [plan.value.0] + rest;
      assert ([plan.value.0] + rest)[1..] == rest;
    } else {
      assert Trace(w, h, es) == Trace(w, h, es[1..]);
    }
  }

  lemma TakenFront<C>(w: World<C>, h: Host<C>, t: Tracked<C>, es: seq<Happening<C>>)
    requires es != [] && h.disk.snaps != [] && Do(w, h, es[0]).Some?
    ensures var (n, o) := Do(w, h, es[0]).value;
      Run(w.rules, w.step, t, Taken(w, h, es))
        == Run(w.rules, w.step, After(w, t, es[0], Took(h, n, o, es[0])), Taken(w, n, es[1..]))
  {
    var (n, o) := Do(w, h, es[0]).value;
    var rest := Taken(w, n, es[1..]);
    if Took(h, n, o, es[0]) {
      RunFront(w, t, es[0].call, rest);
    } else {
      assert Taken(w, h, es) == rest;
    }
  }

  /** A host that keeps `t`, about to go through `es`. */
  ghost predicate Going<C(!new)>(w: World<C>, h: Host<C>, t: Tracked<C>, es: seq<Happening<C>>) {
    WorldOk(w) && Restores(w) && Fit(w, h, t) && Crash.Intact(h.disk) && AllOk(w, es) && Careful(w, h, es)
  }

  lemma GoingRest<C(!new)>(w: World<C>, h: Host<C>, t: Tracked<C>, es: seq<Happening<C>>)
    requires Going(w, h, t, es) && es != []
    ensures h.disk.snaps != [] && Do(w, h, es[0]).Some?
    ensures var (n, o) := Do(w, h, es[0]).value;
      var u := After(w, t, es[0], Took(h, n, o, es[0]));
      Going(w, n, u, es[1..]) && Grows(t.past, u.past)
  {
    DoKeeps(w, h, t, es[0]);
    CarefulRest(w, h, es);
  }

  /** Over every run in which no call returned through an orphaned handle, reopening always succeeds and
    * the book is the one left by exactly the calls that returned or were found again in flight. */
  lemma {:induction false} EveryRunIsSerial<C(!new)>(w: World<C>, h: Host<C>, t: Tracked<C>, es: seq<Happening<C>>)
    requires Going(w, h, t, es)
    ensures End(w, h, es).Some?
    ensures var u := Run(w.rules, w.step, t, Taken(w, h, es));
      Fit(w, End(w, h, es).value, u) && Crash.Intact(End(w, h, es).value.disk) && Grows(t.past, u.past)
    decreases |es|
  {
    if es != [] {
      GoingRest(w, h, t, es);
      TakenFront(w, h, t, es);
      var (n, o) := Do(w, h, es[0]).value;
      var u := After(w, t, es[0], Took(h, n, o, es[0]));
      EveryRunIsSerial(w, n, u, es[1..]);
      GrowsOn(t.past, u.past, Run(w.rules, w.step, u, Taken(w, n, es[1..])).past);
    }
  }

  // ---------------------------------------------------------------------------- from the beginning

  /** A new conference with its first messages queued. */
  function Opening<C>(w: World<C>, conf: C, ms: seq<Outgoing>): (t: Tracked<C>) {
    var t := Fresh(conf);
    Tracked(Enqueued(w.rules, t.book, ms), Sent(w.rules, t.past, t.book.next, ms))
  }

  function Founded<C>(w: World<C>, conf: C, ms: seq<Outgoing>): (h: Option<Host<C>>) {
    var s := Logical(1, w.options, Opening(w, conf, ms).book);
    if !HasRoom(w.rules, Fresh(conf).book, ms) then None
    else match Encoded(w.c, s)
      case None => None
      case Some(payload) => Some(Host(s, Crash.Created(Record(1, payload))))
  }

  lemma OpeningKept<C>(w: World<C>, conf: C, ms: seq<Outgoing>)
    requires Hashes(w.rules) && Addressed(ms) && HasRoom(w.rules, Fresh(conf).book, ms)
    ensures var t := Opening(w, conf, ms); Kept(w.rules, t.book, t.past) && Widths(t.book) && t.book.conf == conf
  {
    var t := Fresh(conf);
    assert LastIds([], w.rules.window) == [];
    EnqueueKeeps(w.rules, t.book, t.past, ms);
    EnqueueWidths(w, t.book, ms);
  }

  lemma FoundedFits<C(!new)>(w: World<C>, conf: C, ms: seq<Outgoing>)
    requires WorldOk(w) && Restores(w) && Holds(w, conf) && Addressed(ms) && Founded(w, conf, ms).Some?
    ensures var h := Founded(w, conf, ms).value;
      Fit(w, h, Opening(w, conf, ms)) && Crash.Intact(h.disk) && h.disk.handle.Linked?
  {
    var h := Founded(w, conf, ms).value;
    OpeningKept(w, conf, ms);
    assert Tracks(w, h.state, Opening(w, conf, ms));
    assert Redecodes(w, h.state);
    Crash.CreatedSound(Disk(w), h.disk.live);
  }

  /** Every error a call reports is followed by reopening. */
  ghost predicate Prudent<C>(w: World<C>, h: Host<C>, es: seq<Happening<C>>) {
    Crash.Prudent(Disk(w), h.disk, Trace(w, h, es))
  }

  ghost predicate Ready<C>(w: World<C>, h: Host<C>, es: seq<Happening<C>>) {
    h.disk.handle.Linked? || Trace(w, h, es) == [] || Trace(w, h, es)[0].Crashing?
  }

  /** A host that keeps `t`, whose caller will reopen after every error. */
  ghost predicate Wary<C(!new)>(w: World<C>, h: Host<C>, t: Tracked<C>, es: seq<Happening<C>>) {
    && WorldOk(w) && Restores(w) && Fit(w, h, t) && Crash.Intact(h.disk) && AllOk(w, es)
    && Prudent(w, h, es) && Ready(w, h, es)
  }

  lemma CandidateIsSane<C>(w: World<C>, disk: Crash.Machine, next: Logical<C>)
    requires Redecodes(w, next) && Encoded(w.c, next).Some? && next.sequence == disk.live.sequence + 1
    ensures Disk(w).valid(Crash.Candidate(disk, Encoded(w.c, next).value)).Sane?
  {
  }

  lemma AskDecodes<C(!new)>(w: World<C>, h: Host<C>, t: Tracked<C>, e: Happening<C>)
    requires WorldOk(w) && Restores(w) && Fit(w, h, t) && (e.Calling? ==> CallOk(w, e.call))
    requires Plan(w, h.state, e).Some?
    ensures Crash.Decodable(Disk(w), h.disk, Plan(w, h.state, e).value.0)
  {
    if e.Calling? {
      PreparedTracks(w, h.state, t, e.call);
      CandidateIsSane(w, h.disk, Plan(w, h.state, e).value.1);
    }
  }

  /** One step at the store, and what a cautious run asks for next. */
  lemma PrudentAsk(f: Crash.Fixed, m: Crash.Machine, ask: Crash.Event, n: Crash.Machine, rest: seq<Crash.Event>)
    requires Crash.Sound(f, m) && Crash.Decodable(f, m, ask) && (m.handle.Linked? || ask.Crashing?)
    requires Crash.Prudent(f, m, [ask] + rest) && Crash.Step(f, m, ask).Some? && Crash.Step(f, m, ask).value.0 == n
    ensures Crash.Prudent(f, n, rest) && (n.handle.Linked? || rest == [] || rest[0].Crashing?)
    ensures Crash.Step(f, m, ask).value.1.Returned? ==> n.handle.Linked?
    ensures Crash.Careful(f, n, rest) ==> Crash.Careful(f, m, [ask] + rest)
  {
    assert ([ask] + rest)[1..] == rest;
    Crash.StepLinked(f, m, ask);
  }

  lemma TraceFront<C>(w: World<C>, h: Host<C>, es: seq<Happening<C>>)
    requires es != [] && h.disk.snaps != [] && Do(w, h, es[0]).Some?
    ensures var plan := Plan(w, h.state, es[0]);
      Trace(w, h, es) == (if plan.Some? then [plan.value.0] else []) + Trace(w, Do(w, h, es[0]).value.0, es[1..])
    ensures Plan(w, h.state, es[0]) == None ==> Do(w, h, es[0]).value.0 == h && Trace(w, h, es) == Trace(w, h, es[1..])
  {
    if Plan(w, h.state, es[0]) == None {
      assert [] + Trace(w, h, es[1..]) == Trace(w, h, es[1..]);
    }
  }

  lemma PrudentTrace<C>(w: World<C>, h: Host<C>, es: seq<Happening<C>>)
    requires es != [] && Crash.Sound(Disk(w), h.disk) && Do(w, h, es[0]).Some? && Plan(w, h.state, es[0]).Some?
    requires Prudent(w, h, es) && Ready(w, h, es)
    requires Crash.Decodable(Disk(w), h.disk, Plan(w, h.state, es[0]).value.0)
    ensures var (n, o) := Do(w, h, es[0]).value;
      && Prudent(w, n, es[1..]) && Ready(w, n, es[1..]) && !(o == Did(Crash.Returned) && n.disk.handle.Orphan?)
      && (Careful(w, n, es[1..]) ==> Careful(w, h, es))
  {
    var ask, n := Plan(w, h.state, es[0]).value.0, Do(w, h, es[0]).value.0;
    TraceFront(w, h, es);
    PrudentAsk(Disk(w), h.disk, ask, n.disk, Trace(w, n, es[1..]));
  }

  lemma PrudentRest<C(!new)>(w: World<C>, h: Host<C>, t: Tracked<C>, es: seq<Happening<C>>)
    requires Wary(w, h, t, es) && es != []
    ensures h.disk.snaps != [] && Do(w, h, es[0]).Some?
    ensures var (n, o) := Do(w, h, es[0]).value;
      && Wary(w, n, After(w, t, es[0], Took(h, n, o, es[0])), es[1..])
      && (Careful(w, n, es[1..]) ==> Careful(w, h, es))
  {
    DoKeeps(w, h, t, es[0]);
    if Plan(w, h.state, es[0]).Some? {
      AskDecodes(w, h, t, es[0]);
      PrudentTrace(w, h, es);
    } else {
      TraceFront(w, h, es);
    }
  }

  lemma {:induction false} PrudentIsCareful<C(!new)>(w: World<C>, h: Host<C>, t: Tracked<C>, es: seq<Happening<C>>)
    requires Wary(w, h, t, es)
    ensures Careful(w, h, es)
    decreases |es|
  {
    if es != [] {
      PrudentRest(w, h, t, es);
      var (n, o) := Do(w, h, es[0]).value;
      PrudentIsCareful(w, n, After(w, t, es[0], Took(h, n, o, es[0])), es[1..]);
    }
  }

  lemma PrefixFront<C>(w: World<C>, h: Host<C>, t: Tracked<C>, es: seq<Happening<C>>, k: nat)
    requires 0 < k <= |es| && h.disk.snaps != [] && Do(w, h, es[0]).Some?
    ensures var (n, o) := Do(w, h, es[0]).value;
      && End(w, h, es[..k]) == End(w, n, es[1..][..k - 1])
      && Run(w.rules, w.step, t, Taken(w, h, es[..k]))
           == Run(w.rules, w.step, After(w, t, es[0], Took(h, n, o, es[0])), Taken(w, n, es[1..][..k - 1]))
  {
    assert es[..k][1..] == es[1..][..k - 1];
    TakenFront(w, h, t, es[..k]);
  }

  /** What a prefix of a run had sent, acknowledged and processed, the whole run still has. */
  lemma {:induction false} SerialPrefix<C(!new)>(w: World<C>, h: Host<C>, t: Tracked<C>, es: seq<Happening<C>>, k: nat)
    requires Going(w, h, t, es) && k <= |es|
    ensures End(w, h, es[..k]).Some?
    ensures Grows(Run(w.rules, w.step, t, Taken(w, h, es[..k])).past, Run(w.rules, w.step, t, Taken(w, h, es)).past)
    decreases |es|
  {
    if k == 0 {
      EveryRunIsSerial(w, h, t, es);
    } else {
      GoingRest(w, h, t, es);
      TakenFront(w, h, t, es);
      PrefixFront(w, h, t, es, k);
      var (n, o) := Do(w, h, es[0]).value;
      SerialPrefix(w, n, After(w, t, es[0], Took(h, n, o, es[0])), es[1..], k - 1);
    }
  }

  /** Exactly-once bookkeeping across every crash and reopening. A caller who reopens after an error always
    * finds a book with nothing lost, and no identifier is ever given to a second delivery. */
  lemma DurableExactlyOnce<C(!new)>(w: World<C>, conf: C, ms: seq<Outgoing>, es: seq<Happening<C>>, k: nat)
    requires WorldOk(w) && Persists(w) && Holds(w, conf) && Addressed(ms) && Founded(w, conf, ms).Some?
    requires AllOk(w, es) && k <= |es|
    requires Careful(w, Founded(w, conf, ms).value, es) || Prudent(w, Founded(w, conf, ms).value, es)
    ensures var h := Founded(w, conf, ms).value;
      var t := Opening(w, conf, ms);
      var u := Run(w.rules, w.step, t, Taken(w, h, es));
      && End(w, h, es).Some? && End(w, h, es).value.state.book == u.book && Kept(w.rules, u.book, u.past)
      && End(w, h, es[..k]).Some? && Grows(Run(w.rules, w.step, t, Taken(w, h, es[..k])).past, u.past)
  {
    var h, t := Founded(w, conf, ms).value, Opening(w, conf, ms);
    PersistsRestores(w);
    FoundedFits(w, conf, ms);
    if !Careful(w, h, es) {
      PrudentIsCareful(w, h, t, es);
    }
    EveryRunIsSerial(w, h, t, es);
    SerialPrefix(w, h, t, es, k);
  }

  lemma NothingPrepared<C>(w: World<C>, s: Logical<C>, past: Past, id: nat, payload: bytes)
    requires Redecodes(w, s) && Kept(w.rules, s.book, past) && id in LastIds(past.processed, w.rules.window)
    ensures Prepared(w, s, Arrived(id, payload)) == None
  {
    RetainedNeverReruns(w.rules, w.step, s.book, past, id, payload);
  }

  /** A message among the last ones processed is not processed again, however often the store was
    * reopened in between. */
  lemma RedeliveryIsIdle<C(!new)>(w: World<C>, h: Host<C>, t: Tracked<C>, id: nat, payload: bytes, first: Crash.Stop,
                                  second: Crash.Stop)
    requires Restores(w) && Fit(w, h, t) && id in LastIds(t.past.processed, w.rules.window)
    ensures Do(w, h, Calling(Arrived(id, payload), first, second)) == Some((h, Idle))
  {
    assert Redecodes(w, h.state);
    NothingPrepared(w, h.state, t.past, id, payload);
  }

  // ------------------------------------------------------------- going on after a failed checkpoint

  /** An act that queues the one message `m`, whose record fits the log without a checkpoint. */
  ghost predicate Queues<C>(w: World<C>, h: Host<C>, act: Act<C>, m: Outgoing) {
    && act(h.state.book.conf).Some? && act(h.state.book.conf).value.1 == [m]
    && Prepared(w, h.state, Acted(act)).Some?
    && Crash.RoomFor(Disk(w), h.disk, Encoded(w.c, Prepared(w, h.state, Acted(act)).value).value)
  }

  function Quietly<C>(act: Act<C>): (e: Happening<C>) {
    Calling(Acted(act), Crash.Fine, Crash.Fine)
  }

  lemma PreparedOutbox<C>(w: World<C>, s: Logical<C>, act: Act<C>, m: Outgoing)
    requires Redecodes(w, s) && Prepared(w, s, Acted(act)).Some?
    requires act(s.book.conf).Some? && act(s.book.conf).value.1 == [m]
    ensures var outbox := Prepared(w, s, Acted(act)).value.book.outbox;
      outbox == s.book.outbox[s.book.next := Deliver(w.rules, s.book.next, m)]
  {
    QueueOne(w.rules, s.book.outbox, s.book.next, m);
  }

  lemma QueueOne(rules: Rules, outbox: map<nat, Delivery>, next: nat, m: Outgoing)
    ensures Queue(rules, outbox, next, [m]) == outbox[next := Deliver(rules, next, m)]
  {
  }

  /** Such an act returns with its message under the next identifier. */
  lemma QueuesNext<C(!new)>(w: World<C>, h: Host<C>, t: Tracked<C>, act: Act<C>, m: Outgoing)
    requires Fit(w, h, t) && Redecodes(w, h.state) && Queues(w, h, act, m)
    ensures var next := Prepared(w, h.state, Acted(act)).value;
      var disk := Crash.Appended(h.disk, Crash.Candidate(h.disk, Encoded(w.c, next).value));
      && Do(w, h, Quietly(act)) == Some((Host(next, disk), Did(Crash.Returned)))
      && next.book.outbox == h.state.book.outbox[h.state.book.next := Deliver(w.rules, h.state.book.next, m)]
  {
    var next := Prepared(w, h.state, Acted(act)).value;
    PreparedOutbox(w, h.state, act, m);
    Crash.CommitReturns(Disk(w), h.disk, Encoded(w.c, next).value);
  }

  lemma NoRecords(c: Sums, log: seq<Record>)
    ensures |WalBytes(c, [])| <= |WalBytes(c, log)|
  {
    Crash.EmptyLogSize(c);
  }

  lemma StillQueues<C>(w: World<C>, h: Host<C>, act: Act<C>, m: Outgoing, disk: Crash.Machine)
    requires Queues(w, h, act, m) && disk.live == h.disk.live && Crash.LogOf(disk) in {Crash.LogOf(h.disk), []}
    ensures Queues(w, Host(h.state, disk), act, m)
  {
    NoRecords(w.sums, Crash.LogOf(h.disk));
  }

  lemma QueuedInFlight<C(!new)>(w: World<C>, h: Host<C>, t: Tracked<C>, act: Act<C>, m: Outgoing)
    requires WorldOk(w) && Restores(w) && Fit(w, h, t) && Queues(w, h, act, m) && Conforms(w, act)
    ensures Crash.InFlight(Disk(w), h.disk,
                           Crash.Candidate(h.disk, Encoded(w.c, Prepared(w, h.state, Acted(act)).value).value))
  {
    PreparedTracks(w, h.state, t, Acted(act));
  }

  lemma FailsLate<C>(w: World<C>, h: Host<C>)
    requires Mirrors(w, h.state, h.disk.live) && h.disk.snaps != []
    ensures Do(w, h, Checkpointing(Crash.Fails(3)))
         == Some((Host(h.state, Crash.CheckpointAt(h.disk, 3)), Did(Crash.Errored)))
  {
  }

  /** A checkpoint that fails after its log rename, then an act that returns. */
  lemma GoesOn<C(!new)>(w: World<C>, h: Host<C>, t: Tracked<C>, act: Act<C>, m: Outgoing)
    returns (stale: Host<C>, gone: Host<C>)
    requires WorldOk(w) && Restores(w) && Fit(w, h, t) && h.disk.handle.Linked? && Queues(w, h, act, m)
    requires Conforms(w, act)
    ensures stale.disk.snaps != [] && gone.disk.snaps != []
    ensures Do(w, h, Checkpointing(Crash.Fails(3))) == Some((stale, Did(Crash.Errored)))
    ensures Do(w, stale, Quietly(act)) == Some((gone, Did(Crash.Returned)))
    ensures gone.state.book.outbox == h.state.book.outbox[h.state.book.next := Deliver(w.rules, h.state.book.next, m)]
    ensures Do(w, gone, Crashing(Crash.Pick(0, false, 0)))
         == Some((Host(h.state, Crash.Created(h.disk.live)), Did(Crash.Recovered)))
  {
    FailsLate(w, h);
    stale := Host(h.state, Crash.CheckpointAt(h.disk, 3));
    Crash.CheckpointSound(Disk(w), h.disk, 3);
    StillQueues(w, h, act, m, stale.disk);
    assert Redecodes(w, h.state);
    QueuesNext(w, stale, t, act, m);
    QueuedInFlight(w, stale, t, act, m);
    var next := Prepared(w, h.state, Acted(act)).value;
    var r := Crash.Candidate(stale.disk, Encoded(w.c, next).value);
    gone := Host(next, Crash.Appended(stale.disk, r));
    GoneIsBack(w, h, next, r);
  }

  lemma GoneIsBack<C>(w: World<C>, h: Host<C>, next: Logical<C>, r: Record)
    requires Redecodes(w, h.state) && Mirrors(w, h.state, h.disk.live) && Crash.Sound(Disk(w), h.disk)
    requires h.disk.handle.Linked? && Crash.InFlight(Disk(w), Crash.CheckpointAt(h.disk, 3), r)
    ensures var gone := Host(next, Crash.Appended(Crash.CheckpointAt(h.disk, 3), r));
      && gone.disk.snaps != []
      && Do(w, gone, Crashing(Crash.Pick(0, false, 0)))
           == Some((Host(h.state, Crash.Created(h.disk.live)), Did(Crash.Recovered)))
  {
    Crash.OrphanReopens(Disk(w), h.disk, r);
  }

  lemma BackAgain<C(!new)>(w: World<C>, h: Host<C>, t: Tracked<C>)
    requires WorldOk(w) && Restores(w) && Fit(w, h, t)
    ensures Fit(w, Host(h.state, Crash.Created(h.disk.live)), t)
  {
    assert Redecodes(w, h.state);
    Crash.CreatedSound(Disk(w), h.disk.live);
  }

  /** A caller who goes on after a failed checkpoint can be given an identifier that, after a crash, is
    * given to another delivery; the first delivery is lost. */
  lemma OrphanReusesIdentifier<C(!new)>(w: World<C>, h: Host<C>, t: Tracked<C>, act: Act<C>, m: Outgoing, act': Act<C>,
                                        m': Outgoing)
    returns (stale: Host<C>, gone: Host<C>, back: Host<C>, again: Host<C>)
    requires WorldOk(w) && Restores(w) && Fit(w, h, t) && h.disk.handle.Linked? && Conforms(w, act)
    requires Queues(w, h, act, m) && Queues(w, h, act', m')
    ensures Do(w, h, Checkpointing(Crash.Fails(3))) == Some((stale, Did(Crash.Errored))) && stale.disk.snaps != []
    ensures Do(w, stale, Quietly(act)) == Some((gone, Did(Crash.Returned))) && gone.disk.snaps != []
    ensures Do(w, gone, Crashing(Crash.Pick(0, false, 0))) == Some((back, Did(Crash.Recovered)))
    ensures back.disk.snaps != []
    ensures Do(w, back, Quietly(act')) == Some((again, Did(Crash.Returned)))
    ensures var id := h.state.book.next;
      && id in gone.state.book.outbox && gone.state.book.outbox[id] == Deliver(w.rules, id, m)
      && id in again.state.book.outbox && again.state.book.outbox[id] == Deliver(w.rules, id, m')
  {
    stale, gone := GoesOn(w, h, t, act, m);
    back := Host(h.state, Crash.Created(h.disk.live));
    BackAgain(w, h, t);
    assert Redecodes(w, h.state);
    StillQueues(w, h, act', m', back.disk);
    QueuesNext(w, back, t, act', m');
    again := Do(w, back, Quietly(act')).value.0;
  }
}
