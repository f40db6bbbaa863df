/** Durable bookkeeping: outbox, identifiers and the inbound window
  * (crates/cfr/src/persistence/state.rs and mod.rs). */
module Outbox {
  import opened Base
  import opened Ops

  datatype Outgoing = Outgoing(recipient: Option<Id>, payload: bytes)

  datatype Delivery = Delivery(id: nat, key: nat, recipient: Option<Id>, payload: bytes)

  /** Limits, the retry-key derivation of this conference, and the payload digest. */
  datatype Rules = Rules(window: nat, maxOutbox: nat, keyOf: (nat, Option<Id>, bytes) -> nat, digest: bytes -> nat)

  /** The logical state; the conference is opaque. */
  datatype Book<C> = Book(conf: C, inbound: map<nat, nat>, order: seq<nat>, outbox: map<nat, Delivery>, next: nat)

  // ------------------------------------------------------------------------------- the operations

  function Deliver(rules: Rules, id: nat, m: Outgoing): (d: Delivery) {
    Delivery(id, rules.keyOf(id, m.recipient, m.payload), m.recipient, m.payload)
  }

  function Queue(rules: Rules, outbox: map<nat, Delivery>, next: nat, ms: seq<Outgoing>): (r: map<nat, Delivery>)
    decreases |ms|
  {
    if ms == [] then outbox else Queue(rules, outbox[next := Deliver(rules, next, ms[0])], next + 1, ms[1..])
  }

  predicate HasRoom<C>(rules: Rules, b: Book<C>, ms: seq<Outgoing>) {
    |b.outbox| + |ms| <= rules.maxOutbox && b.next + |ms| <= MAX_U64
  }

  function Enqueued<C>(rules: Rules, b: Book<C>, ms: seq<Outgoing>): (r: Book<C>) {
    b.(outbox := Queue(rules, b.outbox, b.next, ms), next := b.next + |ms|)
  }

  function Expire(inbound: map<nat, nat>, order: seq<nat>, window: nat): (r: (map<nat, nat>, seq<nat>))
    decreases |order|
  {
    if |order| <= window then (inbound, order) else Expire(inbound - {order[0]}, order[1..], window)
  }

  function Noted<C>(rules: Rules, b: Book<C>, id: nat, digest: nat): (r: Book<C>) {
    var (inbound, order) := Expire(b.inbound[id := digest], b.order + [id], rules.window);
    b.(inbound := inbound, order := order)
  }

  /** A protocol step on the opaque conference, and any other action on it. */
  type Protocol<!C> = (C, bytes) -> Option<(C, seq<Outgoing>)>
  type Act<!C> = C -> Option<(C, seq<Outgoing>)>

  datatype Reply = Duplicate | Conflict | Ran | Refused

  function HandleInbound<C>(rules: Rules, step: Protocol<C>, b: Book<C>, id: nat, payload: bytes): (r: (Book<C>, Reply))
  {
    if id in b.inbound then (b, if b.inbound[id] == rules.digest(payload) then Duplicate else Conflict)
    else match step(b.conf, payload)
      case None => (b, Refused)
      case Some((conf, ms)) =>
        if !HasRoom(rules, b, ms) then (b, Refused)
        else (Noted(rules, Enqueued(rules, b.(conf := conf), ms), id, rules.digest(payload)), Ran)
  }

  function Acknowledge<C>(b: Book<C>, id: nat): (r: (Book<C>, bool)) {
    if id in b.outbox then (b.(outbox := b.outbox - {id}), true) else (b, false)
  }

  function Mutate<C>(rules: Rules, act: Act<C>, b: Book<C>): (r: (Book<C>, bool)) {
    match act(b.conf)
    case None => (b, false)
    case Some((conf, ms)) => if HasRoom(rules, b, ms) then (Enqueued(rules, b.(conf := conf), ms), true) else (b, false)
  }

  // ------------------------------------------------------------------------------------- history

  /** Everything ever enqueued, the identifiers acknowledged, and the inbound messages processed. */
  datatype Past = Past(sent: map<nat, Delivery>, acked: set<nat>, processed: seq<(nat, nat)>)

  function LastIds(processed: seq<(nat, nat)>, window: nat): (ids: seq<nat>) {
    var n := |processed|;
    var k := if n <= window then n else window;
    seq(k, i requires 0 <= i < k => processed[n - k + i].0)
  }

  ghost predicate InWindow(processed: seq<(nat, nat)>, window: nat, i: nat) {
    i < |processed| <= i + window
  }

  ghost predicate OutboxOk<C>(rules: Rules, b: Book<C>, p: Past) {
    && 1 <= b.next <= MAX_U64
    && |b.outbox| <= rules.maxOutbox
    && (forall id :: id in p.sent <==> 1 <= id < b.next)
    && Bound(rules, p.sent)
    && (forall id :: id in p.acked ==> id in p.sent)
    && (forall id :: id in b.outbox <==> id in p.sent && id !in p.acked)
    && (forall id :: id in b.outbox ==> b.outbox[id] == p.sent[id])
  }

  ghost predicate InboundOk<C>(rules: Rules, b: Book<C>, p: Past) {
    WindowOk(rules.window, b.inbound, b.order, p.processed)
  }

  ghost predicate WindowOk(window: nat, inbound: map<nat, nat>, order: seq<nat>, processed: seq<(nat, nat)>) {
    && order == LastIds(processed, window)
    && (forall id :: id in inbound <==> id in order)
    && (forall i: nat :: InWindow(processed, window, i) ==>
          processed[i].0 in inbound && inbound[processed[i].0] == processed[i].1)
    && NoRepeat(order)
  }

  ghost predicate NoRepeat(order: seq<nat>) {
    forall i, j :: 0 <= i < j < |order| ==> order[i] != order[j]
  }

  /** Each delivery ever enqueued has its own identifier and is pending or acknowledged, never both and
    * never lost; the window is exactly the last processed identifiers with their digests. */
  ghost predicate Kept<C>(rules: Rules, b: Book<C>, p: Past) {
    OutboxOk(rules, b, p) && InboundOk(rules, b, p)
  }

  lemma {:induction false} QueueAt(rules: Rules, outbox: map<nat, Delivery>, next: nat, ms: seq<Outgoing>, id: nat)
    ensures var q := Queue(rules, outbox, next, ms);
      && (id in q <==> id in outbox || next <= id < next + |ms|)
      && (id in q ==> q[id] == if next <= id < next + |ms| then Deliver(rules, id, ms[id - next]) else outbox[id])
    decreases |ms|
  {
    if ms != [] {
      QueueAt(rules, outbox[next := Deliver(rules, next, ms[0])], next + 1, ms[1..], id);
    }
  }

  lemma QueueAdds(rules: Rules, outbox: map<nat, Delivery>, next: nat, ms: seq<Outgoing>)
    ensures var q := Queue(rules, outbox, next, ms);
      && (forall id :: id in q <==> id in outbox || next <= id < next + |ms|)
      && (forall id :: id in q ==>
          q[id] == if next <= id < next + |ms| then Deliver(rules, id, ms[id - next]) else outbox[id])
  {
    var q := Queue(rules, outbox, next, ms);
    forall id: nat
      ensures id in q <==> id in outbox || next <= id < next + |ms|
      ensures id in q ==> q[id] == if next <= id < next + |ms| then Deliver(rules, id, ms[id - next]) else outbox[id]
    {
      QueueAt(rules, outbox, next, ms, id);
    }
  }

  function Sent(rules: Rules, p: Past, next: nat, ms: seq<Outgoing>): (q: Past) {
    p.(sent := Queue(rules, p.sent, next, ms))
  }

  lemma {:induction false} QueueSize(rules: Rules, outbox: map<nat, Delivery>, next: nat, ms: seq<Outgoing>)
    ensures |Queue(rules, outbox, next, ms)| <= |outbox| + |ms|
    decreases |ms|
  {
    if ms != [] {
      UpdateSize(outbox, next, Deliver(rules, next, ms[0]));
      QueueSize(rules, outbox[next := Deliver(rules, next, ms[0])], next + 1, ms[1..]);
    }
  }

  lemma UpdateSize(m: map<nat, Delivery>, id: nat, d: Delivery)
    ensures |m[id := d]| <= |m| + 1
  {
    assert m[id := d].Keys == m.Keys + {id};
    assert |m[id := d].Keys| == |m[id := d]| && |m.Keys| == |m|;
  }

  ghost predicate Bound(rules: Rules, sent: map<nat, Delivery>) {
    forall id :: id in sent ==>
      sent[id].id == id && sent[id].key == rules.keyOf(id, sent[id].recipient, sent[id].payload)
  }

  lemma QueueBound(rules: Rules, sent: map<nat, Delivery>, next: nat, ms: seq<Outgoing>)
    requires Bound(rules, sent) && forall id :: id in sent ==> id < next
    ensures Bound(rules, Queue(rules, sent, next, ms))
    ensures forall id :: id in sent ==>
      id in Queue(rules, sent, next, ms) && Queue(rules, sent, next, ms)[id] == sent[id]
  {
    QueueAdds(rules, sent, next, ms);
  }

  lemma EnqueueKeeps<C>(rules: Rules, b: Book<C>, p: Past, ms: seq<Outgoing>)
    requires Kept(rules, b, p) && HasRoom(rules, b, ms)
    ensures Kept(rules, Enqueued(rules, b, ms), Sent(rules, p, b.next, ms))
    ensures Grows(p, Sent(rules, p, b.next, ms))
  {
    QueueAdds(rules, b.outbox, b.next, ms);
    QueueAdds(rules, p.sent, b.next, ms);
    QueueSize(rules, b.outbox, b.next, ms);
    QueueBound(rules, p.sent, b.next, ms);
  }

  lemma RemovalShrinks(m: map<nat, Delivery>, id: nat)
    ensures |m - {id}| <= |m|
  {
    Subset((m - {id}).Keys, m.Keys);
    assert |(m - {id}).Keys| == |m - {id}| && |m.Keys| == |m|;
  }

  lemma AcknowledgeKeeps<C>(rules: Rules, b: Book<C>, p: Past, id: nat)
    requires Kept(rules, b, p)
    ensures Kept(rules, Acknowledge(b, id).0, if id in b.outbox then p.(acked := p.acked + {id}) else p)
  {
    if id in b.outbox {
      OutboxAcked(rules, b, p, id);
    }
  }

  lemma OutboxAcked<C>(rules: Rules, b: Book<C>, p: Past, id: nat)
    requires OutboxOk(rules, b, p) && id in b.outbox
    ensures OutboxOk(rules, b.(outbox := b.outbox - {id}), p.(acked := p.acked + {id}))
  {
    RemovalShrinks(b.outbox, id);
  }

  function Processed(p: Past, id: nat, digest: nat): (q: Past) {
    p.(processed := p.processed + [(id, digest)])
  }

  lemma ExpireOne(inbound: map<nat, nat>, order: seq<nat>, window: nat)
    requires |order| <= window + 1
    ensures Expire(inbound, order, window) == if |order| <= window then (inbound, order)
      else (inbound - {order[0]}, order[1..])
  {
  }

  lemma LastIdsPush(processed: seq<(nat, nat)>, window: nat, x: (nat, nat))
    requires window >= 1
    ensures LastIds(processed + [x], window)
         == if |LastIds(processed, window) + [x.0]| <= window then LastIds(processed, window) + [x.0]
            else (LastIds(processed, window) + [x.0])[1..]
  {
  }

  lemma NoteKeeps<C>(rules: Rules, b: Book<C>, p: Past, id: nat, digest: nat)
    requires Kept(rules, b, p) && id !in b.inbound && rules.window >= 1
    ensures Kept(rules, Noted(rules, b, id, digest), Processed(p, id, digest))
  {
    ExpireOne(b.inbound[id := digest], b.order + [id], rules.window);
    LastIdsPush(p.processed, rules.window, (id, digest));
    InboundAfter(rules, b, p, id, digest);
  }

  lemma InboundAfter<C>(rules: Rules, b: Book<C>, p: Past, id: nat, digest: nat)
    requires InboundOk(rules, b, p) && id !in b.inbound && rules.window >= 1
    requires Noted(rules, b, id, digest).order == LastIds(p.processed + [(id, digest)], rules.window)
    requires Noted(rules, b, id, digest).order
          == if |b.order| < rules.window then b.order + [id] else (b.order + [id])[1..]
    requires Noted(rules, b, id, digest).inbound
          == if |b.order| < rules.window then b.inbound[id := digest] else b.inbound[id := digest] - {b.order[0]}
    ensures InboundOk(rules, Noted(rules, b, id, digest), Processed(p, id, digest))
  {
    var n := Noted(rules, b, id, digest);
    var log := p.processed + [(id, digest)];
    assert id !in b.order;
    NoRepeatPush(b.order, id);
    forall x ensures x in n.inbound <==> x in n.order {
      Shifted(b.order, id, x);
    }
    forall i: nat | InWindow(log, rules.window, i) ensures log[i].0 in n.inbound && n.inbound[log[i].0] == log[i].1 {
      if i < |p.processed| {
        assert InWindow(p.processed, rules.window, i);
        StillThere(p.processed, rules.window, i);
      }
    }
  }

  lemma NoRepeatPush(order: seq<nat>, id: nat)
    requires NoRepeat(order) && id !in order
    ensures NoRepeat(order + [id]) && NoRepeat((order + [id])[1..])
  {
    assert forall i :: 0 <= i < |order| ==> order[i] in order;
  }

  lemma Shifted(order: seq<nat>, id: nat, x: nat)
    requires NoRepeat(order)
    ensures x in order + [id] <==> x in order || x == id
    ensures order != [] && id !in order ==> (x in (order + [id])[1..] <==> (x in order && x != order[0]) || x == id)
  {
    if order != [] {
      assert (order + [id])[1..] == order[1..] + [id];
      assert order == [order[0]] + order[1..];
    }
  }

  /** An entry that stays in the window is not the oldest one. */
  lemma StillThere(processed: seq<(nat, nat)>, window: nat, i: nat)
    requires i < |processed| < i + window
    requires NoRepeat(LastIds(processed, window))
    ensures |LastIds(processed, window)| == window ==> LastIds(processed, window)[0] != processed[i].0
    ensures processed[i].0 in LastIds(processed, window)
  {
    var ids := LastIds(processed, window);
    var k := |ids|;
    assert ids[i - (|processed| - k)] == processed[i].0;
  }

  // ----------------------------------------------------------------------------------- whole runs

  datatype Event<!C> = Arrived(id: nat, payload: bytes) | Acked(id: nat) | Acted(act: Act<C>)

  datatype Tracked<C> = Tracked(book: Book<C>, past: Past)

  function MessagesOf<C>(o: Option<(C, seq<Outgoing>)>): (ms: seq<Outgoing>) {
    if o.Some? then o.value.1 else []
  }

  function Next<C>(rules: Rules, step: Protocol<C>, t: Tracked<C>, e: Event<C>): (u: Tracked<C>) {
    var b, p := t.book, t.past;
    match e
    case Arrived(id, payload) =>
      var (n, reply) := HandleInbound(rules, step, b, id, payload);
      if reply != Ran then t
      else Tracked(n, Processed(Sent(rules, p, b.next, MessagesOf(step(b.conf, payload))), id, rules.digest(payload)))
    case Acked(id) =>
      var (n, done) := Acknowledge(b, id);
      if !done then t else Tracked(n, p.(acked := p.acked + {id}))
    case Acted(act) =>
      var (n, done) := Mutate(rules, act, b);
      if !done then t else Tracked(n, Sent(rules, p, b.next, MessagesOf(act(b.conf))))
  }

  function Run<C>(rules: Rules, step: Protocol<C>, t: Tracked<C>, es: seq<Event<C>>): (u: Tracked<C>) {
    if es == [] then t else Next(rules, step, Run(rules, step, t, es[..|es| - 1]), es[|es| - 1])
  }

  function Fresh<C>(conf: C): (t: Tracked<C>) {
    Tracked(Book(conf, map[], [], map[], 1), Past(map[], {}, []))
  }

  /** Identifiers are only ever added to the history, never given to another delivery. */
  ghost predicate Grows(p: Past, q: Past) {
    && (forall id :: id in p.sent ==> id in q.sent && q.sent[id] == p.sent[id])
    && p.acked <= q.acked
    && p.processed <= q.processed
  }

  lemma NextKeeps<C>(rules: Rules, step: Protocol<C>, t: Tracked<C>, e: Event<C>)
    requires Kept(rules, t.book, t.past) && rules.window >= 1
    ensures Kept(rules, Next(rules, step, t, e).book, Next(rules, step, t, e).past)
    ensures Grows(t.past, Next(rules, step, t, e).past)
  {
    var b, p := t.book, t.past;
    match e
    case Arrived(id, payload) =>
      if HandleInbound(rules, step, b, id, payload).1 == Ran {
        var (conf, ms) := step(b.conf, payload).value;
        EnqueueKeeps(rules, b.(conf := conf), p, ms);
        NoteKeeps(rules, Enqueued(rules, b.(conf := conf), ms), Sent(rules, p, b.next, ms), id, rules.digest(payload));
      }
    case Acked(id) => AcknowledgeKeeps(rules, b, p, id);
    case Acted(act) =>
      if Mutate(rules, act, b).1 {
        EnqueueKeeps(rules, b.(conf := act(b.conf).value.0), p, act(b.conf).value.1);
      }
  }

  /** Exactly-once bookkeeping over every run of committed transactions. */
  lemma {:induction false} RunKeeps<C>(rules: Rules, step: Protocol<C>, conf: C, es: seq<Event<C>>, k: nat)
    requires rules.window >= 1 && k <= |es|
    ensures var t := Run(rules, step, Fresh(conf), es); Kept(rules, t.book, t.past)
    ensures Grows(Run(rules, step, Fresh(conf), es[..k]).past, Run(rules, step, Fresh(conf), es).past)
    decreases |es|
  {
    if k == |es| {
      assert es[..k] == es;
    }
    if es == [] {
      assert LastIds([], rules.window) == [];
    } else {
      var init := es[..|es| - 1];
      RunKeeps(rules, step, conf, init, if k < |es| then k else |init|);
      NextKeeps(rules, step, Run(rules, step, Fresh(conf), init), es[|es| - 1]);
      if k < |es| {
        assert init[..k] == es[..k];
      }
    }
  }

  /** An identifier among the last ones processed never runs the protocol step again; it is a
    * duplicate exactly when its digest agrees. Any other identifier does run it. */
  lemma RetainedNeverReruns<C>(rules: Rules, step: Protocol<C>, b: Book<C>, p: Past, id: nat, payload: bytes)
    requires Kept(rules, b, p)
    ensures id in LastIds(p.processed, rules.window) <==>
      HandleInbound(rules, step, b, id, payload).1 in {Duplicate, Conflict}
    ensures id in LastIds(p.processed, rules.window) ==> HandleInbound(rules, step, b, id, payload).0 == b
    ensures forall i: nat :: InWindow(p.processed, rules.window, i) && p.processed[i].0 == id ==>
      (HandleInbound(rules, step, b, id, payload).1 == Duplicate <==> rules.digest(payload) == p.processed[i].1)
  {
  }

  // ------------------------------------------------------------------------------------ the object

  class LogicalState<C> {
    const rules: Rules
    const step: Protocol<C>
    var conf: C
    var inbound: map<nat, nat>
    var order: seq<nat>
    var outbox: map<nat, Delivery>
    var next: nat

    function View(): (b: Book<C>)
      reads this
    {
      Book(conf, inbound, order, outbox, next)
    }

    constructor (rules: Rules, step: Protocol<C>, conf: C)
      ensures View() == Fresh(conf).book && this.rules == rules && this.step == step
    {
      this.rules, this.step, this.conf := rules, step, conf;
      inbound, order, outbox, next := map[], [], map[], 1;
    }

    method Enqueue(ms: seq<Outgoing>) returns (ids: Option<seq<nat>>)
      modifies this
      ensures ids.Some? <==> old(HasRoom(rules, View(), ms))
      ensures View() == if ids.Some? then Enqueued(rules, old(View()), ms) else old(View())
      ensures ids.Some? ==> |ids.value| == |ms| && forall i :: 0 <= i < |ms| ==> ids.value[i] == old(next) + i
    {
      if |outbox| + |ms| > rules.maxOutbox || next + |ms| > MAX_U64 {
        return None;
      }
      var given: seq<nat> := [];
      assert ms[0..] == ms;
      for i := 0 to |ms|
        invariant next == old(next) + i && conf == old(conf) && inbound == old(inbound) && order == old(order)
        invariant Queue(rules, outbox, next, ms[i..]) == Queue(rules, old(outbox), old(next), ms)
        invariant |given| == i && forall k :: 0 <= k < i ==> given[k] == old(next) + k
      {
        assert ms[i..][1..] == ms[i + 1..];
        outbox := outbox[next := Deliver(rules, next, ms[i])];
        given := given + [next];
        next := next + 1;
      }
      ids := Some(given);
    }

    method RecordInbound(id: nat, digest: nat)
      modifies this
      ensures View() == Noted(rules, old(View()), id, digest)
    {
      inbound := inbound[id := digest];
      order := order + [id];
      ghost var full := Expire(inbound, order, rules.window);
      while |order| > rules.window
        invariant conf == old(conf) && outbox == old(outbox) && next == old(next)
        invariant Expire(inbound, order, rules.window) == full
        decreases |order|
      {
        inbound, order := inbound - {order[0]}, order[1..];
      }
    }

    /** `stored` is the store's verdict on the candidate; a candidate it refuses is dropped whole, and
      * the call is refused. */
    method Receive(id: nat, payload: bytes, stored: bool) returns (reply: Reply)
      modifies this
      ensures var (book, answer) := HandleInbound(rules, step, old(View()), id, payload);
        if answer == Ran && !stored then reply == Refused && View() == old(View())
        else reply == answer && View() == book
    {
      if id in inbound {
        return if inbound[id] == rules.digest(payload) then Duplicate else Conflict;
      }
      var out := step(conf, payload);
      if out == None {
        return Refused;
      }
      var candidate := new LogicalState(rules, step, out.value.0);
      candidate.inbound, candidate.order, candidate.outbox, candidate.next := inbound, order, outbox, next;
      var ids := candidate.Enqueue(out.value.1);
      if ids == None {
        return Refused;
      }
      candidate.RecordInbound(id, rules.digest(payload));
      if !stored {
        return Refused;
      }
      conf, inbound, order, outbox, next :=
        candidate.conf, candidate.inbound, candidate.order, candidate.outbox, candidate.next;
      reply := Ran;
    }
  }
}
