/** One participant's operation log (crates/cfr-core/src/member.rs): ingest, pending buffer and drain,
  * as functions of the state. `Participant` implements them with the source's loops. */
module Replica {
  import opened Ops
  import opened Graph
  import opened Membership
  import opened DagModule
  import opened Prekey

  const MAX_PENDING: nat := 512

  datatype Replica = Replica(sid: nat, me: Id, policy: Policy, ops: map<Oid, Op>, pending: seq<Op>, guilty: set<Id>)

  /** The parts of an operation its signer chooses; dependencies are always the current heads. */
  datatype Draft = Draft(oid: Oid, body: Body, sig: nat)

  datatype Reaction = Reaction(own: seq<Draft>, blamed: set<Id>)

  /** Everything the log does not decide itself: signature validity, the prekey pool, the outcome of
    * opening slices and of checking accusations. Each is asked at a graph size, and every size is
    * reached once, so any behaviour of the surrounding state is some `Env`. Not every `Env` is such a
    * behaviour: `PoolRuns.Follows` tells which ones answer as a prekey pool does. */
  datatype Env = Env(
    genuine: Op -> bool,
    isSealed: nat -> bool,
    rotation: nat -> Draft,
    onContrib: nat -> Reaction,
    convicts: nat -> bool)

  ghost function Deps(ops: map<Oid, Op>): (ps: Parents) {
    map o | o in ops :: ops[o].deps
  }

  ghost function HistoryOf(ops: map<Oid, Op>): (h: History) {
    History(ops, Deps(ops))
  }

  ghost function BasisOf(r: Replica): (b: Basis) {
    Basis(HistoryOf(r.ops), r.policy, r.guilty)
  }

  /** What applying `op` makes the receiver sign and whom it makes it blame. */
  function React(env: Env, me: Id, n: nat, op: Op): (x: Reaction) {
    match op.body
    case Add(who) => if who != me && env.isSealed(n) then Reaction([env.rotation(n)], {}) else Reaction([], {})
    case PrekeyRequest(targets) => if me in targets then Reaction([env.rotation(n)], {}) else Reaction([], {})
    case Contrib(_, _, _, slices, _) => if SliceFor(me, slices).Some? then env.onContrib(n) else Reaction([], {})
    case Accuse(who, _, _, _) => if env.convicts(n) then Reaction([], {who}) else Reaction([], {})
    case Remove(_) => Reaction([], {})
    case Prekeys(_, _) => Reaction([], {})
  }

  datatype Outcome = Applied | Duplicate | Parked | Overflow | Refused | Full

  datatype Ingested = Ingested(outcome: Outcome, r: Replica)

  ghost function Sign(r: Replica, d: Draft): (op: Op) {
    Op(d.oid, r.sid, r.me, Heads(Deps(r.ops)), d.body, d.sig)
  }

  /** Publishes own operations one after the other, each on top of everything known. */
  ghost function Publish(r: Replica, own: seq<Draft>): (x: Ingested)
    decreases |own|
  {
    if own == [] then Ingested(Applied, r)
    else if |r.ops| >= MAX_OPS then Ingested(Full, r)
    else
      var op := Sign(r, own[0]);
      Publish(if op.oid in r.ops then r else r.(ops := r.ops[op.oid := op]), own[1..])
  }

  ghost function Apply(env: Env, r: Replica, op: Op): (x: Ingested) {
    var next := r.(ops := r.ops[op.oid := op]);
    var reaction := React(env, r.me, |next.ops|, op);
    Publish(next.(guilty := next.guilty + reaction.blamed), reaction.own)
  }

  ghost function Ingest(env: Env, r: Replica, op: Op): (x: Ingested) {
    if op.sid != r.sid || !env.genuine(op) then Ingested(Refused, r)
    else if op.oid in r.ops then Ingested(Duplicate, r)
    else if !(op.deps <= r.ops.Keys) then
      if op in r.pending then Ingested(Parked, r)
      else if |r.pending| < MAX_PENDING then Ingested(Parked, r.(pending := r.pending + [op]))
      else Ingested(Overflow, r)
    else if !Authorised(BasisOf(r), op) then Ingested(Refused, r)
    else if |r.ops| >= MAX_OPS then Ingested(Full, r)
    else Apply(env, r, op)
  }

  /** Whether `ingest` returned without an error. */
  predicate Succeeded(o: Outcome) {
    o == Applied || o == Duplicate || o == Parked || o == Overflow
  }

  datatype Swept = Swept(r: Replica, deferred: seq<Op>, progressed: bool, full: bool)

  /** One pass over the waiting operations. */
  ghost function Pass(env: Env, r: Replica, waiting: seq<Op>): (x: Swept)
    decreases |waiting|
  {
    if waiting == [] then Swept(r, [], false, false)
    else if !(waiting[0].deps <= r.ops.Keys) then
      var rest := Pass(env, r, waiting[1..]);
      rest.(deferred := [waiting[0]] + rest.deferred)
    else
      var i := Ingest(env, r, waiting[0]);
      var rest := Pass(env, i.r, waiting[1..]);
      rest.(progressed := rest.progressed || Succeeded(i.outcome), full := rest.full || i.outcome == Full)
  }

  datatype Settled = Settled(r: Replica, full: bool, lost: bool)

  lemma {:induction false} PassShrinks(env: Env, r: Replica, waiting: seq<Op>)
    ensures |Pass(env, r, waiting).deferred| <= |waiting|
    ensures Pass(env, r, waiting).progressed ==> |Pass(env, r, waiting).deferred| < |waiting|
    decreases |waiting|
  {
    if waiting != [] {
      if waiting[0].deps <= r.ops.Keys {
        PassShrinks(env, Ingest(env, r, waiting[0]).r, waiting[1..]);
      } else {
        PassShrinks(env, r, waiting[1..]);
      }
    }
  }

  /** Passes repeat until one makes no progress. */
  ghost function Drain(env: Env, r: Replica, waiting: seq<Op>): (x: Settled)
    decreases |waiting|
  {
    PassShrinks(env, r, waiting);
    var p := Pass(env, r, waiting);
    if !p.progressed then Settled(p.r.(pending := p.deferred), p.full, false)
    else
      var rest := Drain(env, p.r, p.deferred);
      rest.(full := rest.full || p.full)
  }

  ghost function IngestAll(env: Env, r: Replica, ops: seq<Op>): (x: Settled)
    decreases |ops|
  {
    if ops == [] then Settled(r, false, false)
    else
      var i := Ingest(env, r, ops[0]);
      var rest := IngestAll(env, i.r, ops[1..]);
      rest.(full := rest.full || i.outcome == Full, lost := rest.lost || i.outcome == Overflow)
  }

  datatype Message = OpMessage(op: Op) | Deliver(ops: seq<Op>)

  /** One received message. A failing single operation returns before the drain; a failing entry of a
    * batch does not stop the batch. */
  ghost function Handle(env: Env, r: Replica, m: Message): (x: Settled) {
    if m.OpMessage? && !Succeeded(Ingest(env, r, m.op).outcome) then
      Settled(Ingest(env, r, m.op).r, Ingest(env, r, m.op).outcome == Full, false)
    else
      var all := IngestAll(env, r, if m.OpMessage? then [m.op] else m.ops);
      var d := Drain(env, all.r.(pending := []), all.r.pending);
      d.(full := d.full || all.full, lost := all.lost)
  }

  ghost function Run(env: Env, r: Replica, ms: seq<Message>): (x: Settled)
    decreases |ms|
  {
    if ms == [] then Settled(r, false, false)
    else
      var h := Handle(env, r, ms[0]);
      var rest := Run(env, h.r, ms[1..]);
      rest.(full := rest.full || h.full, lost := rest.lost || h.lost)
  }
}
