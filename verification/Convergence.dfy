/** Delivery in any order, and anti-entropy by heads, converge. */
module Convergence {
  import opened Ops
  import opened Graph
  import opened Membership
  import opened Frontier
  import opened DagModule
  import opened Replica

  /** Every operation is authorised against its own past. */
  ghost predicate Sound(b: Basis) {
    forall o :: o in b.h.ops ==> Authorised(b, b.h.ops[o])
  }

  /** The target of a delivery: a causally closed, authorised graph of genuine operations. */
  ghost predicate Target(env: Env, r: Replica, all: map<Oid, Op>) {
    && Signed(HistoryOf(all))
    && Sound(Basis(HistoryOf(all), r.policy, r.guilty))
    && forall o :: o in all ==> all[o].sid == r.sid && env.genuine(all[o])
  }

  predicate QuietDraft(all: map<Oid, Op>, d: Draft) {
    d.body.Prekeys? && d.oid !in all
  }

  /** The receiver reacts with prekey publications only, under identifiers that are not taken, and
    * learns of no new equivocator. */
  ghost predicate Quiet(env: Env, all: map<Oid, Op>, guilty: set<Id>) {
    && (forall n :: QuietDraft(all, env.rotation(n)))
    && (forall n :: env.onContrib(n).blamed <= guilty)
    && (forall n, i :: 0 <= i < |env.onContrib(n).own| ==> QuietDraft(all, env.onContrib(n).own[i]))
    && (forall n, o :: o in all && all[o].body.Accuse? && env.convicts(n) ==> all[o].body.who in guilty)
  }

  /** A state on the way: part of the target plus own prekey publications. */
  ghost predicate OnTheWay(r: Replica, all: map<Oid, Op>) {
    && Signed(HistoryOf(r.ops))
    && forall o :: o in r.ops ==> if o in all then r.ops[o] == all[o] else r.ops[o].body.Prekeys?
  }

  ghost predicate Same(r: Replica, s: Replica) {
    s.sid == r.sid && s.me == r.me && s.policy == r.policy && s.guilty == r.guilty && s.pending == r.pending
      && r.ops.Keys <= s.ops.Keys
  }

  lemma AddSigned(ops: map<Oid, Op>, op: Op)
    requires Signed(HistoryOf(ops)) && op.oid !in ops && op.deps <= ops.Keys
    ensures Signed(HistoryOf(ops[op.oid := op]))
  {
    AddKeepsWellFormed(Deps(ops), op.oid, op.deps);
    assert Deps(ops[op.oid := op]) == Deps(ops)[op.oid := op.deps];
  }

  lemma {:induction false} PublishKeeps(r: Replica, all: map<Oid, Op>, own: seq<Draft>)
    requires OnTheWay(r, all) && forall i :: 0 <= i < |own| ==> QuietDraft(all, own[i])
    ensures OnTheWay(Publish(r, own).r, all) && Same(r, Publish(r, own).r)
    ensures Publish(r, own).outcome == Applied || Publish(r, own).outcome == Full
    decreases |own|
  {
    if own != [] && |r.ops| < MAX_OPS {
      var op := Sign(r, own[0]);
      var next := if op.oid in r.ops then r else r.(ops := r.ops[op.oid := op]);
      if op.oid !in r.ops {
        AddSigned(r.ops, op);
      }
      PublishKeeps(next, all, own[1..]);
    }
  }

  /** An operation of the target whose dependencies have arrived is authorised here too. */
  lemma StillAuthorised(env: Env, r: Replica, all: map<Oid, Op>, op: Op)
    requires Target(env, r, all) && OnTheWay(r, all) && op.oid in all && all[op.oid] == op
    requires op.deps <= r.ops.Keys && op.oid !in r.ops
    ensures Authorised(BasisOf(r), op)
  {
    var b := Basis(HistoryOf(all), r.policy, r.guilty);
    assert Knows(b.h, op) by {
      assert b.h.parents[op.oid] == op.deps;
    }
    assert Knows(HistoryOf(r.ops), op);
    VerdictIsStable(b, HistoryOf(r.ops), op);
    VerdictIsStable(BasisOf(r), b.h, op);
    if OtherFounder(r.ops, op) {
      var o :| o in r.ops && Founding(r.ops[o]) && r.ops[o].author != op.author;
      assert o in all;
    }
  }

  lemma ApplyKeeps(env: Env, r: Replica, all: map<Oid, Op>, op: Op)
    requires Quiet(env, all, r.guilty) && OnTheWay(r, all)
    requires op.oid in all && all[op.oid] == op && op.deps <= r.ops.Keys && op.oid !in r.ops
    ensures var x := Apply(env, r, op);
      OnTheWay(x.r, all) && Same(r, x.r) && op.oid in x.r.ops && (x.outcome == Applied || x.outcome == Full)
  {
    AddSigned(r.ops, op);
    var next := r.(ops := r.ops[op.oid := op]);
    var reaction := React(env, r.me, |next.ops|, op);
    assert next.guilty + reaction.blamed == r.guilty;
    PublishKeeps(next.(guilty := next.guilty + reaction.blamed), all, reaction.own);
  }

  /** The standing assumptions of a delivery. */
  ghost predicate Setting(env: Env, r: Replica, all: map<Oid, Op>) {
    Target(env, r, all) && Quiet(env, all, r.guilty) && OnTheWay(r, all)
  }

  ghost predicate FromTarget(all: map<Oid, Op>, ops: seq<Op>) {
    forall op :: op in ops ==> op.oid in all && all[op.oid] == op
  }

  /** Each operation is in the graph or waiting in `held`. */
  ghost predicate Arrived(r: Replica, held: seq<Op>, ops: seq<Op>) {
    forall op :: op in ops ==> op.oid in r.ops || op in held
  }

  /** No operation of `ops` has all its dependencies. */
  ghost predicate Stuck(r: Replica, ops: seq<Op>) {
    forall op :: op in ops ==> !(op.deps <= r.ops.Keys)
  }

  lemma IngestReady(env: Env, r: Replica, all: map<Oid, Op>, op: Op)
    requires Setting(env, r, all) && FromTarget(all, [op])
    requires op.deps <= r.ops.Keys || op.oid in r.ops
    ensures var x := Ingest(env, r, op);
      && Setting(env, x.r, all) && Same(r, x.r)
      && (x.outcome == Applied || x.outcome == Duplicate || x.outcome == Full)
      && (x.outcome != Full ==> op.oid in x.r.ops)
  {
    assert op in [op];
    if op.oid !in r.ops {
      StillAuthorised(env, r, all, op);
      ApplyKeeps(env, r, all, op);
    }
  }

  lemma IngestWaits(env: Env, r: Replica, all: map<Oid, Op>, op: Op)
    requires Setting(env, r, all) && FromTarget(all, [op]) && FromTarget(all, r.pending)
    requires !(op.deps <= r.ops.Keys) && op.oid !in r.ops
    ensures var x := Ingest(env, r, op);
      && x.r == r.(pending := x.r.pending) && FromTarget(all, x.r.pending)
      && (forall o :: o in r.pending ==> o in x.r.pending)
      && (x.outcome == Overflow || (x.outcome == Parked && op in x.r.pending))
  {
    assert op in [op];
    Parks(env, r, all, op);
  }

  lemma Parks(env: Env, r: Replica, all: map<Oid, Op>, op: Op)
    requires op.sid == r.sid && env.genuine(op) && op.oid in all && all[op.oid] == op && FromTarget(all, r.pending)
    requires !(op.deps <= r.ops.Keys) && op.oid !in r.ops
    ensures var x := Ingest(env, r, op);
      && x.r == r.(pending := x.r.pending) && FromTarget(all, x.r.pending)
      && (forall o :: o in r.pending ==> o in x.r.pending)
      && (x.outcome == Overflow || (x.outcome == Parked && op in x.r.pending))
  {
  }

  lemma {:induction false} PassKeeps(env: Env, r: Replica, all: map<Oid, Op>, waiting: seq<Op>)
    requires Setting(env, r, all) && FromTarget(all, waiting)
    ensures var p := Pass(env, r, waiting);
      && Setting(env, p.r, all) && Same(r, p.r) && FromTarget(all, p.deferred)
      && (!p.full ==> Arrived(p.r, p.deferred, waiting))
      && (!p.full && !p.progressed ==> p.r == r && p.deferred == waiting && Stuck(r, waiting))
    decreases |waiting|
  {
    if waiting != [] {
      var op, rest := waiting[0], waiting[1..];
      assert waiting == [op] + rest;
      if op.deps <= r.ops.Keys {
        IngestReady(env, r, all, op);
        PassKeeps(env, Ingest(env, r, op).r, all, rest);
      } else {
        PassKeeps(env, r, all, rest);
      }
    }
  }

  lemma {:induction false} DrainSettles(env: Env, r: Replica, all: map<Oid, Op>, waiting: seq<Op>)
    requires Setting(env, r, all) && FromTarget(all, waiting) && r.pending == []
    ensures var d := Drain(env, r, waiting);
      && Setting(env, d.r, all) && Same(r, d.r.(pending := [])) && FromTarget(all, d.r.pending)
      && (!d.full ==> Arrived(d.r, d.r.pending, waiting) && Stuck(d.r, d.r.pending))
    decreases |waiting|
  {
    PassKeeps(env, r, all, waiting);
    PassShrinks(env, r, waiting);
    var p := Pass(env, r, waiting);
    if p.progressed {
      DrainSettles(env, p.r, all, p.deferred);
    }
  }

  lemma {:induction false} IngestAllKeeps(env: Env, r: Replica, all: map<Oid, Op>, ops: seq<Op>)
    requires Setting(env, r, all) && FromTarget(all, ops) && FromTarget(all, r.pending)
    ensures var x := IngestAll(env, r, ops);
      && Setting(env, x.r, all) && FromTarget(all, x.r.pending)
      && Same(r, x.r.(pending := r.pending)) && (forall o :: o in r.pending ==> o in x.r.pending)
      && (!x.full && !x.lost ==> Arrived(x.r, x.r.pending, ops))
    decreases |ops|
  {
    if ops != [] {
      var op, rest := ops[0], ops[1..];
      assert ops == [op] + rest;
      if op.deps <= r.ops.Keys || op.oid in r.ops {
        IngestReady(env, r, all, op);
      } else {
        IngestWaits(env, r, all, op);
      }
      IngestAllKeeps(env, Ingest(env, r, op).r, all, rest);
    }
  }

  /** What a message carries. */
  function Carried(m: Message): (ops: seq<Op>) {
    if m.OpMessage? then [m.op] else m.ops
  }

  /** Ingesting a batch and then draining the buffer. */
  ghost function Batch(env: Env, r: Replica, ops: seq<Op>): (x: Settled) {
    var all := IngestAll(env, r, ops);
    var d := Drain(env, all.r.(pending := []), all.r.pending);
    d.(full := d.full || all.full, lost := all.lost)
  }

  lemma BatchKeeps(env: Env, r: Replica, all: map<Oid, Op>, ops: seq<Op>, before: seq<Op>)
    requires Setting(env, r, all) && FromTarget(all, ops) && FromTarget(all, r.pending)
    requires Arrived(r, r.pending, before)
    ensures var x := Batch(env, r, ops);
      && Setting(env, x.r, all) && FromTarget(all, x.r.pending)
      && Same(r, x.r.(pending := r.pending))
      && (!x.full && !x.lost ==> Arrived(x.r, x.r.pending, before + ops) && Stuck(x.r, x.r.pending))
  {
    IngestAllKeeps(env, r, all, ops);
    var x := IngestAll(env, r, ops);
    DrainSettles(env, x.r.(pending := []), all, x.r.pending);
    var d := Drain(env, x.r.(pending := []), x.r.pending);
    if !x.full && !x.lost && !d.full {
      forall op | op in before + ops ensures op.oid in d.r.ops || op in d.r.pending {
        assert op.oid in x.r.ops || op in x.r.pending;
      }
    }
  }

  lemma HandleIsBatch(env: Env, r: Replica, all: map<Oid, Op>, m: Message)
    requires Setting(env, r, all) && FromTarget(all, Carried(m)) && FromTarget(all, r.pending)
    ensures Handle(env, r, m) == Batch(env, r, Carried(m)) || (m.OpMessage? && Ingest(env, r, m.op).outcome == Full)
  {
    if m.OpMessage? {
      IngestSucceeds(env, r, all, m.op);
      if Succeeded(Ingest(env, r, m.op).outcome) {
      }
    }
  }

  lemma IngestSucceeds(env: Env, r: Replica, all: map<Oid, Op>, op: Op)
    requires Setting(env, r, all) && FromTarget(all, [op]) && FromTarget(all, r.pending)
    ensures Succeeded(Ingest(env, r, op).outcome) || Ingest(env, r, op).outcome == Full
  {
    if op.deps <= r.ops.Keys || op.oid in r.ops {
      IngestReady(env, r, all, op);
    } else {
      IngestWaits(env, r, all, op);
    }
  }

  lemma HandleKeeps(env: Env, r: Replica, all: map<Oid, Op>, m: Message, before: seq<Op>)
    requires Setting(env, r, all) && FromTarget(all, Carried(m)) && FromTarget(all, r.pending)
    requires Arrived(r, r.pending, before)
    ensures var x := Handle(env, r, m);
      !x.full && !x.lost ==>
        && Setting(env, x.r, all) && FromTarget(all, x.r.pending) && Same(r, x.r.(pending := r.pending))
        && Arrived(x.r, x.r.pending, before + Carried(m)) && Stuck(x.r, x.r.pending)
  {
    HandleIsBatch(env, r, all, m);
    BatchKeeps(env, r, all, Carried(m), before);
  }

  /** Everything a run of messages carries. */
  function AllCarried(ms: seq<Message>): (ops: seq<Op>) {
    if ms == [] then [] else Carried(ms[0]) + AllCarried(ms[1..])
  }

  lemma {:induction false} RunKeeps(env: Env, r: Replica, all: map<Oid, Op>, ms: seq<Message>, before: seq<Op>)
    requires Setting(env, r, all) && FromTarget(all, AllCarried(ms)) && FromTarget(all, r.pending)
    requires Arrived(r, r.pending, before) && Stuck(r, r.pending)
    ensures var x := Run(env, r, ms);
      !x.full && !x.lost ==>
        && Setting(env, x.r, all) && FromTarget(all, x.r.pending) && Same(r, x.r.(pending := r.pending))
        && Arrived(x.r, x.r.pending, before + AllCarried(ms)) && Stuck(x.r, x.r.pending)
    decreases |ms|
  {
    if ms == [] {
      assert before + [] == before;
    } else {
      var m, rest := ms[0], ms[1..];
      HandleKeeps(env, r, all, m, before);
      var h := Handle(env, r, m);
      if !h.full && !h.lost {
        RunKeeps(env, h.r, all, rest, before + Carried(m));
        assert before + Carried(m) + AllCarried(rest) == before + AllCarried(ms);
      }
    }
  }

  /** When every operation of a causally closed target has arrived and the buffer is stuck, the
    * buffer is empty and the target is complete. */
  lemma StuckIsEmpty(r: Replica, all: map<Oid, Op>)
    requires Signed(HistoryOf(all)) && FromTarget(all, r.pending) && Stuck(r, r.pending)
    requires forall o :: o in all ==> o in r.ops || all[o] in r.pending
    ensures r.pending == [] && all.Keys <= r.ops.Keys
  {
    var rank :| Ranked(Deps(all), rank);
    if r.pending != [] {
      var op := r.pending[0];
      assert op in r.pending && Deps(all)[op.oid] == op.deps;
      var missing :| missing in op.deps && missing !in r.ops;
      assert missing in all;
    }
    forall o | o in all ensures o in r.ops {
      Arrives(r, all, rank, o);
    }
  }

  lemma {:induction false} Arrives(r: Replica, all: map<Oid, Op>, rank: map<Oid, nat>, o: Oid)
    requires Signed(HistoryOf(all)) && Stuck(r, r.pending) && Ranked(Deps(all), rank) && o in all
    requires forall x :: x in all ==> x in r.ops || all[x] in r.pending
    ensures o in r.ops
    decreases if o in rank then rank[o] else 0
  {
    assert Deps(all)[o] == all[o].deps;
    forall p | p in all[o].deps ensures p in r.ops {
      Arrives(r, all, rank, p);
    }
  }

  /** Delivery-order independence: whatever the order, the duplication and the batching, a run that
    * carries every missing operation of a causally closed, authorised target, and that meets no
    * resource limit, leaves nothing pending and holds exactly the target plus own prekey publications. */
  lemma AnyOrderConverges(env: Env, r: Replica, all: map<Oid, Op>, ms: seq<Message>)
    requires Setting(env, r, all) && r.pending == []
    requires FromTarget(all, AllCarried(ms))
    requires forall o :: o in all ==> o in r.ops || all[o] in AllCarried(ms)
    requires !Run(env, r, ms).full && !Run(env, r, ms).lost
    ensures var x := Run(env, r, ms).r;
      x.pending == [] && all.Keys <= x.ops.Keys && OnTheWay(x, all) && Same(r, x)
  {
    RunKeeps(env, r, all, ms, []);
    var x := Run(env, r, ms).r;
    assert [] + AllCarried(ms) == AllCarried(ms);
    forall o | o in all ensures o in x.ops || all[o] in x.pending {
      if o !in r.ops {
        assert all[o] in AllCarried(ms) && all[o].oid == o;
      }
    }
    StuckIsEmpty(x, all);
  }

  // --------------------------------------------------- what the extra publications cannot change

  /** Prekey publications change neither the frontier nor the roster. */
  lemma PublicationsAreInvisible(x: Replica, all: map<Oid, Op>)
    requires Signed(HistoryOf(all)) && OnTheWay(x, all) && all.Keys <= x.ops.Keys
    ensures Tips(HistoryOf(x.ops)) == Tips(HistoryOf(all))
    ensures Members(BasisOf(x)) == Members(BasisOf(x).(h := HistoryOf(all)))
  {
    var h, big := HistoryOf(all), HistoryOf(x.ops);
    assert PartOf(h, big);
    TipsIgnoreOthers(h, big);
    forall who ensures who in Members(BasisOf(x)) <==> who in Members(BasisOf(x).(h := h)) {
      RosterIgnoresPublications(BasisOf(x), h, who);
    }
  }

  /** Bodies that neither admit, nor evict, nor accuse. */
  predicate Neutral(body: Body) {
    body.Prekeys? || body.Contrib? || body.PrekeyRequest?
  }

  lemma RosterIgnoresPublications(b: Basis, h: History, who: Id)
    requires ValidHistory(b.h) && ValidHistory(h) && PartOf(h, b.h)
    requires forall o :: o in b.h.ops && o !in h.ops ==> Neutral(b.h.ops[o].body)
    ensures who in Members(b) <==> who in Members(b.(h := h))
  {
    var c := b.(h := h);
    var s, t := b.h.ops.Keys, h.ops.Keys;
    RosterIs(b, s, who);
    RosterIs(c, t, who);
    forall o ensures Counted(b, s, who, o) <==> Counted(c, t, who, o) {
      CountedIgnoresPublications(b, h, who, o);
    }
    forall a ensures Admission(b, s, who, a) <==> Admission(c, t, who, a) {
    }
    forall a | Admission(c, t, who, a) ensures Survives(b, s, who, a) <==> Survives(c, t, who, a) {
      PastStable(b.h.parents, h.parents, a);
    }
  }

  /** Bodies that can take `who` off the roster. */
  predicate Evicts(guilty: set<Id>, who: Id, body: Body) {
    body == Remove(who) || (body.Accuse? && body.who == who && who in guilty)
  }

  lemma CountedIgnoresPublications(b: Basis, h: History, who: Id, o: Oid)
    requires PartOf(h, b.h)
    requires forall x :: x in b.h.ops && x !in h.ops ==> !Evicts(b.guilty, who, b.h.ops[x].body)
    ensures Counted(b, b.h.ops.Keys, who, o) <==> Counted(b.(h := h), h.ops.Keys, who, o)
  {
    var c := b.(h := h);
    var s, t := b.h.ops.Keys, h.ops.Keys;
    forall x ensures Ballot(b, s, who, x) <==> Ballot(c, t, who, x) {
    }
    forall x ensures x in Voters(b, s, who) <==> x in Voters(c, t, who) {
      if x in Voters(b, s, who) {
        var v :| v in s && Ballot(b, s, who, v) && b.h.ops[v].author == x;
        assert Ballot(c, t, who, v);
      }
      if x in Voters(c, t, who) {
        var v :| v in t && Ballot(c, t, who, v) && h.ops[v].author == x;
        assert Ballot(b, s, who, v);
      }
    }
    assert Voters(b, s, who) == Voters(c, t, who);
  }

  /** A member stays one in every larger graph that adds no eviction of it. */
  lemma NotEvictedStays(b: Basis, h: History, who: Id)
    requires ValidHistory(b.h) && ValidHistory(h) && PartOf(h, b.h) && who in Members(b.(h := h))
    requires forall o :: o in b.h.ops && o !in h.ops ==> !Evicts(b.guilty, who, b.h.ops[o].body)
    ensures who in Members(b)
  {
    var c := b.(h := h);
    var s, t := b.h.ops.Keys, h.ops.Keys;
    RosterIs(b, s, who);
    RosterIs(c, t, who);
    var a :| Admission(c, t, who, a) && Survives(c, t, who, a);
    PastStable(b.h.parents, h.parents, a);
    forall r | Counted(b, s, who, r) ensures Precedes(b.h.parents, r, a) {
      CountedIgnoresPublications(b, h, who, r);
    }
    assert Admission(b, s, who, a) && Survives(b, s, who, a);
  }

  /** Two receivers of the same target agree on frontier, roster and version label, whatever order each
    * of them saw. */
  lemma OrdersAgree(env: Env, r: Replica, ms: seq<Message>, env': Env, r': Replica, ms': seq<Message>,
                    all: map<Oid, Op>, l: Labels)
    requires Setting(env, r, all) && r.pending == [] && FromTarget(all, AllCarried(ms))
    requires forall o :: o in all ==> o in r.ops || all[o] in AllCarried(ms)
    requires !Run(env, r, ms).full && !Run(env, r, ms).lost
    requires Setting(env', r', all) && r'.pending == [] && FromTarget(all, AllCarried(ms'))
    requires forall o :: o in all ==> o in r'.ops || all[o] in AllCarried(ms')
    requires !Run(env', r', ms').full && !Run(env', r', ms').lost
    requires r.policy == r'.policy && r.guilty == r'.guilty
    ensures var x, y := Run(env, r, ms).r, Run(env', r', ms').r;
      && x.pending == [] && y.pending == []
      && Tips(HistoryOf(x.ops)) == Tips(HistoryOf(y.ops)) && Members(BasisOf(x)) == Members(BasisOf(y))
      && Version(l, BasisOf(x)) == Version(l, BasisOf(y))
  {
    AnyOrderConverges(env, r, all, ms);
    AnyOrderConverges(env', r', all, ms');
    PublicationsAreInvisible(Run(env, r, ms).r, all);
    PublicationsAreInvisible(Run(env', r', ms').r, all);
  }
}
