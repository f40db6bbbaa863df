/** Exactly when an anti-entropy exchange leaves nothing over
  * (crates/cfr-core/src/member.rs: `publish_prekeys` has no membership check, `ingest` has one). */
module Leftover {
  import opened Ops
  import opened Graph
  import opened Membership
  import opened DagModule
  import opened Topological
  import opened Replica
  import opened Convergence
  import opened Sync
  import opened Exchange

  // -------------------------------------------------------------------- a condition on the two graphs

  /** A member that nothing it learns evicts stays a member throughout. */
  lemma {:induction false} UnevictedStays(r: Replica, ops: seq<Op>)
    requires Signed(HistoryOf(r.ops)) && InOrder(r.ops.Keys, ops) && r.me in Members(BasisOf(r))
    requires forall op :: op in ops && op.oid !in r.ops ==> !Evicts(r.guilty, r.me, op.body)
    ensures StaysMember(r, ops)
    decreases |ops|
  {
    if ops != [] {
      var op := ops[0];
      assert op in ops && forall p :: p in ops[1..] ==> p in ops;
      var next := Holding(r, op);
      if op.oid !in r.ops {
        AddSigned(r.ops, op);
        NotEvictedStays(BasisOf(next), HistoryOf(r.ops), r.me);
      }
      InOrderGrows(r.ops.Keys + {op.oid}, next.ops.Keys, ops[1..]);
      UnevictedStays(next, ops[1..]);
    }
  }

  /** If the requester is a member of its own graph and nothing the other side adds evicts it, the
    * exchange is complete. */
  lemma UnevictedExchange(a: Replica, b: Replica, order: seq<Oid>)
    requires Meeting(a, b, order) && a.me in Members(BasisOf(a))
    requires forall o :: o in b.ops && o !in a.ops ==> !Evicts(a.guilty, a.me, b.ops[o].body)
    ensures StaysMember(a, Delivered(b, a.ops, order))
  {
    DeliveredIs(b, a.ops, order);
    UnevictedStays(a, Delivered(b, a.ops, order));
  }

  // ------------------------------------------------------------ what is not authorised never enters

  /** The graph agrees with `x` and does not hold `q`. */
  ghost predicate Shuns(r: Replica, x: Replica, q: Op) {
    && Signed(HistoryOf(r.ops)) && Compatible(HistoryOf(r.ops), HistoryOf(x.ops))
    && q.oid !in r.ops && r.policy == x.policy && r.guilty == x.guilty
  }

  ghost predicate Outlaw(x: Replica, q: Op) {
    && Signed(HistoryOf(x.ops)) && q.oid in x.ops && x.ops[q.oid] == q
    && q.body.Prekeys? && !Authorised(BasisOf(x), q)
  }

  lemma OutlawIsRefused(env: Env, r: Replica, x: Replica, q: Op)
    requires Outlaw(x, q) && Shuns(r, x, q) && q.deps <= r.ops.Keys
    ensures Ingest(env, r, q) == Ingested(Refused, r)
  {
    assert Deps(x.ops)[q.oid] == q.deps;
    VerdictIsStable(BasisOf(r), HistoryOf(x.ops), q);
  }

  lemma {:induction false} PublishShuns(r: Replica, x: Replica, q: Op, own: seq<Draft>)
    requires Shuns(r, x, q) && q.oid in x.ops && forall i :: 0 <= i < |own| ==> own[i].oid !in x.ops
    ensures Shuns(Publish(r, own).r, x, q)
    decreases |own|
  {
    if own != [] && |r.ops| < MAX_OPS {
      var op := Sign(r, own[0]);
      if op.oid !in r.ops {
        AddSigned(r.ops, op);
      }
      PublishShuns(if op.oid in r.ops then r else r.(ops := r.ops[op.oid := op]), x, q, own[1..]);
    }
  }

  lemma ApplyShuns(env: Env, r: Replica, x: Replica, q: Op, op: Op)
    requires Shuns(r, x, q) && q.oid in x.ops && Quiet(env, x.ops, r.guilty)
    requires op.oid in x.ops && x.ops[op.oid] == op && op.oid != q.oid && op.oid !in r.ops && op.deps <= r.ops.Keys
    ensures Shuns(Apply(env, r, op).r, x, q)
  {
    AddSigned(r.ops, op);
    ApplyPublishes(env, r, x.ops, op);
    PublishShuns(Holding(r, op), x, q, Answering(env, r, op));
  }

  lemma IngestShuns(env: Env, r: Replica, x: Replica, q: Op, op: Op)
    requires Outlaw(x, q) && Shuns(r, x, q) && Quiet(env, x.ops, r.guilty) && op.oid in x.ops && x.ops[op.oid] == op
    ensures Shuns(Ingest(env, r, op).r, x, q)
    ensures forall p :: p in Ingest(env, r, op).r.pending ==> p in r.pending || p == op
  {
    if op == q && op.deps <= r.ops.Keys {
      OutlawIsRefused(env, r, x, q);
    } else if op.oid !in r.ops && op.deps <= r.ops.Keys {
      ApplyShuns(env, r, x, q, op);
      PublishPending(Holding(r, op), Answering(env, r, op));
      ApplyPublishes(env, r, x.ops, op);
    }
  }

  lemma {:induction false} PublishPending(r: Replica, own: seq<Draft>)
    ensures Publish(r, own).r.pending == r.pending
    decreases |own|
  {
    if own != [] && |r.ops| < MAX_OPS {
      var op := Sign(r, own[0]);
      PublishPending(if op.oid in r.ops then r else r.(ops := r.ops[op.oid := op]), own[1..]);
    }
  }

  lemma {:induction false} IngestAllShuns(env: Env, r: Replica, x: Replica, q: Op, ops: seq<Op>)
    requires Outlaw(x, q) && Shuns(r, x, q) && Quiet(env, x.ops, r.guilty)
    requires FromTarget(x.ops, ops) && FromTarget(x.ops, r.pending)
    ensures Shuns(IngestAll(env, r, ops).r, x, q) && FromTarget(x.ops, IngestAll(env, r, ops).r.pending)
    decreases |ops|
  {
    if ops != [] {
      assert ops[0] in ops && ops == [ops[0]] + ops[1..];
      IngestShuns(env, r, x, q, ops[0]);
      IngestAllShuns(env, Ingest(env, r, ops[0]).r, x, q, ops[1..]);
    }
  }

  lemma {:induction false} PassShuns(env: Env, r: Replica, x: Replica, q: Op, waiting: seq<Op>)
    requires Outlaw(x, q) && Shuns(r, x, q) && Quiet(env, x.ops, r.guilty) && FromTarget(x.ops, waiting)
    ensures Shuns(Pass(env, r, waiting).r, x, q) && FromTarget(x.ops, Pass(env, r, waiting).deferred)
    decreases |waiting|
  {
    if waiting != [] {
      assert waiting[0] in waiting && waiting == [waiting[0]] + waiting[1..];
      if waiting[0].deps <= r.ops.Keys {
        IngestShuns(env, r, x, q, waiting[0]);
        PassShuns(env, Ingest(env, r, waiting[0]).r, x, q, waiting[1..]);
      } else {
        PassShuns(env, r, x, q, waiting[1..]);
      }
    }
  }

  lemma {:induction false} DrainShuns(env: Env, r: Replica, x: Replica, q: Op, waiting: seq<Op>)
    requires Outlaw(x, q) && Shuns(r, x, q) && Quiet(env, x.ops, r.guilty) && FromTarget(x.ops, waiting)
    ensures Shuns(Drain(env, r, waiting).r, x, q)
    decreases |waiting|
  {
    PassShuns(env, r, x, q, waiting);
    PassShrinks(env, r, waiting);
    var p := Pass(env, r, waiting);
    if p.progressed {
      DrainShuns(env, p.r, x, q, p.deferred);
    }
  }

  /** Whatever part of `x` is delivered, in whatever order, an operation that is not authorised in its
    * own past does not enter. */
  lemma HandleShuns(env: Env, r: Replica, x: Replica, q: Op, ops: seq<Op>)
    requires Outlaw(x, q) && Shuns(r, x, q) && Quiet(env, x.ops, r.guilty)
    requires FromTarget(x.ops, ops) && r.pending == []
    ensures Shuns(Handle(env, r, Deliver(ops)).r, x, q)
  {
    IngestAllShuns(env, r, x, q, ops);
    var i := IngestAll(env, r, ops).r;
    DrainShuns(env, i.(pending := []), x, q, i.pending);
  }

  // -------------------------------------------------------------------- exactly, for one execution

  /** In a state on the way to an authorised target, only publications can lack authorisation. */
  lemma OutlawsArePublications(env: Env, x: Replica, all: map<Oid, Op>, o: Oid)
    requires Target(env, x, all) && OnTheWay(x, all) && o in x.ops && !Authorised(BasisOf(x), x.ops[o])
    ensures o !in all && Outlaw(x, x.ops[o])
  {
    if o in all {
      var t := Basis(HistoryOf(all), x.policy, x.guilty);
      SoundHasOneFounder(t);
      FoundersFrom(all, x.ops);
      TargetAuthorised(t, BasisOf(x), x.ops[o]);
    }
  }

  lemma AnswerIsPart(x: Replica, who: Id, heads: set<Oid>, order: seq<Oid>)
    requires Signed(HistoryOf(x.ops))
    ensures FromTarget(x.ops, AnswerSync(x, who, heads, order).deliver)
  {
    LackingIs(x.ops, order, Closure(Deps(x.ops), heads));
  }

  /** One unauthorised publication on the first side never reaches the second. */
  lemma OutlawStaysBehind(env: Env, a: Replica, b: Replica, x: Replica, q: Op, env': Env, order': seq<Oid>)
    requires Peers(a, b) && b.pending == [] && Steady(env', a, b) && Believes(env', env, a)
    requires Same(a, x) && OnTheWay(x, a.ops + b.ops) && Drafted(env, x, a.ops + b.ops)
    requires Outlaw(x, q) && q.oid !in a.ops + b.ops
    ensures Shuns(Leg(env', b, x, order').r, x, q)
  {
    SteadyAfter(env, env', a, x, a.ops + b.ops);
    CompatibleAfter(a, b, x);
    AnswerIsPart(x, b.me, Heads(Deps(b.ops)), order');
    HandleShuns(env', b, x, q, AnswerSync(x, b.me, Heads(Deps(b.ops)), order').deliver);
  }

  /** An exchange is complete exactly when everything the first side holds by then is authorised. */
  lemma CompleteExactly(env: Env, a: Replica, b: Replica, order: seq<Oid>, env': Env, order': seq<Oid>)
    requires Meeting(a, b, order) && Steady(env, a, b) && Steady(env', a, b) && Believes(env', env, a)
    requires !Leg(env, a, b, order).full && IsTopological(Deps(Leg(env, a, b, order).r.ops), order')
    requires !Leg(env', b, Leg(env, a, b, order).r, order').full
    ensures var x := Leg(env, a, b, order).r;
      Complete(x, Leg(env', b, x, order').r) <==> Sound(BasisOf(x))
  {
    FirstLeg(env, a, b, order);
    UnionIsTarget(env, a, b);
    var x := Leg(env, a, b, order).r;
    if Sound(BasisOf(x)) {
      SoundExchange(env, a, b, x, env', order');
    } else {
      var o :| o in x.ops && !Authorised(BasisOf(x), x.ops[o]);
      OutlawsArePublications(env, x, a.ops + b.ops, o);
      OutlawStaysBehind(env, a, b, x, x.ops[o], env', order');
    }
  }

  /** A publication signed by someone who is not a member is not authorised. */
  lemma SignedByStranger(r: Replica, d: Draft)
    requires Signed(HistoryOf(r.ops)) && d.oid !in r.ops && d.body.Prekeys? && r.me !in Members(BasisOf(r))
    ensures Outlaw(r.(ops := r.ops[d.oid := Sign(r, d)]), Sign(r, d))
  {
    var q := Sign(r, d);
    var next := r.(ops := r.ops[d.oid := q]);
    AddSigned(r.ops, q);
    WholeGraphIsPast(r, q);
    VerdictIsStable(BasisOf(r), HistoryOf(next.ops), q);
  }

  lemma OutlawPersists(x: Replica, y: Replica, q: Op)
    requires Outlaw(x, q) && Signed(HistoryOf(y.ops)) && Includes(y.ops, x.ops) && x.policy == y.policy
    requires x.guilty == y.guilty
    ensures Outlaw(y, q)
  {
    assert Deps(x.ops)[q.oid] == q.deps && Deps(y.ops)[q.oid] == q.deps;
    VerdictIsStable(BasisOf(x), HistoryOf(y.ops), q);
  }

  // --------------------------------------------------------------------------- what stays pending

  lemma {:induction false} PublishGrows(r: Replica, own: seq<Draft>)
    ensures r.ops.Keys <= Publish(r, own).r.ops.Keys && Publish(r, own).r.sid == r.sid
    decreases |own|
  {
    if own != [] && |r.ops| < MAX_OPS {
      var op := Sign(r, own[0]);
      PublishGrows(if op.oid in r.ops then r else r.(ops := r.ops[op.oid := op]), own[1..]);
    }
  }

  lemma IngestGrows(env: Env, r: Replica, op: Op)
    ensures var x := Ingest(env, r, op).r;
      r.ops.Keys <= x.ops.Keys && x.sid == r.sid && forall p :: p in r.pending ==> p in x.pending
  {
    var next := r.(ops := r.ops[op.oid := op]);
    var reaction := React(env, r.me, |next.ops|, op);
    PublishGrows(next.(guilty := next.guilty + reaction.blamed), reaction.own);
    PublishPending(next.(guilty := next.guilty + reaction.blamed), reaction.own);
  }

  /** A genuine operation whose dependencies never all arrive is parked, or lost to the limit. */
  lemma {:induction false} IngestAllHolds(env: Env, r: Replica, ops: seq<Op>, p: Op)
    requires env.genuine(p) && p.sid == r.sid && (p in ops || p in r.pending)
    requires p.oid !in IngestAll(env, r, ops).r.ops && !(p.deps <= IngestAll(env, r, ops).r.ops.Keys)
    ensures IngestAll(env, r, ops).lost || p in IngestAll(env, r, ops).r.pending
    ensures r.ops.Keys <= IngestAll(env, r, ops).r.ops.Keys
    decreases |ops|
  {
    if ops != [] {
      assert ops == [ops[0]] + ops[1..];
      IngestGrows(env, r, ops[0]);
      var i := Ingest(env, r, ops[0]).r;
      IngestAllGrows(env, i, ops[1..]);
      if p == ops[0] && Ingest(env, r, p).outcome != Overflow {
        assert p in i.pending;
      }
      if p in ops[1..] || p in i.pending {
        IngestAllHolds(env, i, ops[1..], p);
      }
    }
  }

  lemma {:induction false} IngestAllGrows(env: Env, r: Replica, ops: seq<Op>)
    ensures r.ops.Keys <= IngestAll(env, r, ops).r.ops.Keys
    decreases |ops|
  {
    if ops != [] {
      IngestGrows(env, r, ops[0]);
      IngestAllGrows(env, Ingest(env, r, ops[0]).r, ops[1..]);
    }
  }

  lemma {:induction false} PassGrows(env: Env, r: Replica, waiting: seq<Op>)
    ensures r.ops.Keys <= Pass(env, r, waiting).r.ops.Keys
    decreases |waiting|
  {
    if waiting != [] {
      if waiting[0].deps <= r.ops.Keys {
        IngestGrows(env, r, waiting[0]);
        PassGrows(env, Ingest(env, r, waiting[0]).r, waiting[1..]);
      } else {
        PassGrows(env, r, waiting[1..]);
      }
    }
  }

  lemma {:induction false} PassHolds(env: Env, r: Replica, waiting: seq<Op>, p: Op)
    requires p in waiting && !(p.deps <= Pass(env, r, waiting).r.ops.Keys)
    ensures p in Pass(env, r, waiting).deferred
    decreases |waiting|
  {
    assert waiting == [waiting[0]] + waiting[1..];
    PassGrows(env, r, waiting);
    if waiting[0].deps <= r.ops.Keys {
      PassHolds(env, Ingest(env, r, waiting[0]).r, waiting[1..], p);
    } else if p != waiting[0] {
      PassHolds(env, r, waiting[1..], p);
    }
  }

  lemma {:induction false} DrainHolds(env: Env, r: Replica, waiting: seq<Op>, p: Op)
    requires p in waiting && !(p.deps <= Drain(env, r, waiting).r.ops.Keys)
    ensures p in Drain(env, r, waiting).r.pending
    ensures r.ops.Keys <= Drain(env, r, waiting).r.ops.Keys
    decreases |waiting|
  {
    DrainGrows(env, r, waiting);
    PassShrinks(env, r, waiting);
    var s := Pass(env, r, waiting);
    if s.progressed {
      DrainGrows(env, s.r, s.deferred);
    }
    PassHolds(env, r, waiting, p);
    if s.progressed {
      DrainHolds(env, s.r, s.deferred, p);
    }
  }

  lemma {:induction false} DrainGrows(env: Env, r: Replica, waiting: seq<Op>)
    ensures r.ops.Keys <= Drain(env, r, waiting).r.ops.Keys
    decreases |waiting|
  {
    PassGrows(env, r, waiting);
    PassShrinks(env, r, waiting);
    var s := Pass(env, r, waiting);
    if s.progressed {
      DrainGrows(env, s.r, s.deferred);
    }
  }

  lemma HandleHolds(env: Env, r: Replica, ops: seq<Op>, p: Op)
    requires env.genuine(p) && p.sid == r.sid && p in ops
    requires p.oid !in Handle(env, r, Deliver(ops)).r.ops && !(p.deps <= Handle(env, r, Deliver(ops)).r.ops.Keys)
    ensures Handle(env, r, Deliver(ops)).lost || p in Handle(env, r, Deliver(ops)).r.pending
  {
    var i := IngestAll(env, r, ops);
    DrainGrows(env, i.r.(pending := []), i.r.pending);
    IngestAllHolds(env, r, ops, p);
    if !i.lost {
      DrainHolds(env, i.r.(pending := []), i.r.pending, p);
    }
  }

  /** `q` is not authorised, and a later publication `p` names it as a dependency. */
  ghost predicate Chained(x: Replica, q: Op, p: Op) {
    Outlaw(x, q) && p.oid in x.ops && x.ops[p.oid] == p && q.oid in p.deps
  }

  /** Publications chained onto an unauthorised one stay in the other side's buffer for good. */
  lemma ChainedSticks(env: Env, a: Replica, b: Replica, x: Replica, q: Op, p: Op, env': Env, order': seq<Oid>)
    requires Peers(a, b) && b.pending == [] && Steady(env', a, b) && Believes(env', env, a)
    requires Same(a, x) && OnTheWay(x, a.ops + b.ops) && Drafted(env, x, a.ops + b.ops)
    requires (a.ops + b.ops).Keys <= x.ops.Keys
    requires Chained(x, q, p) && q.oid !in a.ops + b.ops && p.oid !in a.ops + b.ops
    requires b.me in Members(BasisOf(a).(h := HistoryOf(a.ops + b.ops))) && IsTopological(Deps(x.ops), order')
    ensures Leg(env', b, x, order').lost || Leg(env', b, x, order').r.pending != []
  {
    OutlawStaysBehind(env, a, b, x, q, env', order');
    SecondAnswer(a, b, x, order');
    SteadyAfter(env, env', a, x, a.ops + b.ops);
    var y := Leg(env', b, x, order').r;
    NotStored(y, x, q, p);
    HandleHolds(env', b, AnswerSync(x, b.me, Heads(Deps(b.ops)), order').deliver, p);
  }

  lemma NotStored(y: Replica, x: Replica, q: Op, p: Op)
    requires Shuns(y, x, q) && Chained(x, q, p)
    ensures p.oid !in y.ops && !(p.deps <= y.ops.Keys)
  {
    forall o | o in y.ops ensures y.ops[o].deps <= y.ops.Keys {
      assert Deps(y.ops)[o] == y.ops[o].deps;
    }
  }
}
