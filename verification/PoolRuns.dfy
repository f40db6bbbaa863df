/** Executions that answer as the prekey pool does, and exactly when an exchange among them leaves
  * nothing over (crates/cfr-core/src/member.rs and prekey.rs). */
module PoolRuns {
  import opened Base
  import opened Ops
  import opened Graph
  import opened Membership
  import opened DagModule
  import opened Prekey
  import opened Topological
  import opened Replica
  import opened Convergence
  import opened Sync
  import opened Exchange
  import opened Leftover

  // --------------------------------------------------------------------------- following the pool

  /** What storing `op` does to the inlet of `r`. */
  ghost function Meets(i: Inlet, r: Replica, op: Op): (e: Effect) {
    Storing(i, r.me, Members(BasisOf(Holding(r, op))) - {r.me}, op)
  }

  /** One publication under a new identifier when the pool rotates, and none otherwise. */
  ghost predicate Talks(env: Env, r: Replica, op: Op, rotates: bool) {
    var own := Answering(env, r, op);
    if rotates then |own| == 1 && own[0].oid !in Holding(r, op).ops else own == []
  }

  /** While `r` ingests `ops`, the environment answers as the inlet does. */
  ghost predicate Follows(env: Env, i: Inlet, r: Replica, ops: seq<Op>)
    decreases |ops|
  {
    ops != [] ==>
      var op, next := ops[0], Ingest(env, r, ops[0]).r;
      if op.oid in next.ops && op.oid !in r.ops then
        var e := Meets(i, r, op);
        Talks(env, r, op, e.rotates) && Follows(env, e.inlet, next, ops[1..])
      else Follows(env, i, next, ops[1..])
  }

  /** Whenever storing one of `ops` makes the inlet rotate, `r.me` is a member of the graph then held. The
    * requester can tell from its own graph, its own inlet and the delivery. */
  ghost predicate Orderly(i: Inlet, r: Replica, ops: seq<Op>)
    decreases |ops|
  {
    ops != [] ==>
      if ops[0].oid in r.ops then Orderly(i, r, ops[1..])
      else
        var e, next := Meets(i, r, ops[0]), Holding(r, ops[0]);
        (e.rotates ==> r.me in Members(BasisOf(next))) && Orderly(e.inlet, next, ops[1..])
  }

  /** The requester's leg of an exchange as one that owns inlet `i` can go through it. */
  ghost predicate Execution(env: Env, i: Inlet, a: Replica, b: Replica, order: seq<Oid>) {
    Steady(env, a, b) && Follows(env, i, a, Delivered(b, a.ops, order)) && !Leg(env, a, b, order).full
  }

  lemma RotationStirs(i: Inlet, r: Replica, op: Op)
    ensures Meets(i, r, op).rotates ==> Stirs(r.me, op)
  {
  }

  /** A requester that stays a member throughout is in order whatever its inlet. */
  lemma {:induction false} MemberIsOrderly(i: Inlet, r: Replica, ops: seq<Op>)
    requires StaysMember(r, ops)
    ensures Orderly(i, r, ops)
    decreases |ops|
  {
    if ops != [] {
      RotationStirs(i, r, ops[0]);
      MemberIsOrderly(if ops[0].oid in r.ops then i else Meets(i, r, ops[0]).inlet,
                      Holding(r, ops[0]), ops[1..]);
    }
  }

  /** Neither a request for `me`'s prekeys nor a contribution addressed to `me`. */
  predicate Unaddressed(me: Id, op: Op) {
    match op.body
    case PrekeyRequest(targets) => me !in targets
    case Contrib(_, _, _, slices, _) => SliceFor(me, slices) == None
    case _ => true
  }

  /** Admissions and what is not addressed to the requester do no harm to one whose pool is open, member or
    * not: the pool stays as it is. Any rotation opens the pool. */
  lemma {:induction false} OpenIsOrderly(i: Inlet, r: Replica, ops: seq<Op>)
    requires !i.pool.isSealed && forall op :: op in ops ==> Unaddressed(r.me, op)
    ensures Orderly(i, r, ops)
    decreases |ops|
  {
    if ops != [] {
      assert ops[0] in ops && Meets(i, r, ops[0]) == Effect(i, false);
      assert forall op :: op in ops[1..] ==> op in ops;
      OpenIsOrderly(i, Holding(r, ops[0]), ops[1..]);
    }
  }

  lemma RotationOpens(i: Inlet, r: Replica, op: Op)
    ensures var e := Meets(i, r, op); e.rotates || (op.body.Add? && op.body.who != r.me) ==> !e.inlet.pool.isSealed
  {
  }

  // ----------------------------------------------------------------------------------- exactness

  lemma MeetsCore(i: Inlet, r: Replica, all: map<Oid, Op>, op: Op)
    requires Signed(HistoryOf(all)) && OnTheWay(r, all) && op.oid in all && all[op.oid] == op && op.deps <= r.ops.Keys
    ensures Meets(i, Core(r, all), op) == Meets(i, r, op)
  {
    RosterOfCore(r, all, op);
  }

  ghost predicate Paced(env: Env, i: Inlet, r: Replica, all: map<Oid, Op>, ops: seq<Op>) {
    Learning(env, r, all, ops) && Follows(env, i, r, ops) && !IngestAll(env, r, ops).full
  }

  ghost function InletAfter(i: Inlet, r: Replica, op: Op): (j: Inlet) {
    if op.oid in r.ops then i else Meets(i, r, op).inlet
  }

  /** One step of a paced run. */
  lemma PacedFirst(env: Env, i: Inlet, r: Replica, all: map<Oid, Op>, ops: seq<Op>)
    requires Paced(env, i, r, all, ops) && ops != []
    ensures var op, next := ops[0], Ingest(env, r, ops[0]).r;
      && Paced(env, InletAfter(i, r, op), next, all, ops[1..])
      && IngestAll(env, r, ops).r == IngestAll(env, next, ops[1..]).r
      && Core(next, all) == Holding(Core(r, all), op) && Same(r, next) && Includes(next.ops, r.ops)
      && (op.oid !in r.ops ==> Talks(env, r, op, Meets(i, r, op).rotates))
      && (Sound(BasisOf(r)) && Licensed(env, r, op) ==> Sound(BasisOf(next)))
      && InletAfter(i, r, op) == InletAfter(i, Core(r, all), op)
  {
    var op := ops[0];
    assert op in ops;
    LearnFirst(env, r, all, ops);
    ReadyFirst(env, r, all, ops);
    MeetsCore(i, r, all, op);
    assert op.oid in r.ops <==> op.oid in Core(r, all).ops;
  }

  lemma {:induction false} OrderlySound(env: Env, i: Inlet, r: Replica, all: map<Oid, Op>, ops: seq<Op>)
    requires Paced(env, i, r, all, ops) && Orderly(i, Core(r, all), ops) && Sound(BasisOf(r))
    ensures Sound(BasisOf(IngestAll(env, r, ops).r))
    decreases |ops|
  {
    if ops != [] {
      var op, c := ops[0], Core(r, all);
      assert op in ops;
      PacedFirst(env, i, r, all, ops);
      MeetsCore(i, r, all, op);
      RosterOfCore(r, all, op);
      assert Licensed(env, r, op);
      assert Orderly(InletAfter(i, c, op), Holding(c, op), ops[1..]);
      OrderlySound(env, InletAfter(i, r, op), Ingest(env, r, op).r, all, ops[1..]);
    }
  }

  /** A publication made while not a member: it is stored and not authorised. */
  lemma Slips(env: Env, r: Replica, all: map<Oid, Op>, op: Op) returns (q: Op)
    requires Setting(env, r, all) && op.oid in all && all[op.oid] == op && op.deps <= r.ops.Keys && op.oid !in r.ops
    requires Talks(env, r, op, true) && r.me !in Members(BasisOf(Holding(r, op))) && Ingest(env, r, op).outcome != Full
    ensures q == Sign(Holding(r, op), Answering(env, r, op)[0]) && q.oid !in all
    ensures var next := Holding(r, op); Ingest(env, r, op).r == next.(ops := next.ops[q.oid := q])
    ensures Outlaw(Ingest(env, r, op).r, q)
  {
    var next, own := Holding(r, op), Answering(env, r, op);
    PublishesOne(env, r, all, op);
    q := Sign(next, own[0]);
    AddSigned(r.ops, op);
    SignedByStranger(next, own[0]);
  }

  lemma PublishesOne(env: Env, r: Replica, all: map<Oid, Op>, op: Op)
    requires Setting(env, r, all) && op.oid in all && all[op.oid] == op && op.deps <= r.ops.Keys && op.oid !in r.ops
    requires Talks(env, r, op, true) && Ingest(env, r, op).outcome != Full
    ensures var next, q := Holding(r, op), Sign(Holding(r, op), Answering(env, r, op)[0]);
      && Ingest(env, r, op).r == next.(ops := next.ops[q.oid := q])
      && q.body.Prekeys? && q.oid !in all && q.oid !in next.ops
  {
    StillAuthorised(env, r, all, op);
    ApplyPublishes(env, r, all, op);
    var own := Answering(env, r, op);
    assert own[1..] == [];
  }

  lemma {:induction false} PacedRuns(env: Env, i: Inlet, r: Replica, all: map<Oid, Op>, ops: seq<Op>)
    requires Paced(env, i, r, all, ops)
    ensures var x := IngestAll(env, r, ops).r; Includes(x.ops, r.ops) && OnTheWay(x, all) && Same(r, x)
    decreases |ops|
  {
    if ops != [] {
      PacedFirst(env, i, r, all, ops);
      var next := Ingest(env, r, ops[0]).r;
      PacedRuns(env, InletAfter(i, r, ops[0]), next, all, ops[1..]);
      IncludesTrans(r.ops, next.ops, IngestAll(env, r, ops).r.ops);
    }
  }

  lemma {:induction false} SlipsSomewhere(env: Env, i: Inlet, r: Replica, all: map<Oid, Op>, ops: seq<Op>)
    returns (q: Op)
    requires Paced(env, i, r, all, ops) && !Orderly(i, Core(r, all), ops)
    ensures Outlaw(IngestAll(env, r, ops).r, q)
    decreases |ops|
  {
    var op, c := ops[0], Core(r, all);
    assert op in ops;
    PacedFirst(env, i, r, all, ops);
    var next, j := Ingest(env, r, op).r, InletAfter(i, r, op);
    if Orderly(j, Holding(c, op), ops[1..]) {
      MeetsCore(i, r, all, op);
      RosterOfCore(r, all, op);
      q := Slips(env, r, all, op);
      PacedRuns(env, j, next, all, ops[1..]);
      OutlawPersists(next, IngestAll(env, r, ops).r, q);
    } else {
      q := SlipsSomewhere(env, j, next, all, ops[1..]);
    }
  }

  /** In every execution that follows the inlet, the requester's graph stays authorised exactly when the
    * delivery is in order: a condition on what both sides hold before the exchange. */
  lemma SoundExactly(env: Env, i: Inlet, a: Replica, b: Replica, order: seq<Oid>)
    requires Meeting(a, b, order) && Execution(env, i, a, b, order)
    ensures Sound(BasisOf(Leg(env, a, b, order).r)) <==> Orderly(i, a, Delivered(b, a.ops, order))
  {
    var all, ops := a.ops + b.ops, Delivered(b, a.ops, order);
    LegIsPaced(env, i, a, b, order);
    CoreOfPart(a, all);
    if Orderly(i, a, ops) {
      OrderlySound(env, i, a, all, ops);
    } else {
      var q := SlipsSomewhere(env, i, a, all, ops);
    }
  }

  lemma LegIsPaced(env: Env, i: Inlet, a: Replica, b: Replica, order: seq<Oid>)
    requires Meeting(a, b, order) && Execution(env, i, a, b, order)
    ensures Paced(env, i, a, a.ops + b.ops, Delivered(b, a.ops, order))
    ensures Leg(env, a, b, order).r == IngestAll(env, a, Delivered(b, a.ops, order)).r
    ensures a.ops.Keys <= (a.ops + b.ops).Keys && Sound(BasisOf(a))
  {
    UnionIsTarget(env, a, b);
    DeliveredFrom(a, b, order);
    HandleInOrder(env, a, a.ops + b.ops, Delivered(b, a.ops, order));
  }

  lemma DeliveredFrom(a: Replica, b: Replica, order: seq<Oid>)
    requires Meeting(a, b, order)
    ensures FromTarget(a.ops + b.ops, Delivered(b, a.ops, order)) && InOrder(a.ops.Keys, Delivered(b, a.ops, order))
  {
    DeliveredIs(b, a.ops, order);
  }

  /** An exchange leaves nothing over exactly when the delivery to the requester is in order. */
  lemma ExchangeExactly(env: Env, i: Inlet, a: Replica, b: Replica, order: seq<Oid>,
                        env': Env, order': seq<Oid>)
    requires Meeting(a, b, order) && Execution(env, i, a, b, order) && Steady(env', a, b) && Believes(env', env, a)
    requires IsTopological(Deps(Leg(env, a, b, order).r.ops), order')
    requires !Leg(env', b, Leg(env, a, b, order).r, order').full
    ensures var x := Leg(env, a, b, order).r;
      Complete(x, Leg(env', b, x, order').r) <==> Orderly(i, a, Delivered(b, a.ops, order))
  {
    CompleteExactly(env, a, b, order, env', order');
    SoundExactly(env, i, a, b, order);
  }

  // --------------------------------------------------------- every inlet has an execution to follow

  function Numbered(base: nat, n: nat): (d: Draft) {
    Draft(base + n, Prekeys(0, 0), 0)
  }

  /** A participant that publishes at the graph sizes `sizes`, and whenever it is asked to. */
  function Tuned(base: nat, sizes: set<nat>): (env: Env) {
    Env(_ => true, (n: nat) => n in sizes, (n: nat) => Numbered(base, n),
        (n: nat) => Reaction(if n in sizes then [Numbered(base, n)] else [], {}), _ => false)
  }

  ghost function After(base: nat, r: Replica, op: Op, rotates: bool): (x: Replica) {
    var next := Holding(r, op);
    var d := Numbered(base, |next.ops|);
    if rotates then next.(ops := next.ops[d.oid := Sign(next, d)]) else next
  }

  /** The graph sizes at which the inlet rotates. */
  ghost function Sizes(base: nat, i: Inlet, r: Replica, ops: seq<Op>): (sizes: set<nat>)
    decreases |ops|
  {
    if ops == [] then {}
    else if ops[0].oid in r.ops then Sizes(base, i, r, ops[1..])
    else
      var e := Meets(i, r, ops[0]);
      (if e.rotates then {|Holding(r, ops[0]).ops|}
       else {}) + Sizes(base, e.inlet, After(base, r, ops[0], e.rotates), ops[1..])
  }

  lemma AfterGrows(base: nat, r: Replica, op: Op, rotates: bool)
    requires op.oid !in r.ops
    ensures |Holding(r, op).ops| == |r.ops| + 1 <= |After(base, r, op, rotates).ops| <= |r.ops| + 2
  {
    var next := Holding(r, op);
    assert next.ops.Keys == r.ops.Keys + {op.oid};
    var d := Numbered(base, |next.ops|);
    assert next.ops[d.oid := Sign(next, d)].Keys == next.ops.Keys + {d.oid};
  }

  lemma {:induction false} SizesAbove(base: nat, i: Inlet, r: Replica, ops: seq<Op>)
    ensures forall n :: n in Sizes(base, i, r, ops) ==> n > |r.ops|
    decreases |ops|
  {
    if ops != [] {
      if ops[0].oid in r.ops {
        SizesAbove(base, i, r, ops[1..]);
      } else {
        var e := Meets(i, r, ops[0]);
        AfterGrows(base, r, ops[0], e.rotates);
        SizesAbove(base, e.inlet, After(base, r, ops[0], e.rotates), ops[1..]);
      }
    }
  }

  /** From the present size on, `sizes` are those at which the inlet rotates. */
  ghost predicate Fits(base: nat, sizes: set<nat>, i: Inlet, r: Replica, ops: seq<Op>) {
    forall n :: n > |r.ops| ==> (n in sizes <==> n in Sizes(base, i, r, ops))
  }

  lemma FitsFirst(base: nat, sizes: set<nat>, i: Inlet, r: Replica, ops: seq<Op>)
    requires Fits(base, sizes, i, r, ops) && ops != [] && ops[0].oid !in r.ops
    ensures var e := Meets(i, r, ops[0]);
      && (|Holding(r, ops[0]).ops| in sizes <==> e.rotates)
      && Fits(base, sizes, e.inlet, After(base, r, ops[0], e.rotates), ops[1..])
  {
    var e := Meets(i, r, ops[0]);
    var rest := Sizes(base, e.inlet, After(base, r, ops[0], e.rotates), ops[1..]);
    AfterGrows(base, r, ops[0], e.rotates);
    SizesAbove(base, e.inlet, After(base, r, ops[0], e.rotates), ops[1..]);
    assert Sizes(base, i, r, ops) == (if e.rotates then {|r.ops| + 1} else {}) + rest;
    assert |r.ops| + 1 in sizes <==> |r.ops| + 1 in Sizes(base, i, r, ops);
  }

  /** Publications carry identifiers below the next number. */
  ghost predicate BelowNext(base: nat, r: Replica, all: map<Oid, Op>) {
    forall o :: o in r.ops && o !in all ==> o < base + |r.ops| + 1
  }

  lemma TunedAnswers(base: nat, sizes: set<nat>, i: Inlet, r: Replica, op: Op)
    requires |Holding(r, op).ops| in sizes <==> Meets(i, r, op).rotates
    ensures Answering(Tuned(base, sizes), r, op)
         == if Meets(i, r, op).rotates then [Numbered(base, |Holding(r, op).ops|)] else []
  {
  }

  lemma TunedIsQuiet(base: nat, sizes: set<nat>, all: map<Oid, Op>, guilty: set<Id>)
    requires forall o :: o in all ==> o < base
    ensures Quiet(Tuned(base, sizes), all, guilty)
  {
  }

  lemma TunedPublish(base: nat, r: Replica, all: map<Oid, Op>, op: Op, rotates: bool)
    requires |r.ops| + 2 <= MAX_OPS && (forall o :: o in all ==> o < base) && BelowNext(base, r, all)
    requires op.oid in all && op.oid !in r.ops
    ensures var next, d := Holding(r, op), Numbered(base, |Holding(r, op).ops|);
      && Publish(next, if rotates then [d] else []) == Ingested(Applied, After(base, r, op, rotates))
      && d.oid !in next.ops && BelowNext(base, After(base, r, op, rotates), all)
  {
    var next, d := Holding(r, op), Numbered(base, |Holding(r, op).ops|);
    AfterGrows(base, r, op, rotates);
    assert d.oid !in next.ops;
    assert [d][1..] == [];
  }

  lemma TunedStep(base: nat, sizes: set<nat>, i: Inlet, r: Replica, all: map<Oid, Op>, op: Op)
    requires Setting(Tuned(base, sizes), r, all) && BelowNext(base, r, all) && |r.ops| + 2 <= MAX_OPS
    requires (forall o :: o in all ==> o < base) && op.oid in all && all[op.oid] == op && op.deps <= r.ops.Keys
    requires op.oid !in r.ops && (|Holding(r, op).ops| in sizes <==> Meets(i, r, op).rotates)
    ensures var e, x := Meets(i, r, op), Ingest(Tuned(base, sizes), r, op);
      && x.outcome != Full && x.r == After(base, r, op, e.rotates) && BelowNext(base, x.r, all)
      && Talks(Tuned(base, sizes), r, op, e.rotates) && op.oid in x.r.ops
  {
    var env, e := Tuned(base, sizes), Meets(i, r, op);
    TunedApplies(env, r, all, op);
    TunedAnswers(base, sizes, i, r, op);
    TunedPublish(base, r, all, op, e.rotates);
  }

  lemma TunedApplies(env: Env, r: Replica, all: map<Oid, Op>, op: Op)
    requires Setting(env, r, all) && |r.ops| < MAX_OPS
    requires op.oid in all && all[op.oid] == op && op.deps <= r.ops.Keys && op.oid !in r.ops
    ensures Ingest(env, r, op) == Publish(Holding(r, op), Answering(env, r, op))
  {
    StillAuthorised(env, r, all, op);
    ApplyPublishes(env, r, all, op);
  }

  ghost predicate Roomy(base: nat, r: Replica, all: map<Oid, Op>, ops: seq<Op>) {
    BelowNext(base, r, all) && |r.ops| + 2 * |ops| <= MAX_OPS && forall o :: o in all ==> o < base
  }

  lemma {:induction false} TunedFollows(base: nat, sizes: set<nat>, i: Inlet, r: Replica, all: map<Oid, Op>,
                                        ops: seq<Op>)
    requires Learning(Tuned(base, sizes), r, all, ops) && Roomy(base, r, all, ops) && Fits(base, sizes, i, r, ops)
    ensures Follows(Tuned(base, sizes), i, r, ops) && !IngestAll(Tuned(base, sizes), r, ops).full
    decreases |ops|
  {
    if ops != [] {
      var env, op := Tuned(base, sizes), ops[0];
      assert op in ops;
      LearnFirst(env, r, all, ops);
      if op.oid in r.ops {
        KnownAlready(env, r, op);
        TunedFollows(base, sizes, i, r, all, ops[1..]);
      } else {
        var e := Meets(i, r, op);
        FitsFirst(base, sizes, i, r, ops);
        AfterGrows(base, r, op, e.rotates);
        TunedStep(base, sizes, i, r, all, op);
        TunedFollows(base, sizes, e.inlet, After(base, r, op, e.rotates), all, ops[1..]);
      }
    }
  }

  /** Every operation of both graphs carries the session of the conference. */
  ghost predicate OneSession(a: Replica, b: Replica) {
    forall o :: o in a.ops + b.ops ==> (a.ops + b.ops)[o].sid == a.sid
  }

  lemma Bounded(all: map<Oid, Op>) returns (base: nat)
    ensures forall o :: o in all ==> o < base
  {
    var ids := map o | o in all :: o;
    base := RankBound(ids);
    assert forall o :: o in all ==> o in ids && ids[o] == o;
  }

  /** Whatever the requester's inlet, some execution of the exchange follows it. */
  lemma SomeRunFollows(i: Inlet, a: Replica, b: Replica, order: seq<Oid>) returns (env: Env)
    requires Meeting(a, b, order) && OneSession(a, b) && |a.ops| + 2 * |Delivered(b, a.ops, order)| <= MAX_OPS
    ensures Execution(env, i, a, b, order)
  {
    var all, ops := a.ops + b.ops, Delivered(b, a.ops, order);
    var base := Bounded(all);
    var sizes := Sizes(base, i, a, ops);
    env := Tuned(base, sizes);
    TunedSetting(base, sizes, a, b, order);
    TunedFollows(base, sizes, i, a, all, ops);
    HandleInOrder(env, a, all, ops);
  }

  lemma TunedSetting(base: nat, sizes: set<nat>, a: Replica, b: Replica, order: seq<Oid>)
    requires Meeting(a, b, order) && OneSession(a, b) && forall o :: o in a.ops + b.ops ==> o < base
    ensures Steady(Tuned(base, sizes), a, b) && a.pending == []
    ensures Learning(Tuned(base, sizes), a, a.ops + b.ops, Delivered(b, a.ops, order))
    ensures BelowNext(base, a, a.ops + b.ops)
  {
    TunedIsSteady(base, sizes, a, b);
    UnionIsTarget(Tuned(base, sizes), a, b);
    DeliveredFrom(a, b, order);
    NothingForeign(base, Tuned(base, sizes), a, a.ops + b.ops);
  }

  lemma TunedIsSteady(base: nat, sizes: set<nat>, a: Replica, b: Replica)
    requires OneSession(a, b) && forall o :: o in a.ops + b.ops ==> o < base
    ensures Steady(Tuned(base, sizes), a, b)
  {
    TunedIsQuiet(base, sizes, a.ops + b.ops, a.guilty);
  }

  lemma NothingForeign(base: nat, env: Env, a: Replica, all: map<Oid, Op>)
    requires a.ops.Keys <= all.Keys
    ensures Drafted(env, a, all) && BelowNext(base, a, all)
  {
  }

  // ------------------------------------------------------------------------ a publication that sticks

  /** The first two operations are new and each makes the requester rotate, the first while it is not a
    * member. */
  ghost predicate RotatesTwice(i: Inlet, r: Replica, ops: seq<Op>) {
    && |ops| >= 2 && ops[0].oid !in r.ops && ops[1].oid !in Holding(r, ops[0]).ops
    && Meets(i, r, ops[0]).rotates && r.me !in Members(BasisOf(Holding(r, ops[0])))
    && Meets(Meets(i, r, ops[0]).inlet, Holding(r, ops[0]), ops[1]).rotates
  }

  /** Then the second publication names the first, which is not authorised. */
  lemma SlipsTwice(env: Env, i: Inlet, r: Replica, all: map<Oid, Op>, ops: seq<Op>) returns (q: Op, p: Op)
    requires Paced(env, i, r, all, ops) && r.ops.Keys <= all.Keys && RotatesTwice(i, r, ops)
    ensures Chained(IngestAll(env, r, ops).r, q, p) && q.oid !in all && p.oid !in all
  {
    var next := Ingest(env, r, ops[0]).r;
    assert ops[0] in ops && ops[1] in ops && ops[1..][0] == ops[1];
    PacedFirst(env, i, r, all, ops);
    CoreOfPart(r, all);
    q := Slips(env, r, all, ops[0]);
    MeetsCore(InletAfter(i, r, ops[0]), next, all, ops[1]);
    p := SlipsOn(env, InletAfter(i, r, ops[0]), Holding(r, ops[0]), next, all, q, ops[1..]);
  }

  lemma SlipsOn(env: Env, i: Inlet, held: Replica, r: Replica, all: map<Oid, Op>, q: Op, ops: seq<Op>) returns (p: Op)
    requires Paced(env, i, r, all, ops) && ops != [] && held.ops.Keys <= all.Keys && Outlaw(r, q) && q.oid !in all
    requires r == held.(ops := held.ops[q.oid := q]) && q.deps <= held.ops.Keys
    requires ops[0].oid !in r.ops && Meets(i, r, ops[0]).rotates
    ensures Chained(IngestAll(env, r, ops).r, q, p) && p.oid !in all
  {
    assert ops[0] in ops;
    PacedFirst(env, i, r, all, ops);
    p := SecondPublication(env, held, r, all, q, ops[0]);
    PacedRuns(env, i, r, all, ops);
    PacedRuns(env, InletAfter(i, r, ops[0]), Ingest(env, r, ops[0]).r, all, ops[1..]);
    OutlawPersists(r, IngestAll(env, r, ops).r, q);
  }

  lemma SecondPublication(env: Env, held: Replica, r: Replica, all: map<Oid, Op>, q: Op, op: Op) returns (p: Op)
    requires held.ops.Keys <= all.Keys && Setting(env, r, all) && q.oid !in all
    requires r == held.(ops := held.ops[q.oid := q]) && q.deps <= held.ops.Keys && q.body.Prekeys?
    requires op.oid in all && all[op.oid] == op && op.oid !in r.ops && op.deps <= r.ops.Keys
    requires Talks(env, r, op, true) && Ingest(env, r, op).outcome != Full
    ensures var j := Ingest(env, r, op).r; p.oid in j.ops && j.ops[p.oid] == p && q.oid in p.deps && p.oid !in all
  {
    PublishesOne(env, r, all, op);
    p := Sign(Holding(r, op), Answering(env, r, op)[0]);
    StillAHead(held, r, all, q, op);
  }

  lemma StillAHead(held: Replica, r: Replica, all: map<Oid, Op>, q: Op, op: Op)
    requires held.ops.Keys <= all.Keys && Signed(HistoryOf(all)) && OnTheWay(r, all) && q.oid !in all
    requires r == held.(ops := held.ops[q.oid := q]) && q.deps <= held.ops.Keys
    requires op.oid in all && all[op.oid] == op && op.oid !in r.ops
    ensures q.oid in Heads(Deps(Holding(r, op).ops))
  {
    var h := Holding(r, op);
    forall c | c in h.ops ensures q.oid !in Deps(h.ops)[c] {
      if c != q.oid {
        assert h.ops[c] == all[c] && Deps(all)[c] == all[c].deps;
      }
    }
  }
}
