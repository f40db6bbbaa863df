/** A full anti-entropy exchange: what both sides hold afterwards, and exactly when nothing is left over
  * (crates/cfr-core/src/member.rs, the `Sync` and `Deliver` arms of `handle`). */
module Exchange {
  import opened Ops
  import opened Graph
  import opened Membership
  import opened Frontier
  import opened DagModule
  import opened Prekey
  import opened Topological
  import opened Replica
  import opened Convergence
  import opened Sync

  // ------------------------------------------------------------- publications made while learning

  /** Operations that can make their receiver publish prekeys. */
  predicate Stirs(me: Id, op: Op) {
    match op.body
    case Add(who) => who != me
    case PrekeyRequest(targets) => me in targets
    case Contrib(_, _, _, slices, _) => SliceFor(me, slices).Some?
    case _ => false
  }

  ghost predicate IsDraft(env: Env, d: Draft) {
    (exists n :: env.rotation(n) == d) || (exists n :: d in env.onContrib(n).own)
  }

  /** `op` is a draft of `env` signed by `r`. */
  ghost predicate Signs(env: Env, r: Replica, op: Op) {
    op.sid == r.sid && op.author == r.me && IsDraft(env, Draft(op.oid, op.body, op.sig))
  }

  /** Whatever is not in the target is an own publication. */
  ghost predicate Drafted(env: Env, r: Replica, all: map<Oid, Op>) {
    forall o :: o in r.ops && o !in all ==> Signs(env, r, r.ops[o])
  }

  /** The part of the graph that belongs to the target. */
  ghost function Core(r: Replica, all: map<Oid, Op>): (c: Replica) {
    r.(ops := map o | o in r.ops && o in all :: r.ops[o])
  }

  lemma CoreMembers(r: Replica, all: map<Oid, Op>)
    requires Signed(HistoryOf(all)) && OnTheWay(r, all)
    ensures Signed(HistoryOf(Core(r, all).ops)) && Members(BasisOf(r)) == Members(BasisOf(Core(r, all)))
  {
    var keep := r.ops.Keys * all.Keys;
    var c := Core(r, all);
    CoreIsClosed(r, all);
    InducedIsPart(HistoryOf(r.ops), keep);
    assert c.ops == Induced(HistoryOf(r.ops), keep).ops;
    assert Deps(c.ops) == Induced(HistoryOf(r.ops), keep).parents;
    PublicationsAreInvisible(r, c.ops);
  }

  lemma CoreIsClosed(r: Replica, all: map<Oid, Op>)
    requires Signed(HistoryOf(all)) && OnTheWay(r, all)
    ensures DownClosed(Deps(r.ops), r.ops.Keys * all.Keys)
  {
    var keep := r.ops.Keys * all.Keys;
    forall o, p | o in keep && p in Deps(r.ops)[o] ensures p in keep {
      assert Deps(all)[o] == Deps(r.ops)[o];
    }
  }

  /** `s` is `r` with publications added that the target does not know. */
  ghost predicate Grew(r: Replica, s: Replica, all: map<Oid, Op>) {
    && s == r.(ops := s.ops)
    && (forall o :: o in r.ops ==> o in s.ops && s.ops[o] == r.ops[o])
    && (forall o :: o in s.ops && o !in r.ops ==> o !in all)
  }

  lemma GrewCore(r: Replica, s: Replica, all: map<Oid, Op>)
    requires Grew(r, s, all)
    ensures Core(s, all) == Core(r, all)
  {
    assert Core(s, all).ops == Core(r, all).ops;
  }

  ghost predicate OwnDrafts(env: Env, all: map<Oid, Op>, own: seq<Draft>) {
    forall i :: 0 <= i < |own| ==> QuietDraft(all, own[i]) && IsDraft(env, own[i])
  }

  lemma SignMore(env: Env, r: Replica, all: map<Oid, Op>, d: Draft)
    requires OnTheWay(r, all) && Drafted(env, r, all) && QuietDraft(all, d) && IsDraft(env, d) && d.oid !in r.ops
    ensures var next := r.(ops := r.ops[d.oid := Sign(r, d)]);
      OnTheWay(next, all) && Drafted(env, next, all) && Grew(r, next, all)
  {
    AddSigned(r.ops, Sign(r, d));
  }

  lemma SignKeepsMembers(r: Replica, d: Draft)
    requires Signed(HistoryOf(r.ops)) && d.oid !in r.ops && d.body.Prekeys?
    ensures Members(BasisOf(r.(ops := r.ops[d.oid := Sign(r, d)]))) == Members(BasisOf(r))
  {
    var next := r.(ops := r.ops[d.oid := Sign(r, d)]);
    AddSigned(r.ops, Sign(r, d));
    PublicationsAreInvisible(next, r.ops);
  }

  lemma {:induction false} PublishMore(env: Env, r: Replica, all: map<Oid, Op>, own: seq<Draft>)
    requires OnTheWay(r, all) && Drafted(env, r, all) && OwnDrafts(env, all, own)
    ensures var x := Publish(r, own).r;
      && Drafted(env, x, all) && Grew(r, x, all)
      && (Sound(BasisOf(r)) && (own != [] ==> r.me in Members(BasisOf(r))) ==> Sound(BasisOf(x)))
    decreases |own|
  {
    if own != [] && |r.ops| < MAX_OPS {
      var d := own[0];
      var next := if d.oid in r.ops then r else r.(ops := r.ops[d.oid := Sign(r, d)]);
      if d.oid !in r.ops {
        SignMore(env, r, all, d);
        SignKeepsMembers(r, d);
        if Sound(BasisOf(r)) && r.me in Members(BasisOf(r)) {
          SignedByMember(r, d);
        }
      }
      PublishMore(env, next, all, own[1..]);
    }
  }

  lemma ReactionDrafts(env: Env, me: Id, n: nat, op: Op, all: map<Oid, Op>, guilty: set<Id>)
    requires Quiet(env, all, guilty) && op.oid in all && all[op.oid] == op
    ensures var x := React(env, me, n, op);
      OwnDrafts(env, all, x.own) && guilty + x.blamed == guilty && (x.own != [] ==> Stirs(me, op))
  {
    var x := React(env, me, n, op);
    forall i | 0 <= i < |x.own| ensures QuietDraft(all, x.own[i]) && IsDraft(env, x.own[i]) {
      if op.body.Contrib? {
        assert x.own[i] in env.onContrib(n).own;
      } else {
        assert x.own[i] == env.rotation(n);
      }
    }
  }

  // ------------------------------------------------------------------- learning one operation

  ghost function Holding(r: Replica, op: Op): (s: Replica) {
    if op.oid in r.ops then r else r.(ops := r.ops[op.oid := op])
  }

  /** Storing an operation of the target keeps every operation authorised. */
  lemma StoreSound(env: Env, r: Replica, all: map<Oid, Op>, op: Op)
    requires Target(env, r, all) && OnTheWay(r, all) && Sound(BasisOf(r))
    requires op.oid in all && all[op.oid] == op && op.deps <= r.ops.Keys && op.oid !in r.ops
    ensures Sound(BasisOf(Holding(r, op)))
  {
    var t := Basis(HistoryOf(all), r.policy, r.guilty);
    var u := Holding(r, op).ops;
    AddSigned(r.ops, op);
    SoundHasOneFounder(t);
    StoreFounders(all, r, op);
    StoreCompatible(r, all, op);
    TargetAuthorised(t, BasisOf(r).(h := HistoryOf(u)), op);
    GrowSound(BasisOf(r), u, op);
  }

  lemma StoreFounders(all: map<Oid, Op>, r: Replica, op: Op)
    requires OneFounder(all) && OnTheWay(r, all) && op.oid in all && all[op.oid] == op
    ensures OneFounder(Holding(r, op).ops)
  {
    FoundersFrom(all, Holding(r, op).ops);
  }

  lemma StoreCompatible(r: Replica, all: map<Oid, Op>, op: Op)
    requires OnTheWay(r, all) && op.oid in all && all[op.oid] == op
    ensures Compatible(HistoryOf(all), HistoryOf(Holding(r, op).ops))
  {
  }

  lemma TargetAuthorised(t: Basis, b: Basis, op: Op)
    requires Signed(t.h) && Signed(b.h) && Compatible(t.h, b.h) && OneFounder(b.h.ops)
    requires t.policy == b.policy && t.guilty == b.guilty && Authorised(t, op)
    requires op.oid in t.h.ops && t.h.ops[op.oid] == op && op.oid in b.h.ops && b.h.ops[op.oid] == op
    ensures Authorised(b, op)
  {
    assert t.h.parents[op.oid] == op.deps && b.h.parents[op.oid] == op.deps;
    VerdictIsStable(t, b.h, op);
    VerdictIsStable(b, t.h, op);
  }

  /** If `op` is new and can make `r` publish, `r.me` is a member of the graph it then holds. */
  ghost predicate AsMember(r: Replica, op: Op) {
    op.oid !in r.ops && Stirs(r.me, op) ==> r.me in Members(BasisOf(Holding(r, op)))
  }

  /** If `op` is new and does make `r` publish, `r.me` is a member of the graph it then holds. */
  ghost predicate Licensed(env: Env, r: Replica, op: Op) {
    op.oid !in r.ops && Answering(env, r, op) != [] ==> r.me in Members(BasisOf(Holding(r, op)))
  }

  /** The roster after storing `op` is the one the target's part of the graph gives. */
  lemma RosterOfCore(r: Replica, all: map<Oid, Op>, op: Op)
    requires Signed(HistoryOf(all)) && OnTheWay(r, all) && op.oid in all && all[op.oid] == op && op.deps <= r.ops.Keys
    ensures Members(BasisOf(Holding(r, op))) == Members(BasisOf(Holding(Core(r, all), op)))
    ensures Signed(HistoryOf(Holding(r, op).ops))
  {
    if op.oid !in r.ops {
      AddSigned(r.ops, op);
    }
    StoreCore(r, all, op);
    CoreMembers(Holding(r, op), all);
  }

  lemma MemberIsLicensed(env: Env, r: Replica, all: map<Oid, Op>, op: Op)
    requires Setting(env, r, all) && op.oid in all && all[op.oid] == op && op.deps <= r.ops.Keys
    requires AsMember(Core(r, all), op)
    ensures Licensed(env, r, op)
  {
    RosterOfCore(r, all, op);
    ReactionDrafts(env, r.me, |Holding(r, op).ops|, op, all, r.guilty);
  }

  lemma StoreCore(r: Replica, all: map<Oid, Op>, op: Op)
    requires op.oid in all && all[op.oid] == op
    ensures Core(Holding(r, op), all) == Holding(Core(r, all), op)
  {
    assert Core(Holding(r, op), all).ops == Holding(Core(r, all), op).ops;
  }

  ghost predicate Includes(s: map<Oid, Op>, r: map<Oid, Op>) {
    forall o :: o in r ==> o in s && s[o] == r[o]
  }

  /** What learning leaves behind: own publications, everything held before. */
  ghost predicate Learned(env: Env, r: Replica, all: map<Oid, Op>, x: Replica) {
    Drafted(env, x, all) && Includes(x.ops, r.ops)
  }

  lemma KnownAlready(env: Env, r: Replica, op: Op)
    requires op.oid in r.ops
    ensures Ingest(env, r, op).r == r && Includes(r.ops, r.ops)
  {
  }

  lemma IngestApplies(env: Env, r: Replica, all: map<Oid, Op>, op: Op)
    requires Setting(env, r, all) && op.oid in all && all[op.oid] == op && op.deps <= r.ops.Keys && op.oid !in r.ops
    ensures Ingest(env, r, op).outcome == Full || Ingest(env, r, op).r == Apply(env, r, op).r
  {
    StillAuthorised(env, r, all, op);
  }

  lemma CoreOfPart(a: Replica, all: map<Oid, Op>)
    requires a.ops.Keys <= all.Keys
    ensures Core(a, all) == a
  {
    assert Core(a, all).ops == a.ops;
  }

  lemma LearnOne(env: Env, r: Replica, all: map<Oid, Op>, op: Op)
    requires Setting(env, r, all) && Drafted(env, r, all)
    requires op.oid in all && all[op.oid] == op && op.deps <= r.ops.Keys
    ensures var x := Ingest(env, r, op);
      x.outcome != Full ==>
        && Learned(env, r, all, x.r) && Core(x.r, all) == Holding(Core(r, all), op)
        && (Sound(BasisOf(r)) && Licensed(env, r, op) ==> Sound(BasisOf(x.r)))
  {
    StoreCore(r, all, op);
    if op.oid in r.ops {
      KnownAlready(env, r, op);
    } else {
      IngestApplies(env, r, all, op);
      LearnNew(env, r, all, op);
      if Sound(BasisOf(r)) && Licensed(env, r, op) {
        LearnSound(env, r, all, op);
      }
    }
  }

  lemma StoreOnTheWay(env: Env, r: Replica, all: map<Oid, Op>, op: Op)
    requires OnTheWay(r, all) && Drafted(env, r, all)
    requires op.oid in all && all[op.oid] == op && op.deps <= r.ops.Keys && op.oid !in r.ops
    ensures OnTheWay(Holding(r, op), all) && Drafted(env, Holding(r, op), all)
  {
    AddSigned(r.ops, op);
  }

  ghost function Answering(env: Env, r: Replica, op: Op): (own: seq<Draft>) {
    React(env, r.me, |Holding(r, op).ops|, op).own
  }

  lemma ApplyPublishes(env: Env, r: Replica, all: map<Oid, Op>, op: Op)
    requires Quiet(env, all, r.guilty) && op.oid in all && all[op.oid] == op && op.oid !in r.ops
    ensures Apply(env, r, op) == Publish(Holding(r, op), Answering(env, r, op))
    ensures OwnDrafts(env, all, Answering(env, r, op)) && (Answering(env, r, op) != [] ==> Stirs(r.me, op))
  {
    var next := Holding(r, op);
    var reaction := React(env, r.me, |next.ops|, op);
    ReactionDrafts(env, r.me, |next.ops|, op, all, r.guilty);
    assert next.(guilty := next.guilty + reaction.blamed) == next;
  }

  lemma GrewLearned(env: Env, r: Replica, all: map<Oid, Op>, op: Op, x: Replica)
    requires Grew(Holding(r, op), x, all) && Drafted(env, x, all)
    ensures Learned(env, r, all, x)
  {
  }

  lemma LearnNew(env: Env, r: Replica, all: map<Oid, Op>, op: Op)
    requires Quiet(env, all, r.guilty) && OnTheWay(r, all) && Drafted(env, r, all)
    requires op.oid in all && all[op.oid] == op && op.deps <= r.ops.Keys && op.oid !in r.ops
    ensures var x := Apply(env, r, op).r; Learned(env, r, all, x) && Core(x, all) == Core(Holding(r, op), all)
  {
    StoreOnTheWay(env, r, all, op);
    ApplyPublishes(env, r, all, op);
    var next, own := Holding(r, op), Answering(env, r, op);
    PublishMore(env, next, all, own);
    GrewCore(next, Publish(next, own).r, all);
    GrewLearned(env, r, all, op, Publish(next, own).r);
  }

  lemma LearnSound(env: Env, r: Replica, all: map<Oid, Op>, op: Op)
    requires Setting(env, r, all) && Drafted(env, r, all) && Sound(BasisOf(r)) && Licensed(env, r, op)
    requires op.oid in all && all[op.oid] == op && op.deps <= r.ops.Keys && op.oid !in r.ops
    ensures Sound(BasisOf(Apply(env, r, op).r))
  {
    StoreOnTheWay(env, r, all, op);
    ApplyPublishes(env, r, all, op);
    StoreSound(env, r, all, op);
    PublishMore(env, Holding(r, op), all, Answering(env, r, op));
  }

  // ------------------------------------------------------------------------- learning a batch

  /** Whenever an arriving operation can make `r` publish, `r.me` is a member of the graph it then holds. */
  ghost predicate StaysMember(r: Replica, ops: seq<Op>)
    decreases |ops|
  {
    ops != [] ==> AsMember(r, ops[0]) && StaysMember(Holding(r, ops[0]), ops[1..])
  }

  ghost predicate Learning(env: Env, r: Replica, all: map<Oid, Op>, ops: seq<Op>) {
    Setting(env, r, all) && Drafted(env, r, all) && FromTarget(all, ops) && InOrder(r.ops.Keys, ops)
  }

  /** One step of in-order learning; `Core` follows the delivered operations. */
  lemma LearnFirst(env: Env, r: Replica, all: map<Oid, Op>, ops: seq<Op>)
    requires Learning(env, r, all, ops) && ops != []
    ensures var i, whole := Ingest(env, r, ops[0]), IngestAll(env, r, ops);
      && (i.outcome == Full ==> whole.full)
      && (i.outcome != Full ==>
            && whole == IngestAll(env, i.r, ops[1..]) && Learning(env, i.r, all, ops[1..]) && Same(r, i.r)
            && Includes(i.r.ops, r.ops) && Core(i.r, all) == Holding(Core(r, all), ops[0])
            && (Sound(BasisOf(r)) && Licensed(env, r, ops[0]) ==> Sound(BasisOf(i.r))))
  {
    assert ops[0] in ops;
    ReadyFirst(env, r, all, ops);
    IngestFirst(env, r, ops);
    LearnOne(env, r, all, ops[0]);
  }

  lemma {:induction false} LearnAll(env: Env, r: Replica, all: map<Oid, Op>, ops: seq<Op>)
    requires Learning(env, r, all, ops)
    ensures var x := IngestAll(env, r, ops); !x.full ==> Learned(env, r, all, x.r)
    decreases |ops|
  {
    if ops != [] {
      LearnFirst(env, r, all, ops);
      var i := Ingest(env, r, ops[0]);
      if i.outcome != Full {
        LearnAll(env, i.r, all, ops[1..]);
        IncludesTrans(r.ops, i.r.ops, IngestAll(env, r, ops).r.ops);
      }
    }
  }

  lemma IncludesTrans(a: map<Oid, Op>, b: map<Oid, Op>, c: map<Oid, Op>)
    requires Includes(b, a)
    ensures Includes(c, b) ==> Includes(c, a)
  {
  }

  /** A participant that stays a member while it learns keeps its graph authorised. */
  lemma {:induction false} LearnAllSound(env: Env, r: Replica, all: map<Oid, Op>, ops: seq<Op>)
    requires Learning(env, r, all, ops) && Sound(BasisOf(r)) && StaysMember(Core(r, all), ops)
    ensures var x := IngestAll(env, r, ops); !x.full ==> Sound(BasisOf(x.r))
    decreases |ops|
  {
    if ops != [] {
      LearnFirst(env, r, all, ops);
      assert ops[0] in ops;
      MemberIsLicensed(env, r, all, ops[0]);
      var i := Ingest(env, r, ops[0]);
      if i.outcome != Full {
        LearnAllSound(env, i.r, all, ops[1..]);
      }
    }
  }

  /** In-order delivery to an empty buffer is one pass. */
  lemma HandleInOrder(env: Env, r: Replica, all: map<Oid, Op>, ops: seq<Op>)
    requires Setting(env, r, all) && FromTarget(all, ops) && InOrder(r.ops.Keys, ops) && r.pending == []
    ensures Handle(env, r, Deliver(ops)).full <==> IngestAll(env, r, ops).full
    ensures !IngestAll(env, r, ops).full ==> Handle(env, r, Deliver(ops)).r == IngestAll(env, r, ops).r
  {
    InOrderNeverParks(env, r, all, ops);
  }

  // --------------------------------------------------- answers that also carry publications

  /** Operations of the target, and publications it does not know. */
  ghost predicate Mixed(all: map<Oid, Op>, ops: seq<Op>) {
    forall op :: op in ops ==> if op.oid in all then all[op.oid] == op else op.body.Prekeys?
  }

  ghost predicate Foreign(all: map<Oid, Op>, ops: seq<Op>) {
    forall op :: op in ops ==> op.oid !in all && op.body.Prekeys?
  }

  /** What a receiver of such an answer keeps: the standing assumptions, and a buffer that holds
    * publications only. */
  ghost predicate Steadfast(env: Env, r: Replica, all: map<Oid, Op>, x: Replica) {
    && Setting(env, x, all) && Foreign(all, x.pending) && r.ops.Keys <= x.ops.Keys
    && x.sid == r.sid && x.me == r.me && x.policy == r.policy && x.guilty == r.guilty
  }

  /** A prekey publication is refused, parked or stored, and provokes nothing. */
  lemma PrekeysShape(env: Env, r: Replica, op: Op)
    requires op.body.Prekeys?
    ensures var x := Ingest(env, r, op).r;
      || x == r
      || (x == r.(pending := r.pending + [op]) && !(op.deps <= r.ops.Keys))
      || (x == Holding(r, op) && op.deps <= r.ops.Keys && op.oid !in r.ops)
  {
    assert r.guilty + {} == r.guilty;
  }

  lemma StoreForeign(env: Env, r: Replica, all: map<Oid, Op>, op: Op)
    requires Setting(env, r, all) && op.oid !in all && op.body.Prekeys? && op.deps <= r.ops.Keys && op.oid !in r.ops
    ensures Setting(env, Holding(r, op), all)
  {
    AddSigned(r.ops, op);
  }

  lemma ForeignOne(env: Env, r: Replica, all: map<Oid, Op>, op: Op)
    requires Setting(env, r, all) && Foreign(all, r.pending) && op.oid !in all && op.body.Prekeys?
    ensures Steadfast(env, r, all, Ingest(env, r, op).r)
  {
    PrekeysShape(env, r, op);
    if op.deps <= r.ops.Keys && op.oid !in r.ops {
      StoreForeign(env, r, all, op);
    } else {
      Repend(env, r, all, r.pending + [op]);
    }
  }

  lemma TargetOne(env: Env, r: Replica, all: map<Oid, Op>, op: Op)
    requires Setting(env, r, all) && Foreign(all, r.pending) && op.oid in all && all[op.oid] == op
    requires op.deps <= r.ops.Keys
    ensures var i := Ingest(env, r, op);
      Steadfast(env, r, all, i.r) && (i.outcome != Full ==> op.oid in i.r.ops)
  {
    IngestReady(env, r, all, op);
  }

  lemma IngestFirstState(env: Env, r: Replica, ops: seq<Op>)
    requires ops != []
    ensures var i, whole := Ingest(env, r, ops[0]), IngestAll(env, r, ops);
      var rest := IngestAll(env, i.r, ops[1..]);
      whole.r == rest.r && (whole.full <==> rest.full || i.outcome == Full)
  {
  }

  /** An operation of the target is never held up by a publication that was refused. */
  lemma TargetIsReady(all: map<Oid, Op>, have: set<Oid>, r: Replica, op: Op)
    requires Signed(HistoryOf(all)) && have * all.Keys <= r.ops.Keys
    requires op.oid in all && all[op.oid] == op && op.deps <= have
    ensures op.deps <= r.ops.Keys
  {
    assert Deps(all)[op.oid] == op.deps;
  }

  lemma {:induction false} IngestMixed(env: Env, r: Replica, all: map<Oid, Op>, have: set<Oid>, ops: seq<Op>)
    requires Setting(env, r, all) && Foreign(all, r.pending) && Mixed(all, ops) && InOrder(have, ops)
    requires have * all.Keys <= r.ops.Keys
    ensures var x := IngestAll(env, r, ops);
      !x.full ==> Steadfast(env, r, all, x.r) && forall op :: op in ops && op.oid in all ==> op.oid in x.r.ops
    decreases |ops|
  {
    if ops != [] {
      var op := ops[0];
      assert op in ops && ops == [op] + ops[1..];
      IngestFirstState(env, r, ops);
      if op.oid in all {
        TargetIsReady(all, have, r, op);
        TargetOne(env, r, all, op);
      } else {
        ForeignOne(env, r, all, op);
      }
      var i := Ingest(env, r, op);
      if i.outcome != Full {
        IngestMixed(env, i.r, all, have + {op.oid}, ops[1..]);
      }
    }
  }

  lemma {:induction false} PassForeign(env: Env, r: Replica, all: map<Oid, Op>, waiting: seq<Op>)
    requires Setting(env, r, all) && Foreign(all, r.pending) && Foreign(all, waiting)
    ensures var p := Pass(env, r, waiting); Steadfast(env, r, all, p.r) && Foreign(all, p.deferred)
    decreases |waiting|
  {
    if waiting != [] {
      var op := waiting[0];
      assert op in waiting && waiting == [op] + waiting[1..];
      if op.deps <= r.ops.Keys {
        ForeignOne(env, r, all, op);
        PassForeign(env, Ingest(env, r, op).r, all, waiting[1..]);
      } else {
        PassForeign(env, r, all, waiting[1..]);
      }
    }
  }

  lemma Repend(env: Env, r: Replica, all: map<Oid, Op>, waiting: seq<Op>)
    requires Setting(env, r, all) && Foreign(all, waiting)
    ensures Steadfast(env, r, all, r.(pending := waiting))
  {
  }

  lemma {:induction false} DrainForeign(env: Env, r: Replica, all: map<Oid, Op>, waiting: seq<Op>)
    requires Setting(env, r, all) && Foreign(all, r.pending) && Foreign(all, waiting)
    ensures Steadfast(env, r, all, Drain(env, r, waiting).r)
    decreases |waiting|
  {
    PassForeign(env, r, all, waiting);
    PassShrinks(env, r, waiting);
    var p := Pass(env, r, waiting);
    if p.progressed {
      DrainForeign(env, p.r, all, p.deferred);
      SteadfastTrans(env, r, all, p.r, Drain(env, r, waiting).r);
    } else {
      Repend(env, p.r, all, p.deferred);
      SteadfastTrans(env, r, all, p.r, Drain(env, r, waiting).r);
    }
  }

  lemma SteadfastTrans(env: Env, r: Replica, all: map<Oid, Op>, x: Replica, y: Replica)
    requires Steadfast(env, r, all, x) && Steadfast(env, x, all, y)
    ensures Steadfast(env, r, all, y)
  {
  }

  /** Publications that turn out not to be authorised hold up nothing but themselves. */
  lemma HandleMixed(env: Env, r: Replica, all: map<Oid, Op>, ops: seq<Op>)
    requires Setting(env, r, all) && r.pending == [] && Mixed(all, ops) && InOrder(r.ops.Keys, ops)
    ensures var x := Handle(env, r, Deliver(ops));
      !x.full ==> Steadfast(env, r, all, x.r) && forall op :: op in ops && op.oid in all ==> op.oid in x.r.ops
  {
    IngestMixed(env, r, all, r.ops.Keys, ops);
    var i := IngestAll(env, r, ops);
    if !i.full {
      DrainForeign(env, i.r.(pending := []), all, i.r.pending);
    }
  }

  // ------------------------------------------------------------------------------ the exchange

  /** `a` asks `b` with the heads of its graph and handles the answer. */
  ghost function Leg(env: Env, a: Replica, b: Replica, order: seq<Oid>): (x: Settled) {
    Handle(env, a, Deliver(AnswerSync(b, a.me, Heads(Deps(a.ops)), order).deliver))
  }

  /** The two sides have something to exchange and each serves the other: conditions on the two graphs. */
  ghost predicate Meeting(a: Replica, b: Replica, order: seq<Oid>) {
    && Peers(a, b) && a.pending == [] && b.pending == [] && IsTopological(Deps(b.ops), order)
    && a.me in Members(BasisOf(b)) && b.me in Members(BasisOf(a).(h := HistoryOf(a.ops + b.ops)))
  }

  /** `env` accepts the operations of both sides and reacts with prekey publications only. */
  ghost predicate Steady(env: Env, a: Replica, b: Replica) {
    AllGenuine(env, a.sid, a.ops + b.ops) && Quiet(env, a.ops + b.ops, a.guilty)
  }

  /** The other side finds genuine what `a` signs, and signs under other identifiers. */
  ghost predicate Believes(env': Env, env: Env, a: Replica) {
    && (forall op :: Signs(env, a, op) ==> env'.genuine(op))
    && (forall d, d' :: IsDraft(env, d) && IsDraft(env', d') ==> d.oid != d'.oid)
  }

  /** Nothing pending anywhere, and the second side has everything the first has. */
  predicate Complete(x: Replica, y: Replica) {
    x.pending == [] && y.pending == [] && x.ops.Keys <= y.ops.Keys
  }

  lemma UnionCommutes(a: map<Oid, Op>, b: map<Oid, Op>)
    requires Compatible(HistoryOf(a), HistoryOf(b))
    ensures a + b == b + a
  {
  }

  lemma FirstLeg(env: Env, a: Replica, b: Replica, order: seq<Oid>)
    requires Meeting(a, b, order) && Steady(env, a, b)
    ensures var x := Leg(env, a, b, order);
      !x.full ==>
        && x.r.pending == [] && Same(a, x.r) && OnTheWay(x.r, a.ops + b.ops) && (a.ops + b.ops).Keys <= x.r.ops.Keys
        && Drafted(env, x.r, a.ops + b.ops) && Includes(x.r.ops, a.ops)
        && (StaysMember(a, Delivered(b, a.ops, order)) ==> Sound(BasisOf(x.r)))
  {
    var all, ops := a.ops + b.ops, Delivered(b, a.ops, order);
    SyncTeaches(env, a, b, a.ops, order);
    UnionIsTarget(env, a, b);
    DeliveredIs(b, a.ops, order);
    FirstLegLearns(env, a, all, ops);
  }

  lemma FirstLegLearns(env: Env, a: Replica, all: map<Oid, Op>, ops: seq<Op>)
    requires Setting(env, a, all) && FromTarget(all, ops) && InOrder(a.ops.Keys, ops) && a.pending == []
    requires Sound(BasisOf(a)) && a.ops.Keys <= all.Keys
    ensures var x := Handle(env, a, Deliver(ops));
      !x.full ==>
        Drafted(env, x.r, all) && Includes(x.r.ops, a.ops) && (StaysMember(a, ops) ==> Sound(BasisOf(x.r)))
  {
    HandleInOrder(env, a, all, ops);
    LearnAll(env, a, all, ops);
    CoreOfPart(a, all);
    if StaysMember(a, ops) {
      LearnAllSound(env, a, all, ops);
    }
  }

  lemma Absorbed(b: map<Oid, Op>, x: map<Oid, Op>)
    requires b.Keys <= x.Keys && forall o :: o in b ==> x[o] == b[o]
    ensures b + x == x
  {
  }

  lemma PeersAfter(a: Replica, b: Replica, x: Replica)
    requires Peers(a, b) && Same(a, x) && b.ops.Keys <= x.ops.Keys && OnTheWay(x, a.ops + b.ops) && Sound(BasisOf(x))
    ensures Peers(b, x) && b.ops + x.ops == x.ops
  {
    var u := a.ops + b.ops;
    assert forall o :: o in b.ops ==> o in u && u[o] == b.ops[o];
    Absorbed(b.ops, x.ops);
    FoundersFrom(u, x.ops);
  }

  /** The publications of `a` are genuine and new to the other side. */
  lemma SteadyAfter(env: Env, env': Env, a: Replica, x: Replica, all: map<Oid, Op>)
    requires AllGenuine(env', a.sid, all) && Quiet(env', all, a.guilty) && Believes(env', env, a)
    requires Drafted(env, x, all) && x.sid == a.sid && x.me == a.me && OnTheWay(x, all)
    ensures AllGenuine(env', a.sid, x.ops) && Quiet(env', x.ops, a.guilty)
  {
    forall o | o in x.ops ensures x.ops[o].sid == a.sid && env'.genuine(x.ops[o]) {
      if o !in all {
        assert Signs(env, a, x.ops[o]);
      }
    }
    forall d | IsDraft(env', d) && QuietDraft(all, d) ensures QuietDraft(x.ops, d) {
      DraftsApart(env, env', a, x, all, d);
    }
    forall n ensures QuietDraft(x.ops, env'.rotation(n)) {
      assert IsDraft(env', env'.rotation(n));
    }
    forall n, i | 0 <= i < |env'.onContrib(n).own| ensures QuietDraft(x.ops, env'.onContrib(n).own[i]) {
      assert env'.onContrib(n).own[i] in env'.onContrib(n).own;
      assert IsDraft(env', env'.onContrib(n).own[i]);
    }
  }

  lemma DraftsApart(env: Env, env': Env, a: Replica, x: Replica, all: map<Oid, Op>, d: Draft)
    requires Believes(env', env, a) && Drafted(env, x, all) && IsDraft(env', d) && QuietDraft(all, d)
    requires OnTheWay(x, all)
    ensures QuietDraft(x.ops, d)
  {
    forall o | o in x.ops ensures o != d.oid {
      if o !in all {
        var op := x.ops[o];
        assert Signs(env, x, op) && op.oid == o;
        assert IsDraft(env, Draft(op.oid, op.body, op.sig));
      }
    }
  }

  /** The answer of `x` to `b`: the operations of both sides, and publications of `a`. */
  lemma SecondAnswer(a: Replica, b: Replica, x: Replica, order': seq<Oid>)
    requires Peers(a, b) && Same(a, x) && OnTheWay(x, a.ops + b.ops) && (a.ops + b.ops).Keys <= x.ops.Keys
    requires b.me in Members(BasisOf(a).(h := HistoryOf(a.ops + b.ops))) && IsTopological(Deps(x.ops), order')
    ensures var ops := AnswerSync(x, b.me, Heads(Deps(b.ops)), order').deliver;
      && ops == Delivered(x, b.ops, order') && InOrder(b.ops.Keys, ops) && Mixed(a.ops + b.ops, ops)
      && forall o :: o in x.ops && o !in b.ops ==> x.ops[o] in ops
    ensures Members(BasisOf(x)) == Members(BasisOf(a).(h := HistoryOf(a.ops + b.ops)))
    ensures Tips(HistoryOf(x.ops)) == Tips(HistoryOf(a.ops + b.ops))
  {
    var all := a.ops + b.ops;
    UnionSigned(a.ops, b.ops);
    PublicationsAreInvisible(x, all);
    CompatibleAfter(a, b, x);
    DeliveredIs(x, b.ops, order');
  }

  lemma CompatibleAfter(a: Replica, b: Replica, x: Replica)
    requires OnTheWay(x, a.ops + b.ops)
    ensures Compatible(HistoryOf(b.ops), HistoryOf(x.ops))
  {
    assert forall o :: o in b.ops ==> o in a.ops + b.ops && (a.ops + b.ops)[o] == b.ops[o];
  }

  /** The second leg, whatever `a` published: `b` ends with the union, and holds back publications only. */
  lemma SecondLeg(env': Env, a: Replica, b: Replica, x: Replica, order': seq<Oid>)
    requires Peers(a, b) && b.pending == [] && Steady(env', a, b)
    requires Same(a, x) && OnTheWay(x, a.ops + b.ops) && (a.ops + b.ops).Keys <= x.ops.Keys
    requires b.me in Members(BasisOf(a).(h := HistoryOf(a.ops + b.ops))) && IsTopological(Deps(x.ops), order')
    ensures var y := Leg(env', b, x, order');
      !y.full ==>
        && (a.ops + b.ops).Keys <= y.r.ops.Keys && (forall op :: op in y.r.pending ==> op.oid !in a.ops + b.ops)
        && Tips(HistoryOf(y.r.ops)) == Tips(HistoryOf(x.ops)) && Members(BasisOf(y.r)) == Members(BasisOf(x))
  {
    var all := a.ops + b.ops;
    UnionCommutes(a.ops, b.ops);
    UnionIsTarget(env', b, a);
    SecondAnswer(a, b, x, order');
    HandleMixed(env', b, all, Delivered(x, b.ops, order'));
    var y := Leg(env', b, x, order');
    if !y.full {
      HoldsUnion(a, b, x, y.r, Delivered(x, b.ops, order'));
      PublicationsAreInvisible(y.r, all);
    }
  }

  lemma HoldsUnion(a: Replica, b: Replica, x: Replica, y: Replica, ops: seq<Op>)
    requires OnTheWay(x, a.ops + b.ops) && (a.ops + b.ops).Keys <= x.ops.Keys && b.ops.Keys <= y.ops.Keys
    requires forall o :: o in x.ops && o !in b.ops ==> x.ops[o] in ops
    requires forall op :: op in ops && op.oid in a.ops + b.ops ==> op.oid in y.ops
    ensures (a.ops + b.ops).Keys <= y.ops.Keys
  {
    forall o | o in a.ops + b.ops ensures o in y.ops {
      if o !in b.ops {
        assert x.ops[o] in ops && x.ops[o].oid == o;
      }
    }
  }

  /** A full exchange: `a` learns from `b`, then `b` learns from `a`. Whatever is published on the way,
    * both end with the union of the two graphs and agree on the frontier and on the roster. If `a` stays
    * a member whenever what it learns can make it publish, nothing is left over. */
  lemma SyncConverges(env: Env, a: Replica, b: Replica, order: seq<Oid>, env': Env, order': seq<Oid>)
    requires Meeting(a, b, order) && Steady(env, a, b) && Steady(env', a, b) && !Leg(env, a, b, order).full
    requires IsTopological(Deps(Leg(env, a, b, order).r.ops), order')
    requires !Leg(env', b, Leg(env, a, b, order).r, order').full
    ensures var x := Leg(env, a, b, order).r;
      var y := Leg(env', b, x, order').r;
      && x.pending == [] && (forall op :: op in y.pending ==> op.oid !in a.ops + b.ops)
      && a.ops.Keys + b.ops.Keys <= x.ops.Keys && a.ops.Keys + b.ops.Keys <= y.ops.Keys
      && Tips(HistoryOf(x.ops)) == Tips(HistoryOf(y.ops)) && Members(BasisOf(x)) == Members(BasisOf(y))
      && (Believes(env', env, a) && StaysMember(a, Delivered(b, a.ops, order)) ==> Complete(x, y))
  {
    FirstLeg(env, a, b, order);
    var x := Leg(env, a, b, order).r;
    SecondLeg(env', a, b, x, order');
    if Believes(env', env, a) && StaysMember(a, Delivered(b, a.ops, order)) {
      SoundExchange(env, a, b, x, env', order');
    }
  }

  /** When the first side's graph is authorised throughout, the second takes all of it. */
  lemma SoundExchange(env: Env, a: Replica, b: Replica, x: Replica, env': Env, order': seq<Oid>)
    requires Peers(a, b) && b.pending == [] && Steady(env', a, b) && Believes(env', env, a)
    requires Same(a, x) && OnTheWay(x, a.ops + b.ops) && (a.ops + b.ops).Keys <= x.ops.Keys
    requires Drafted(env, x, a.ops + b.ops) && Sound(BasisOf(x)) && IsTopological(Deps(x.ops), order')
    requires b.me in Members(BasisOf(a).(h := HistoryOf(a.ops + b.ops))) && !Leg(env', b, x, order').full
    ensures Leg(env', b, x, order').r.pending == [] && x.ops.Keys <= Leg(env', b, x, order').r.ops.Keys
  {
    PeersAfter(a, b, x);
    SteadyAfter(env, env', a, x, a.ops + b.ops);
    SecondAnswer(a, b, x, order');
    SyncTeaches(env', b, x, b.ops, order');
  }
}
