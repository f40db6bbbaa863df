/** Anti-entropy by heads (crates/cfr-core/src/member.rs, the `Sync` and `Deliver` arms of `handle`). */
module Sync {
  import opened Base
  import opened Ops
  import opened Graph
  import opened Membership
  import opened DagModule
  import opened Topological
  import opened Replica
  import opened Convergence

  /** The answer to `Sync { from, heads }`. */
  datatype Answer = Answer(deliver: seq<Op>, reverse: Option<set<Oid>>)

  /** The operations of a dependency-first listing that are not already known to the peer. */
  function Lacking(ops: map<Oid, Op>, order: seq<Oid>, known: set<Oid>): (r: seq<Op>) {
    if order == [] then []
    else if order[0] in known || order[0] !in ops then Lacking(ops, order[1..], known)
    else [ops[order[0]]] + Lacking(ops, order[1..], known)
  }

  /** `order` is the result of the topological listing. Only members are served. */
  ghost function AnswerSync(b: Replica, from: Id, heads: set<Oid>, order: seq<Oid>): (x: Answer) {
    if from !in Members(BasisOf(b)) then Answer([], None)
    else Answer(
      Lacking(b.ops, order, Closure(Deps(b.ops), heads)),
      if heads <= b.ops.Keys then None else Some(Heads(Deps(b.ops))))
  }

  lemma {:induction false} LackingIs(ops: map<Oid, Op>, order: seq<Oid>, known: set<Oid>)
    requires forall o :: o in ops ==> ops[o].oid == o
    ensures forall op :: op in Lacking(ops, order, known) <==>
      op.oid in ops && ops[op.oid] == op && op.oid in order && op.oid !in known
  {
    if order != [] {
      LackingIs(ops, order[1..], known);
      assert order == [order[0]] + order[1..];
    }
  }

  /** What the responder believes the requester holds, the requester holds. */
  lemma HeadsDoNotOverclaim(h: History, k: History)
    requires Signed(h) && Signed(k) && Compatible(h, k)
    ensures Closure(k.parents, Heads(h.parents)) <= h.ops.Keys
  {
    var both := h.ops.Keys * k.ops.Keys;
    forall o, p | o in both && p in k.parents[o] ensures p in both {
      assert h.parents[o] == k.parents[o];
    }
    var s := Heads(h.parents);
    forall a | a in Closure(k.parents, s) ensures a in both {
      if a !in s {
        var g :| g in s && Precedes(k.parents, a, g);
        var n: nat :| n > 0 && Steps(k.parents, a, g, n);
        assert g in both;
        StepsStayInside(k.parents, both, a, g, n);
      }
    }
  }

  /** The reverse request is sent exactly when the requester holds something unknown here. */
  lemma ReverseExactly(h: History, k: History)
    requires Signed(h) && Signed(k) && Compatible(h, k)
    ensures Heads(h.parents) <= k.ops.Keys <==> h.ops.Keys <= k.ops.Keys
  {
    if Heads(h.parents) <= k.ops.Keys {
      HeadsImplyAll(h.parents);
      ClosureShared(h, k, Heads(h.parents));
    }
  }

  // ------------------------------------------------------------- the union of two graphs

  /** At most one identity founded the conference. */
  ghost predicate OneFounder(ops: map<Oid, Op>) {
    forall o, p :: o in ops && p in ops && Founding(ops[o]) && Founding(ops[p]) ==> ops[o].author == ops[p].author
  }

  lemma UnionSigned(a: map<Oid, Op>, b: map<Oid, Op>)
    requires Signed(HistoryOf(a)) && Signed(HistoryOf(b)) && Compatible(HistoryOf(a), HistoryOf(b))
    ensures Signed(HistoryOf(a + b))
    ensures Compatible(HistoryOf(a), HistoryOf(a + b)) && Compatible(HistoryOf(b), HistoryOf(a + b))
  {
    UnionRanked(a, b);
  }

  lemma UnionRanked(a: map<Oid, Op>, b: map<Oid, Op>)
    requires Signed(HistoryOf(a)) && Signed(HistoryOf(b)) && Compatible(HistoryOf(a), HistoryOf(b))
    ensures Acyclic(Deps(a + b))
  {
    var ra :| Ranked(Deps(a), ra);
    var rb :| Ranked(Deps(b), rb);
    var top := RankBound(ra);
    var rank := map o | o in a + b :: if o in a then (if o in ra then ra[o] else 0)
      else top + 1 + (if o in rb then rb[o] else 0);
    assert forall o :: o in a ==> Deps(a)[o] == a[o].deps;
    assert forall o :: o in b ==> Deps(b)[o] == b[o].deps;
    forall o, p | o in Deps(a + b) && p in Deps(a + b)[o] ensures Below(rank, p, o) {
      if o in a {
        assert p in Deps(a)[o];
      } else {
        assert p in Deps(b)[o];
      }
    }
    assert Ranked(Deps(a + b), rank);
  }

  /** An authorised operation stays authorised in a larger compatible graph with one founder. */
  lemma SoundInUnion(g: Basis, u: map<Oid, Op>, op: Op)
    requires Signed(g.h) && Signed(HistoryOf(u)) && Compatible(g.h, HistoryOf(u)) && OneFounder(u)
    requires op.oid in g.h.ops && g.h.ops[op.oid] == op && op.oid in u && u[op.oid] == op
    requires Authorised(g, op)
    ensures Authorised(g.(h := HistoryOf(u)), op)
  {
    var c := g.(h := HistoryOf(u));
    assert g.h.parents[op.oid] == op.deps && c.h.parents[op.oid] == op.deps;
    VerdictIsStable(g, c.h, op);
    VerdictIsStable(c, g.h, op);
  }

  lemma UnionSoundAt(a: Basis, b: Basis, u: map<Oid, Op>, o: Oid)
    requires Signed(a.h) && Signed(b.h) && Signed(HistoryOf(u)) && a.policy == b.policy && a.guilty == b.guilty
    requires Compatible(a.h, HistoryOf(u)) && Compatible(b.h, HistoryOf(u)) && OneFounder(u)
    requires o in u && u[o].oid == o
    requires if o in b.h.ops then b.h.ops[o] == u[o] && Authorised(b, u[o])
      else o in a.h.ops && a.h.ops[o] == u[o] && Authorised(a, u[o])
    ensures Authorised(a.(h := HistoryOf(u)), u[o])
  {
    SoundInUnion(if o in b.h.ops then b else a, u, u[o]);
  }

  lemma UnionSound(a: Basis, b: Basis, u: map<Oid, Op>)
    requires Signed(a.h) && Signed(b.h) && Signed(HistoryOf(u)) && a.policy == b.policy && a.guilty == b.guilty
    requires Compatible(a.h, HistoryOf(u)) && Compatible(b.h, HistoryOf(u)) && OneFounder(u)
    requires Sound(a) && Sound(b) && u == a.h.ops + b.h.ops
    ensures Sound(a.(h := HistoryOf(u)))
  {
    forall o | o in u ensures Authorised(a.(h := HistoryOf(u)), u[o]) {
      UnionSoundAt(a, b, u, o);
    }
  }

  // ------------------------------------------------------------- in-order delivery never parks

  /** Each operation comes after its dependencies, which are in `have` or earlier in the list. */
  ghost predicate InOrder(have: set<Oid>, ops: seq<Op>)
    decreases |ops|
  {
    ops == [] || (ops[0].deps <= have && InOrder(have + {ops[0].oid}, ops[1..]))
  }

  lemma {:induction false} InOrderGrows(have: set<Oid>, more: set<Oid>, ops: seq<Op>)
    requires have <= more && InOrder(have, ops)
    ensures InOrder(more, ops)
    decreases |ops|
  {
    if ops != [] {
      InOrderGrows(have + {ops[0].oid}, more + {ops[0].oid}, ops[1..]);
    }
  }

  lemma OrderHead(b: map<Oid, Op>, order: seq<Oid>, i: nat, known: set<Oid>, have: set<Oid>)
    requires IsTopological(Deps(b), order) && i < |order| && Elements(order[..i]) <= have
    ensures order[i] in b && b[order[i]].deps <= have
    ensures Elements(order[..i + 1]) == Elements(order[..i]) + {order[i]}
    ensures Lacking(b, order[i..], known) ==
            (if order[i] in known then [] else [b[order[i]]]) + Lacking(b, order[i + 1..], known)
  {
    var o := order[i];
    assert order[i..][0] == o && order[i..][1..] == order[i + 1..];
    TakeOne(order, i);
    ElementsPush(order[..i], o);
    assert Deps(b)[o] == b[o].deps;
  }

  /** What is left of a dependency-first listing is still in order. */
  lemma {:induction false} LackingInOrder(b: map<Oid, Op>, order: seq<Oid>, i: nat, known: set<Oid>, have: set<Oid>)
    requires IsTopological(Deps(b), order) && i <= |order| && known <= have && Elements(order[..i]) <= have
    requires forall o :: o in b ==> b[o].oid == o
    ensures InOrder(have, Lacking(b, order[i..], known))
    decreases |order| - i
  {
    if i < |order| {
      OrderHead(b, order, i, known, have);
      var rest := Lacking(b, order[i + 1..], known);
      LackingInOrder(b, order, i + 1, known, have + {order[i]});
      if order[i] in known {
        assert have + {order[i]} == have;
        assert [] + rest == rest;
      } else {
        assert ([b[order[i]]] + rest)[1..] == rest;
      }
    }
  }

  lemma IngestFirst(env: Env, r: Replica, ops: seq<Op>)
    requires ops != []
    ensures var i, whole := Ingest(env, r, ops[0]), IngestAll(env, r, ops);
      && (i.outcome == Full ==> whole.full)
      && (i.outcome != Full && i.outcome != Overflow ==> whole == IngestAll(env, i.r, ops[1..]))
  {
  }

  lemma ReadyFirst(env: Env, r: Replica, all: map<Oid, Op>, ops: seq<Op>)
    requires Setting(env, r, all) && ops != [] && FromTarget(all, ops) && InOrder(r.ops.Keys, ops)
    ensures var i := Ingest(env, r, ops[0]);
      && i.outcome != Overflow
      && (i.outcome != Full ==>
            Setting(env, i.r, all) && Same(r, i.r) && ops[0].oid in i.r.ops && InOrder(i.r.ops.Keys, ops[1..]))
  {
    assert ops[0] in ops;
    IngestReady(env, r, all, ops[0]);
    var i := Ingest(env, r, ops[0]);
    if i.outcome != Full {
      InOrderGrows(r.ops.Keys + {ops[0].oid}, i.r.ops.Keys, ops[1..]);
    }
  }

  lemma {:induction false} InOrderNeverParks(env: Env, r: Replica, all: map<Oid, Op>, ops: seq<Op>)
    requires Setting(env, r, all) && FromTarget(all, ops) && InOrder(r.ops.Keys, ops)
    ensures var x := IngestAll(env, r, ops);
      !x.full ==> !x.lost && x.r.pending == r.pending
    decreases |ops|
  {
    if ops != [] {
      ReadyFirst(env, r, all, ops);
      IngestFirst(env, r, ops);
      var i := Ingest(env, r, ops[0]);
      if i.outcome != Full {
        InOrderNeverParks(env, i.r, all, ops[1..]);
      }
    }
  }

  // --------------------------------------------------------------------------- the theorems

  /** Two participants of one conference whose graphs can be reconciled: identifiers denote the same
    * operation on both sides, every operation is authorised in its own past, one founder. */
  ghost predicate Peers(a: Replica, b: Replica) {
    && Signed(HistoryOf(a.ops)) && Signed(HistoryOf(b.ops)) && Compatible(HistoryOf(a.ops), HistoryOf(b.ops))
    && a.policy == b.policy && a.guilty == b.guilty && a.sid == b.sid
    && Sound(BasisOf(a)) && Sound(BasisOf(b)) && OneFounder(a.ops + b.ops)
  }

  ghost predicate AllGenuine(env: Env, sid: nat, ops: map<Oid, Op>) {
    forall o :: o in ops ==> ops[o].sid == sid && env.genuine(ops[o])
  }

  lemma UnionIsTarget(env: Env, a: Replica, b: Replica)
    requires Peers(a, b) && AllGenuine(env, a.sid, a.ops + b.ops) && Quiet(env, a.ops + b.ops, a.guilty)
    ensures Setting(env, a, a.ops + b.ops)
  {
    UnionSigned(a.ops, b.ops);
    UnionSound(BasisOf(a), BasisOf(b), a.ops + b.ops);
  }

  /** `a` has learned all of `b`, nothing is pending or lost, and it holds nothing but the union and its
    * own prekey publications. */
  ghost predicate Taught(a: Replica, b: map<Oid, Op>, x: Settled) {
    && !x.lost && x.r.pending == [] && Same(a, x.r)
    && b.Keys <= x.r.ops.Keys && OnTheWay(x.r, a.ops + b)
  }

  /** What `b` delivers to `a` for a request that `a` sent when it held `sent`. */
  ghost function Delivered(b: Replica, sent: map<Oid, Op>, order: seq<Oid>): (ops: seq<Op>) {
    Lacking(b.ops, order, Closure(Deps(b.ops), Heads(Deps(sent))))
  }

  /** The request was made at an earlier state of the requester. */
  ghost predicate Earlier(sent: map<Oid, Op>, ops: map<Oid, Op>) {
    Signed(HistoryOf(sent)) && forall o :: o in sent ==> o in ops && ops[o] == sent[o]
  }

  /** Facts about the answer that both legs of an exchange use. */
  lemma DeliveredIs(b: Replica, sent: map<Oid, Op>, order: seq<Oid>)
    requires Signed(HistoryOf(b.ops)) && Signed(HistoryOf(sent)) && Compatible(HistoryOf(sent), HistoryOf(b.ops))
    requires IsTopological(Deps(b.ops), order)
    ensures var ops := Delivered(b, sent, order);
      && InOrder(sent.Keys, ops)
      && (forall op :: op in ops ==> op.oid in b.ops && b.ops[op.oid] == op)
      && (forall o :: o in b.ops && o !in sent ==> b.ops[o] in ops)
  {
    var h, k := HistoryOf(sent), HistoryOf(b.ops);
    HeadsDoNotOverclaim(h, k);
    var known := Closure(k.parents, Heads(h.parents));
    LackingIs(b.ops, order, known);
    ElementsAre(order);
    assert order[0..] == order && order[..0] == [];
    LackingInOrder(b.ops, order, 0, known, sent.Keys);
    forall o | o in b.ops && o !in sent ensures b.ops[o] in Lacking(b.ops, order, known) {
      assert o in order;
    }
  }

  /** Answering Sync(heads of `sent`) with Deliver gives `a` everything in `b`, with nothing pending and
    * nothing parked on the way, however much `a` grew while the request was under way; and `b` asks back
    * exactly when the requester held something it lacks. */
  lemma SyncTeaches(env: Env, a: Replica, b: Replica, sent: map<Oid, Op>, order: seq<Oid>)
    requires Peers(a, b) && a.pending == [] && a.me in Members(BasisOf(b)) && Earlier(sent, a.ops)
    requires AllGenuine(env, a.sid, a.ops + b.ops) && Quiet(env, a.ops + b.ops, a.guilty)
    requires IsTopological(Deps(b.ops), order)
    ensures var answer := AnswerSync(b, a.me, Heads(Deps(sent)), order);
      var x := Handle(env, a, Deliver(answer.deliver));
      && (answer.reverse.Some? <==> !(sent.Keys <= b.ops.Keys))
      && (answer.deliver == [] ==> b.ops.Keys <= a.ops.Keys)
      && (!x.full ==> Taught(a, b.ops, x))
  {
    UnionIsTarget(env, a, b);
    ReverseExactly(HistoryOf(sent), HistoryOf(b.ops));
    DeliveredIs(b, sent, order);
    var ops := Delivered(b, sent, order);
    InOrderGrows(sent.Keys, a.ops.Keys, ops);
    LearnBatch(env, a, b.ops, a.ops + b.ops, ops);
  }

  lemma LearnBatch(env: Env, a: Replica, b: map<Oid, Op>, all: map<Oid, Op>, ops: seq<Op>)
    requires Setting(env, a, all) && a.pending == [] && all == a.ops + b && InOrder(a.ops.Keys, ops)
    requires forall op :: op in ops ==> op.oid in b && b[op.oid] == op
    requires forall o :: o in b && o !in a.ops ==> b[o] in ops
    ensures var x := Handle(env, a, Deliver(ops));
      !x.full ==> Taught(a, b, x)
  {
    InOrderNeverParks(env, a, all, ops);
    HandleKeeps(env, a, all, Deliver(ops), []);
    var x := Handle(env, a, Deliver(ops));
    if !x.full {
      assert [] + ops == ops;
      forall o | o in all ensures o in x.r.ops || all[o] in x.r.pending {
        if o !in a.ops {
          assert all[o] in ops && all[o].oid == o;
        }
      }
      StuckIsEmpty(x.r, all);
    }
  }

  lemma FoundersFrom(u: map<Oid, Op>, w: map<Oid, Op>)
    requires OneFounder(u) && forall o :: o in w && Founding(w[o]) ==> o in u && u[o] == w[o]
    ensures OneFounder(w)
  {
  }

  // -------------------------------------------------------------- what a member signs is authorised

  lemma SoundHasOneFounder(b: Basis)
    requires Signed(b.h) && Sound(b)
    ensures OneFounder(b.h.ops)
  {
    forall o, p | o in b.h.ops && p in b.h.ops && Founding(b.h.ops[o]) && Founding(b.h.ops[p])
      ensures b.h.ops[o].author == b.h.ops[p].author
    {
      var op := b.h.ops[o];
      assert b.h.parents[o] == op.deps;
      VerdictIsStable(b, b.h, op);
    }
  }

  lemma WholeGraphIsPast(r: Replica, op: Op)
    requires Signed(HistoryOf(r.ops)) && op.oid !in r.ops && op.deps == Heads(Deps(r.ops))
    ensures MembersBefore(BasisOf(r), op) == Members(BasisOf(r))
    ensures op.deps == {} ==> Members(BasisOf(r)) == {}
  {
    HeadsImplyAll(Deps(r.ops));
    NothingPrecedesUnknown(Deps(r.ops), op.oid);
    assert DeclaredPast(HistoryOf(r.ops), op) == r.ops.Keys;
  }

  lemma GrowSound(b: Basis, u: map<Oid, Op>, op: Op)
    requires Signed(b.h) && Signed(HistoryOf(u)) && op.oid !in b.h.ops && u == b.h.ops[op.oid := op]
    requires Sound(b) && OneFounder(u) && Authorised(b.(h := HistoryOf(u)), op)
    ensures Sound(b.(h := HistoryOf(u)))
  {
    GrowCompatible(b.h, u, op);
    forall o | o in u ensures Authorised(b.(h := HistoryOf(u)), u[o]) {
      if o != op.oid {
        SoundInUnion(b, u, u[o]);
      }
    }
  }

  lemma GrowCompatible(h: History, u: map<Oid, Op>, op: Op)
    requires Signed(h) && Signed(HistoryOf(u)) && op.oid !in h.ops && u == h.ops[op.oid := op]
    ensures Compatible(h, HistoryOf(u))
  {
  }

  lemma MemberIsAuthorised(r: Replica, op: Op)
    requires Signed(HistoryOf(r.ops)) && op.oid !in r.ops && op.deps == Heads(Deps(r.ops))
    requires op.author == r.me && r.me in Members(BasisOf(r))
    ensures Authorised(BasisOf(r), op) && op.deps != {}
  {
    WholeGraphIsPast(r, op);
  }

  /** An operation a current member signs on top of its whole graph is authorised there, and keeps
    * every operation of the graph authorised. */
  lemma SignedByMember(r: Replica, d: Draft)
    requires Signed(HistoryOf(r.ops)) && Sound(BasisOf(r)) && r.me in Members(BasisOf(r)) && d.oid !in r.ops
    ensures var op := Sign(r, d);
      Authorised(BasisOf(r), op) && Sound(BasisOf(r.(ops := r.ops[op.oid := op])))
  {
    var op := Sign(r, d);
    var u := r.ops[op.oid := op];
    MemberIsAuthorised(r, op);
    AddSigned(r.ops, op);
    GrowByMember(BasisOf(r), u, op);
  }

  lemma GrowByMember(b: Basis, u: map<Oid, Op>, op: Op)
    requires Signed(b.h) && Signed(HistoryOf(u)) && op.oid !in b.h.ops && u == b.h.ops[op.oid := op]
    requires op.deps <= b.h.ops.Keys && op.deps != {} && Sound(b) && Authorised(b, op)
    ensures Sound(b.(h := HistoryOf(u)))
  {
    FoundersGrow(b, u, op);
    OwnAuthorised(b, op, u);
    GrowSound(b, u, op);
  }

  lemma FoundersGrow(b: Basis, u: map<Oid, Op>, op: Op)
    requires Signed(b.h) && Sound(b) && u == b.h.ops[op.oid := op] && op.deps != {}
    ensures OneFounder(u)
  {
    SoundHasOneFounder(b);
    FoundersFrom(b.h.ops, u);
  }

  lemma OwnAuthorised(b: Basis, op: Op, u: map<Oid, Op>)
    requires Signed(b.h) && Signed(HistoryOf(u)) && op.oid !in b.h.ops && u == b.h.ops[op.oid := op]
    requires op.deps <= b.h.ops.Keys && op.deps != {} && Authorised(b, op)
    ensures Authorised(b.(h := HistoryOf(u)), op)
  {
    assert Deps(u)[op.oid] == op.deps;
    VerdictIsStable(b, HistoryOf(u), op);
  }
}
