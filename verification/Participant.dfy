/** The participant's log with its memo tables and loops (crates/cfr-core/src/member.rs), proved
  * against the functions of `Replica`. */
module ParticipantModule {
  import opened Base
  import opened Ops
  import opened Graph
  import opened Membership
  import opened Frontier
  import opened DagModule
  import opened RosterLoops
  import opened Replica
  import opened Topological
  import opened Sync

  /** Graph-derived values, stamped with the graph epoch and the number of proven equivocators. */
  datatype Derived = Derived(epoch: nat, guilty: nat, tips: set<Oid>, members: set<Id>, root: nat, version: nat)

  /** The authorisation memo: rosters by dependency set and stamp. */
  type Memo = map<(set<Oid>, nat, nat), set<Id>>

  const MAX_MEMO: nat := 4096

  lemma KnownHeads(heads: seq<Oid>, ops: map<Oid, Op>)
    ensures (exists i :: 0 <= i < |heads| && heads[i] !in ops) <==> !(Elements(heads) <= ops.Keys)
  {
    ElementsAre(heads);
    if !(Elements(heads) <= ops.Keys) {
      var o :| o in Elements(heads) && o !in ops.Keys;
      var i :| 0 <= i < |heads| && heads[i] == o;
    }
  }

  class Participant {
    const sid: nat
    const me: Id
    const policy: Policy
    const labels: Labels
    const dag: Dag
    var guilty: set<Id>
    var pending: seq<Op>
    var authz: Memo
    var derived: Option<Derived>

    ghost function View(): (r: Replica)
      reads this, dag
    {
      Replica(sid, me, policy, dag.ops, pending, guilty)
    }

    ghost predicate Valid()
      reads this, dag
    {
      && dag.Valid() && dag.View() == HistoryOf(dag.ops) && Signed(dag.View())
      && MemoCoherent(BasisOf(View()), dag.epoch, authz)
      && DerivedCoherent(labels, BasisOf(View()), dag.epoch, derived)
    }

    constructor (sid: nat, me: Id, policy: Policy, labels: Labels)
      ensures Valid() && fresh(dag) && this.labels == labels
      ensures View() == Replica(sid, me, policy, map[], [], {})
    {
      this.sid, this.me, this.policy, this.labels := sid, me, policy, labels;
      dag := new Dag();
      guilty, pending, authz, derived := {}, [], map[], None;
    }

    /** The current frontier, roster, roster digest and version label, recomputed only when the stamp is stale. */
    method GetDerived() returns (d: Derived)
      requires Valid()
      modifies this`derived, dag`cache
      ensures Valid() && View() == old(View())
      ensures d.tips == Tips(HistoryOf(dag.ops)) && d.members == Members(BasisOf(View()))
      ensures d.root == labels.root(d.members) && d.version == Version(labels, BasisOf(View()))
    {
      if derived.Some? && derived.value.epoch == dag.epoch && derived.value.guilty == |guilty| {
        return derived.value;
      }
      var tips := ComputeTips(dag);
      var members := MembersIn(dag, Basis(History(dag.ops, dag.parents), policy, guilty), dag.ops.Keys);
      var root := labels.root(members);
      d := Derived(dag.epoch, |guilty|, tips, members, root, labels.version(tips, root));
      derived := Some(d);
    }

    /** Authorisation through the memo. */
    method IsAuthorised(op: Op) returns (verdict: bool)
      requires Valid() && op.deps <= dag.ops.Keys && op.oid !in dag.ops
      modifies this`authz, dag`cache
      ensures Valid() && View() == old(View())
      ensures verdict <==> Authorised(BasisOf(View()), op)
    {
      var key := (op.deps, dag.epoch, |guilty|);
      PastOfUnknown(HistoryOf(dag.ops), op);
      if key in authz {
        return Decide(dag.ops, op, authz[key]);
      }
      var past := MembersBeforeFast(dag, policy, guilty, op);
      verdict := Decide(dag.ops, op, past);
      if |authz| > MAX_MEMO {
        authz := map[];
      }
      authz := authz[key := past];
    }

    /** Stores an operation whose dependencies are present. */
    method Store(op: Op)
      requires Valid() && op.deps <= dag.ops.Keys && op.oid !in dag.ops && |dag.ops| < MAX_OPS
      modifies dag
      ensures Valid() && View() == old(View()).(ops := old(dag.ops)[op.oid := op])
    {
      var r := dag.Add(op);
      assert op.deps * old(dag.ops).Keys == op.deps;
      DepsGrow(old(dag.ops), op);
    }

    /** Records proven equivocators; the set only grows, so its size identifies it. */
    method Blame(who: set<Id>)
      requires Valid()
      modifies this`guilty
      ensures Valid() && View() == old(View()).(guilty := old(guilty) + who)
    {
      if !(who <= guilty) {
        StrictlyMore(guilty, who);
        guilty := guilty + who;
      } else {
        assert guilty + who == guilty;
      }
    }

    /** Signs and stores own operations, each on the heads of the moment. */
    method PublishAll(own: seq<Draft>) returns (outcome: Outcome)
      requires Valid()
      modifies dag
      ensures Valid()
      ensures Ingested(outcome, View()) == Publish(old(View()), own)
    {
      for i := 0 to |own|
        invariant Valid() && guilty == old(guilty) && pending == old(pending)
        invariant Publish(View(), own[i..]) == Publish(old(View()), own)
      {
        if |dag.ops| >= MAX_OPS {
          return Full;
        }
        var heads := dag.HeadsOf();
        var op := Op(own[i].oid, sid, me, heads, own[i].body, own[i].sig);
        assert own[i..][0] == own[i] && own[i..][1..] == own[i + 1..];
        if op.oid !in dag.ops {
          Store(op);
        }
      }
      return Applied;
    }

    /** Validates and applies one operation. */
    method IngestOp(env: Env, op: Op) returns (outcome: Outcome)
      requires Valid()
      modifies this, dag
      ensures Valid()
      ensures Ingested(outcome, View()) == Ingest(env, old(View()), op)
    {
      if op.sid != sid || !env.genuine(op) {
        return Refused;
      }
      if op.oid in dag.ops {
        return Duplicate;
      }
      if !(op.deps <= dag.ops.Keys) {
        if op in pending {
          return Parked;
        }
        if |pending| < MAX_PENDING {
          pending := pending + [op];
          return Parked;
        }
        return Overflow;
      }
      var ok := IsAuthorised(op);
      if !ok {
        return Refused;
      }
      if |dag.ops| >= MAX_OPS {
        return Full;
      }
      Store(op);
      var reaction := React(env, me, |dag.ops|, op);
      Blame(reaction.blamed);
      outcome := PublishAll(reaction.own);
    }

    /** Retries the buffer until a pass makes no progress. */
    method DrainPending(env: Env) returns (full: bool)
      requires Valid()
      modifies this, dag
      ensures Valid()
      ensures Settled(View(), full, false) == Drain(env, old(View()).(pending := []), old(pending))
    {
      var waiting := pending;
      pending := [];
      full := false;
      while true
        invariant Valid()
        invariant Drain(env, old(View()).(pending := []), old(pending)) ==
                  Continued(Drain(env, View(), waiting), full)
        decreases |waiting|
      {
        PassShrinks(env, View(), waiting);
        ghost var start := View();
        var deferred, progressed, f := PassOnce(env, waiting);
        full := full || f;
        if !progressed {
          pending := deferred;
          break;
        }
        waiting := deferred;
      }
    }

    method IngestBatch(env: Env, ops: seq<Op>) returns (full: bool, lost: bool)
      requires Valid()
      modifies this, dag
      ensures Valid()
      ensures Settled(View(), full, lost) == IngestAll(env, old(View()), ops)
    {
      full, lost := false, false;
      assert ops[0..] == ops;
      for i := 0 to |ops|
        invariant Valid()
        invariant IngestAll(env, old(View()), ops) == Joined(IngestAll(env, View(), ops[i..]), full, lost)
      {
        assert ops[i..][0] == ops[i] && ops[i..][1..] == ops[i + 1..];
        var outcome := IngestOp(env, ops[i]);
        full := full || outcome == Full;
        lost := lost || outcome == Overflow;
      }
      assert ops[|ops|..] == [];
    }

    /** The `Op` and `Deliver` arms of the message handler. */
    method HandleOps(env: Env, m: Message) returns (full: bool, lost: bool)
      requires Valid()
      modifies this, dag
      ensures Valid()
      ensures Settled(View(), full, lost) == Handle(env, old(View()), m)
    {
      if m.OpMessage? {
        var outcome := IngestOp(env, m.op);
        if !Succeeded(outcome) {
          return outcome == Full, false;
        }
        full, lost := outcome == Full, outcome == Overflow;
        SingleBatch(env, old(View()), m.op);
      } else {
        full, lost := IngestBatch(env, m.ops);
      }
      var f := DrainPending(env);
      full := full || f;
    }

    /** The `Sync` arm: what the requester lacks, dependencies first, and whether to ask back. */
    method HandleSync(from: Id, heads: seq<Oid>) returns (answer: Answer, order: seq<Oid>)
      requires Valid()
      modifies this`derived, dag`cache
      ensures Valid() && View() == old(View())
      ensures IsTopological(Deps(dag.ops), order)
      ensures answer == AnswerSync(View(), from, Elements(heads), order)
    {
      var d := GetDerived();
      order := dag.TopologicalOrder();
      if from !in d.members {
        return Answer([], None), order;
      }
      answer := Serve(heads, order);
    }

    /** What a member's heads leave out, and whether to ask back. */
    method Serve(heads: seq<Oid>, order: seq<Oid>) returns (answer: Answer)
      requires Valid()
      modifies dag`cache
      ensures Valid() && View() == old(View())
      ensures answer == Answer(Lacking(dag.ops, order, Closure(Deps(dag.ops), Elements(heads))),
                               if Elements(heads) <= dag.ops.Keys then None else Some(Heads(Deps(dag.ops))))
    {
      var known := dag.CausalClosure(heads);
      var own := dag.HeadsOf();
      var unknown := exists i :: 0 <= i < |heads| && heads[i] !in dag.ops;
      KnownHeads(heads, dag.ops);
      answer := Answer(Lacking(dag.ops, order, known), if unknown then Some(own) else None);
    }

    /** One pass: operations still lacking a dependency are deferred, the others are ingested. */
    method PassOnce(env: Env, waiting: seq<Op>) returns (deferred: seq<Op>, progressed: bool, full: bool)
      requires Valid()
      modifies this, dag
      ensures Valid()
      ensures Swept(View(), deferred, progressed, full) == Pass(env, old(View()), waiting)
    {
      deferred, progressed, full := [], false, false;
      assert waiting[0..] == waiting;
      for i := 0 to |waiting|
        invariant Valid()
        invariant Pass(env, old(View()), waiting) == After(Pass(env, View(), waiting[i..]), deferred, progressed, full)
      {
        var op := waiting[i];
        PassNext(env, View(), waiting, i, deferred, progressed, full);
        if !(op.deps <= dag.ops.Keys) {
          deferred := deferred + [op];
          continue;
        }
        var outcome := IngestOp(env, op);
        progressed := progressed || Succeeded(outcome);
        full := full || outcome == Full;
      }
      assert waiting[|waiting|..] == [] && deferred + [] == deferred;
    }
  }

  /** The result of a pass of which a first part is done. */
  ghost function After(rest: Swept, deferred: seq<Op>, progressed: bool, full: bool): (x: Swept) {
    Swept(rest.r, deferred + rest.deferred, progressed || rest.progressed, full || rest.full)
  }

  lemma PassNext(env: Env, r: Replica, waiting: seq<Op>, i: nat, deferred: seq<Op>, progressed: bool, full: bool)
    requires i < |waiting|
    ensures var op := waiting[i];
      After(Pass(env, r, waiting[i..]), deferred, progressed, full) ==
      if !(op.deps <= r.ops.Keys) then After(Pass(env, r, waiting[i + 1..]), deferred + [op], progressed, full)
      else
        var x := Ingest(env, r, op);
        After(Pass(env, x.r, waiting[i + 1..]), deferred, progressed || Succeeded(x.outcome), full || x.outcome == Full)
  {
    var op, rest := waiting[i], waiting[i + 1..];
    assert waiting[i..][0] == op && waiting[i..][1..] == rest;
    var d := Pass(env, r, rest).deferred;
    assert deferred + ([op] + d) == deferred + [op] + d;
  }

  ghost function Joined(rest: Settled, full: bool, lost: bool): (x: Settled) {
    rest.(full := rest.full || full, lost := rest.lost || lost)
  }

  lemma SingleBatch(env: Env, r: Replica, op: Op)
    ensures var i := Ingest(env, r, op);
      IngestAll(env, r, [op]) == Settled(i.r, i.outcome == Full, i.outcome == Overflow)
  {
    assert [op][1..] == [];
  }

  ghost function Continued(rest: Settled, full: bool): (x: Settled) {
    rest.(full := rest.full || full)
  }

  lemma PastOfUnknown(h: History, op: Op)
    requires Signed(h) && op.oid !in h.ops
    ensures DeclaredPast(h, op) == Closure(h.parents, op.deps)
  {
    NothingPrecedesUnknown(h.parents, op.oid);
  }

  lemma DepsGrow(ops: map<Oid, Op>, op: Op)
    ensures Deps(ops[op.oid := op]) == Deps(ops)[op.oid := op.deps]
  {
  }

  lemma StrictlyMore(guilty: set<Id>, who: set<Id>)
    requires !(who <= guilty)
    ensures |guilty + who| > |guilty|
  {
    var x :| x in who && x !in guilty;
    Subset(guilty + {x}, guilty + who);
  }

  /** No entry is from the future, and every entry with the current stamp is what recomputation gives. */
  ghost predicate MemoCoherent(b: Basis, epoch: nat, memo: Memo) {
    forall k :: k in memo ==>
      && k.1 <= epoch && k.2 <= |b.guilty|
      && (k.1 == epoch && k.2 == |b.guilty| ==> memo[k] == Roster(b, Closure(b.h.parents, k.0)))
  }

  ghost predicate DerivedCoherent(l: Labels, b: Basis, epoch: nat, derived: Option<Derived>) {
    derived.Some? ==>
      var d := derived.value;
      && d.epoch <= epoch && d.guilty <= |b.guilty|
      && (d.epoch == epoch && d.guilty == |b.guilty| ==>
            && d.tips == Tips(b.h) && d.members == Members(b)
            && d.root == l.root(Members(b)) && d.version == Version(l, b))
  }
}
