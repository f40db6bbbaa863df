/** A concrete exchange that leaves something over: a participant left the conference, was asked for
  * prekeys twice, and then was admitted again. */
module Leaver {
  import opened Base
  import opened Ops
  import opened Graph
  import opened Membership
  import opened DagModule
  import opened Topological
  import opened Replica
  import opened Convergence
  import opened Sync
  import opened Exchange
  import opened Leftover
  import opened PoolRuns
  import opened Prekey

  /** Identity 1 founds and admits 2; 2 leaves; 1 asks 2 for prekeys twice and admits 2 again. */
  function OpAt(k: nat): (op: Op) {
    var deps := if k <= 1 then {} else {k - 1};
    if k == 3 then Op(3, 0, 2, deps, Remove(2), 0)
    else if k == 4 || k == 5 then Op(k, 0, 1, deps, PrekeyRequest([2]), 0)
    else Op(k, 0, 1, deps, Add(if k <= 1 then 1 else if k == 2 || k == 6 then 2 else k - 1), 0)
  }

  /** The first `n` operations of that history. */
  function Upto(n: nat): (ops: map<Oid, Op>) {
    map k: nat | 1 <= k <= n :: OpAt(k)
  }

  function Side(me: Id, n: nat): (r: Replica) {
    Replica(0, me, Policy({}, 1), Upto(n), [], {})
  }

  function Count(n: nat): (order: seq<Oid>)
    ensures |order| == n && forall i :: 0 <= i < n ==> order[i] == i + 1
  {
    seq(n, i => i + 1)
  }

  // ------------------------------------------------------------------------------- a chain graph

  lemma ChainSigned(n: nat)
    ensures Signed(HistoryOf(Upto(n)))
  {
    var rank := map k | k in Upto(n) :: k;
    assert Ranked(Deps(Upto(n)), rank);
  }

  lemma {:induction false} ChainPrecedes(n: nat, i: nat, j: nat)
    requires 1 <= i < j <= n
    ensures Precedes(Deps(Upto(n)), i, j)
    decreases j
  {
    var ps := Deps(Upto(n));
    assert ps[j] == {j - 1};
    ParentPrecedes(ps, j - 1, j);
    if i < j - 1 {
      ChainPrecedes(n, i, j - 1);
      PrecedesTransitive(ps, i, j - 1, j);
    }
  }

  lemma ChainOnlyForward(n: nat, i: nat, j: nat)
    requires Precedes(Deps(Upto(n)), i, j)
    ensures i < j
  {
    var ps := Deps(Upto(n));
    var rank := map k | k in Upto(n) :: k;
    assert Ranked(ps, rank);
    var m: nat :| m > 0 && Steps(ps, i, j, m);
    StepsRank(ps, rank, i, j, m);
  }

  lemma ChainHeads(n: nat)
    requires n >= 1
    ensures Heads(Deps(Upto(n))) == {n}
  {
    var ps := Deps(Upto(n));
    forall k | k in ps && k != n ensures k !in Heads(ps) {
      assert k + 1 in ps && k in ps[k + 1];
    }
    forall c | c in ps ensures n !in ps[c] {
    }
  }

  lemma ChainClosure(n: nat, k: nat)
    requires 1 <= k <= n
    ensures Closure(Deps(Upto(n)), {k}) == Upto(k).Keys
  {
    var ps := Deps(Upto(n));
    forall i ensures i in Closure(ps, {k}) <==> 1 <= i <= k {
      if 1 <= i < k {
        ChainPrecedes(n, i, k);
      }
      if i in ps && Precedes(ps, i, k) {
        ChainOnlyForward(n, i, k);
      }
    }
  }

  lemma {:induction false} CountsAll(n: nat)
    ensures NoRepeats(Count(n)) && Elements(Count(n)) == Upto(n).Keys
  {
    if n > 0 {
      assert Count(n)[..n - 1] == Count(n - 1);
      CountsAll(n - 1);
    }
  }

  lemma CountsUp(n: nat, i: nat)
    requires i < n
    ensures Count(n)[i] in Upto(n) && Deps(Upto(n))[i + 1] <= Elements(Count(n)[..i])
  {
    var s := Count(n)[..i];
    ElementsAre(s);
    assert i > 0 ==> s[i - 1] == i;
  }

  lemma ChainOrder(n: nat)
    ensures IsTopological(Deps(Upto(n)), Count(n))
  {
    var ps, s := Deps(Upto(n)), Count(n);
    CountsAll(n);
    forall i | 0 <= i < |s| ensures s[i] in ps && ps[s[i]] <= Elements(s[..i]) {
      CountsUp(n, i);
    }
  }

  // --------------------------------------------------------------------------------- the rosters

  lemma FounderStays(b: Basis, keep: set<Oid>)
    requires 1 in keep && exists n :: n >= 1 && b.h.ops == Upto(n)
    ensures 1 in Roster(b, keep)
  {
    RosterIs(b, keep, 1);
    assert Admission(b, keep, 1, 1);
    assert forall o :: !Proven(b, keep, 1, o) && !Ballot(b, keep, 1, o);
    assert Survives(b, keep, 1, 1);
  }

  /** From the moment 2 left until it is admitted again, 2 is not a member. */
  lemma LeftIsOut(me: Id, n: nat)
    requires 3 <= n <= 5
    ensures 2 !in Members(BasisOf(Side(me, n)))
  {
    var b := BasisOf(Side(me, n));
    var keep := b.h.ops.Keys;
    RosterIs(b, keep, 2);
    assert Proven(b, keep, 2, 3);
    forall a | Admission(b, keep, 2, a) ensures !Survives(b, keep, 2, a) {
      assert a == 2;
      if Precedes(b.h.parents, 3, 2) {
        ChainOnlyForward(n, 3, 2);
      }
    }
  }

  lemma BackAgain(me: Id)
    ensures 2 in Members(BasisOf(Side(me, 6)))
  {
    var b := BasisOf(Side(me, 6));
    var keep := b.h.ops.Keys;
    RosterIs(b, keep, 2);
    assert Admission(b, keep, 2, 6);
    ChainPrecedes(6, 3, 6);
    forall r | Counted(b, keep, 2, r) ensures Precedes(b.h.parents, r, 6) {
      assert r == 3;
    }
    assert Survives(b, keep, 2, 6);
  }

  lemma ChainSound(me: Id, n: nat)
    requires n >= 1
    ensures Sound(BasisOf(Side(me, n)))
  {
    var b := BasisOf(Side(me, n));
    ChainSigned(n);
    forall k | k in b.h.ops ensures Authorised(b, b.h.ops[k]) {
      AuthorisedAt(me, n, k);
    }
  }

  lemma AuthorisedAt(me: Id, n: nat, k: nat)
    requires 1 <= k <= n
    ensures Authorised(BasisOf(Side(me, n)), OpAt(k))
  {
    var b := BasisOf(Side(me, n));
    if k == 2 || k > 3 {
      ChainClosure(n, k - 1);
      FounderStays(b, DeclaredPast(b.h, OpAt(k)));
    } else if k == 1 {
      assert !OtherFounder(b.h.ops, OpAt(1));
    }
  }

  // ------------------------------------------------------------------------------- the exchange

  lemma Together(a: map<Oid, Op>, b: map<Oid, Op>)
    requires a == Upto(3) && b == Upto(6)
    ensures a + b == b && Compatible(HistoryOf(a), HistoryOf(b)) && OneFounder(a + b)
  {
  }

  lemma ArePeers(a: Replica, b: Replica)
    requires a == Side(2, 3) && b == Side(1, 6)
    ensures Peers(a, b) && a.ops + b.ops == b.ops
  {
    Together(a.ops, b.ops);
    ChainSigned(3);
    ChainSigned(6);
    ChainSound(2, 3);
    ChainSound(1, 6);
  }

  lemma SameSession(a: Replica, b: Replica)
    requires a == Side(2, 3) && b == Side(1, 6)
    ensures OneSession(a, b)
  {
    Together(a.ops, b.ops);
    assert forall k :: k in b.ops ==> b.ops[k].sid == 0;
  }

  lemma TheyMeet(a: Replica, b: Replica)
    requires a == Side(2, 3) && b == Side(1, 6)
    ensures Meeting(a, b, Count(6)) && OneSession(a, b) && a.ops + b.ops == b.ops
  {
    ArePeers(a, b);
    SameSession(a, b);
    ChainOrder(6);
    BackAgain(1);
    FounderStays(BasisOf(a).(h := HistoryOf(b.ops)), b.ops.Keys);
  }

  lemma TheyDeliver()
    ensures Delivered(Side(1, 6), Upto(3), Count(6)) == [OpAt(4), OpAt(5), OpAt(6)]
  {
    ChainHeads(3);
    ChainClosure(6, 3);
    SendsRest(Upto(3).Keys);
  }

  lemma SendsRest(known: set<Oid>)
    requires known == Upto(3).Keys
    ensures Lacking(Upto(6), Count(6), known) == [OpAt(4), OpAt(5), OpAt(6)]
  {
    Skip(0, known);
    Skip(1, known);
    Skip(2, known);
    Skip(3, known);
    Skip(4, known);
    Skip(5, known);
    assert Lacking(Upto(6), Count(6)[6..], known) == [];
    assert Count(6)[0..] == Count(6);
  }

  lemma Skip(i: nat, known: set<Oid>)
    requires i < 6 && known == Upto(3).Keys
    ensures Lacking(Upto(6), Count(6)[i..], known)
         == (if i < 3 then [] else [OpAt(i + 1)]) + Lacking(Upto(6), Count(6)[i + 1..], known)
  {
    assert Count(6)[i..][0] == i + 1 && Count(6)[i..][1..] == Count(6)[i + 1..];
  }

  /** Whatever its inlet, 2 rotates at both requests, and at the first it is not a member. */
  lemma AskedOutside(i: Inlet, a: Replica, ops: seq<Op>)
    requires a == Side(2, 3) && ops == [OpAt(4), OpAt(5), OpAt(6)]
    ensures RotatesTwice(i, a, ops) && |a.ops| == 3
  {
    assert Holding(a, OpAt(4)).ops == Upto(4);
    LeftIsOut(2, 4);
    assert 2 in [2];
    assert a.ops.Keys == {1, 2, 3};
    assert |a.ops| == |a.ops.Keys| == 3;
  }

  /** Two rotations, the first while not a member, leave a publication that sticks. */
  lemma Sticks(env: Env, i: Inlet, a: Replica, b: Replica, order: seq<Oid>)
    requires Meeting(a, b, order) && Execution(env, i, a, b, order) && RotatesTwice(i, a, Delivered(b, a.ops, order))
    ensures Residue(env, a, b, order)
  {
    LegIsPaced(env, i, a, b, order);
    var q, p := SlipsTwice(env, i, a, a.ops + b.ops, Delivered(b, a.ops, order));
    StickEveryTime(env, a, b, order, q, p);
  }

  /** However the requester's graph comes back, the other side loses or keeps waiting for something. */
  ghost predicate Residue(env: Env, a: Replica, b: Replica, order: seq<Oid>) {
    var x := Leg(env, a, b, order).r;
    forall env', order' ::
      Steady(env', a, b) && Believes(env', env, a) && IsTopological(Deps(x.ops), order') ==>
        Leg(env', b, x, order').lost || Leg(env', b, x, order').r.pending != []
  }

  lemma StickEveryTime(env: Env, a: Replica, b: Replica, order: seq<Oid>, q: Op, p: Op)
    requires Meeting(a, b, order) && Steady(env, a, b) && !Leg(env, a, b, order).full
    requires Chained(Leg(env, a, b, order).r, q, p) && q.oid !in a.ops + b.ops && p.oid !in a.ops + b.ops
    ensures Residue(env, a, b, order)
  {
    FirstLeg(env, a, b, order);
    var x := Leg(env, a, b, order).r;
    forall env', order' | Steady(env', a, b) && Believes(env', env, a) && IsTopological(Deps(x.ops), order')
      ensures Leg(env', b, x, order').lost || Leg(env', b, x, order').r.pending != []
    {
      ChainedSticks(env, a, b, x, q, p, env', order');
    }
  }

  /** The exchange meets every condition on the two graphs, and yet, whatever the prekey pool of 2, every
    * execution leaves the other side with a publication it can never store, whoever else publishes and
    * in whatever order it is told; and there is such an execution. */
  lemma LeaverLeavesResidue(i: Inlet) returns (run: Env)
    ensures var a, b := Side(2, 3), Side(1, 6);
      && Meeting(a, b, Count(6)) && Execution(run, i, a, b, Count(6))
      && forall env :: Execution(env, i, a, b, Count(6)) ==> Residue(env, a, b, Count(6))
  {
    var a, b, order := Side(2, 3), Side(1, 6), Count(6);
    TheyMeet(a, b);
    Prepare(i, a, b);
    run := SomeRunFollows(i, a, b, order);
    StickAlways(i, a, b, order);
  }

  lemma Prepare(i: Inlet, a: Replica, b: Replica)
    requires a == Side(2, 3) && b == Side(1, 6)
    ensures var ops := Delivered(b, a.ops, Count(6)); RotatesTwice(i, a, ops) && |a.ops| + 2 * |ops| <= MAX_OPS
  {
    TheyDeliver();
    AskedOutside(i, a, Delivered(b, a.ops, Count(6)));
  }

  lemma StickAlways(i: Inlet, a: Replica, b: Replica, order: seq<Oid>)
    requires Meeting(a, b, order) && RotatesTwice(i, a, Delivered(b, a.ops, order))
    ensures forall env :: Execution(env, i, a, b, order) ==> Residue(env, a, b, order)
  {
    forall env | Execution(env, i, a, b, order) ensures Residue(env, a, b, order) {
      Sticks(env, i, a, b, order);
    }
  }
}
