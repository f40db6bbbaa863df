/** Causal, remove-wins membership (crates/cfr-core/src/membership.rs). */
module Membership {
  import opened Base
  import opened Ops
  import opened Graph

  datatype Policy = Policy(admins: set<Id>, quorum: nat)

  /** What a roster is evaluated from: a graph, the fixed policy and the proven equivocators. */
  datatype Basis = Basis(h: History, policy: Policy, guilty: set<Id>)

  predicate InScope(b: Basis, keep: set<Oid>, o: Oid) {
    o in keep && o in b.h.ops
  }

  /** An eviction that counts on its own: by the target, by an administrator, or by proof. */
  predicate Proven(b: Basis, keep: set<Oid>, target: Id, o: Oid) {
    InScope(b, keep, o) &&
    match b.h.ops[o].body
    case Remove(who) => who == target && (b.h.ops[o].author == target || b.h.ops[o].author in b.policy.admins)
    case Accuse(who, _, _, _) => who == target && target in b.guilty
    case _ => false
  }

  /** An eviction that counts only towards the quorum. */
  predicate Ballot(b: Basis, keep: set<Oid>, target: Id, o: Oid) {
    && InScope(b, keep, o) && b.h.ops[o].body == Remove(target)
    && b.h.ops[o].author != target && b.h.ops[o].author !in b.policy.admins
  }

  /** One ballot per author: the one with the lowest identifier. */
  ghost predicate Vote(b: Basis, keep: set<Oid>, target: Id, o: Oid) {
    && Ballot(b, keep, target, o)
    && forall x :: Ballot(b, keep, target, x) && b.h.ops[x].author == b.h.ops[o].author ==> o <= x
  }

  ghost function Voters(b: Basis, keep: set<Oid>, target: Id): (r: set<Id>) {
    set o | o in keep && Ballot(b, keep, target, o) :: b.h.ops[o].author
  }

  /** The removals of `target` that take effect. */
  ghost predicate Counted(b: Basis, keep: set<Oid>, target: Id, o: Oid) {
    Proven(b, keep, target, o) || (Vote(b, keep, target, o) && |Voters(b, keep, target)| >= b.policy.quorum)
  }

  predicate Admission(b: Basis, keep: set<Oid>, who: Id, a: Oid) {
    InScope(b, keep, a) && b.h.ops[a].body == Add(who)
  }

  /** Every counted removal lies in the past of the admission. */
  ghost predicate Survives(b: Basis, keep: set<Oid>, who: Id, a: Oid) {
    forall r :: Counted(b, keep, who, r) ==> Precedes(b.h.parents, r, a)
  }

  ghost predicate Member(b: Basis, keep: set<Oid>, who: Id) {
    exists a :: Admission(b, keep, who, a) && Survives(b, keep, who, a)
  }

  /** The roster over a set of operations. */
  ghost function Roster(b: Basis, keep: set<Oid>): (r: set<Id>) {
    set a | a in keep && a in b.h.ops && b.h.ops[a].body.Add? && Member(b, keep, b.h.ops[a].body.who)
          :: b.h.ops[a].body.who
  }

  lemma RosterIs(b: Basis, keep: set<Oid>, who: Id)
    ensures who in Roster(b, keep) <==> Member(b, keep, who)
  {
    if Member(b, keep, who) {
      var a :| Admission(b, keep, who, a) && Survives(b, keep, who, a);
      assert a in keep && b.h.ops[a].body.who == who;
    }
  }

  ghost function Members(b: Basis): (r: set<Id>) {
    Roster(b, b.h.ops.Keys)
  }

  // -------------------------------------------------- fast form refines simple form

  /** Two bases that agree on `keep` and on causality inside it. */
  ghost predicate AgreeOn(b: Basis, c: Basis, keep: set<Oid>) {
    && b.policy == c.policy && b.guilty == c.guilty
    && keep <= b.h.ops.Keys && keep <= c.h.ops.Keys
    && (forall o :: o in keep ==> b.h.ops[o] == c.h.ops[o])
    && (forall r, a :: r in keep && a in keep ==> (Precedes(b.h.parents, r, a) <==> Precedes(c.h.parents, r, a)))
  }

  lemma AgreeScope(b: Basis, c: Basis, keep: set<Oid>, who: Id)
    requires AgreeOn(b, c, keep)
    ensures forall o :: Proven(b, keep, who, o) <==> Proven(c, keep, who, o)
    ensures forall o :: Ballot(b, keep, who, o) <==> Ballot(c, keep, who, o)
    ensures Voters(b, keep, who) == Voters(c, keep, who)
  {
    forall o ensures Ballot(b, keep, who, o) <==> Ballot(c, keep, who, o) {
    }
    forall x ensures x in Voters(b, keep, who) <==> x in Voters(c, keep, who) {
      if x in Voters(b, keep, who) {
        var o :| o in keep && Ballot(b, keep, who, o) && b.h.ops[o].author == x;
        assert Ballot(c, keep, who, o);
      }
      if x in Voters(c, keep, who) {
        var o :| o in keep && Ballot(c, keep, who, o) && c.h.ops[o].author == x;
        assert Ballot(b, keep, who, o);
      }
    }
  }

  lemma AgreeCounted(b: Basis, c: Basis, keep: set<Oid>, who: Id, o: Oid)
    requires AgreeOn(b, c, keep)
    ensures Counted(b, keep, who, o) <==> Counted(c, keep, who, o)
  {
    AgreeScope(b, c, keep, who);
    if o in keep {
      assert Vote(b, keep, who, o) <==> Vote(c, keep, who, o);
    }
  }

  lemma AgreeMember(b: Basis, c: Basis, keep: set<Oid>, who: Id)
    requires AgreeOn(b, c, keep)
    ensures Member(b, keep, who) ==> Member(c, keep, who)
  {
    if Member(b, keep, who) {
      var a :| Admission(b, keep, who, a) && Survives(b, keep, who, a);
      forall r | Counted(c, keep, who, r) ensures Precedes(c.h.parents, r, a) {
        AgreeCounted(b, c, keep, who, r);
        assert r in keep;
      }
      assert Admission(c, keep, who, a) && Survives(c, keep, who, a);
    }
  }

  lemma AgreeRoster(b: Basis, c: Basis, keep: set<Oid>)
    requires AgreeOn(b, c, keep)
    ensures Roster(b, keep) == Roster(c, keep)
  {
    forall who ensures who in Roster(b, keep) <==> who in Roster(c, keep) {
      RosterIs(b, keep, who);
      RosterIs(c, keep, who);
      AgreeMember(b, c, keep, who);
      AgreeMember(c, b, keep, who);
    }
  }

  lemma PartAgrees(b: Basis, small: History, keep: set<Oid>)
    requires ValidHistory(b.h) && PartOf(small, b.h) && keep <= small.ops.Keys
    ensures AgreeOn(b, b.(h := small), keep)
  {
    forall r, a | r in keep && a in keep ensures Precedes(b.h.parents, r, a) <==> Precedes(small.parents, r, a) {
      PastStable(b.h.parents, small.parents, a);
    }
  }

  /** Filtering the full graph by a causally closed set equals evaluating the induced subgraph. */
  lemma FilteredEqualsInduced(b: Basis, keep: set<Oid>)
    requires ValidHistory(b.h) && DownClosed(b.h.parents, keep)
    ensures Roster(b, keep) == Members(b.(h := Induced(b.h, keep)))
  {
    InducedIsPart(b.h, keep);
    PartAgrees(b, Induced(b.h, keep), keep);
    AgreeRoster(b, b.(h := Induced(b.h, keep)), keep);
  }

  // ------------------------------------------------------------------ authorisation

  /** The causal past an operation declares, as far as it is known here. */
  ghost function DeclaredPast(h: History, op: Op): (s: set<Oid>) {
    Closure(h.parents, op.deps) + Past(h.parents, op.oid)
  }

  ghost function MembersBefore(b: Basis, op: Op): (r: set<Id>) {
    Roster(b, DeclaredPast(b.h, op))
  }

  /** A dependency-free self-admission. */
  predicate Founding(op: Op) {
    op.body == Add(op.author) && op.deps == {}
  }

  predicate OtherFounder(ops: map<Oid, Op>, op: Op) {
    exists o :: o in ops && Founding(ops[o]) && ops[o].author != op.author
  }

  /** The verdict on an operation, given the roster of its past. */
  predicate Decide(ops: map<Oid, Op>, op: Op, past: set<Id>) {
    if op.body.Add? then
      op.author in past || (op.body.who == op.author && op.deps == {} && !OtherFounder(ops, op))
    else
      op.body == Remove(op.author) || op.author in past
  }

  ghost predicate Authorised(b: Basis, op: Op) {
    Decide(b.h.ops, op, MembersBefore(b, op))
  }

  /** A graph knows an operation when it holds all its dependencies and, if it holds the operation, records them. */
  ghost predicate Knows(h: History, op: Op) {
    Signed(h) && op.deps <= h.ops.Keys && (op.oid in h.ops ==> h.ops[op.oid] == op)
  }

  lemma DeclaredPastIsClosure(h: History, op: Op)
    requires Knows(h, op)
    ensures DeclaredPast(h, op) == Closure(h.parents, op.deps)
    ensures DownClosed(h.parents, DeclaredPast(h, op))
  {
    var ps := h.parents;
    ClosureIsDownClosed(ps, op.deps);
    PastInside(ps, Closure(ps, op.deps), op.oid);
  }

  /** Also for an operation with unknown dependencies, or stored under its identifier differently. */
  lemma DeclaredPastIsDownClosed(h: History, op: Op)
    requires Signed(h)
    ensures DownClosed(h.parents, DeclaredPast(h, op))
  {
    var ps := h.parents;
    ClosureIsDownClosed(ps, op.deps);
    forall o, p | o in Past(ps, op.oid) && p in ps[o] ensures p in Past(ps, op.oid) {
      ParentPrecedes(ps, p, o);
      PrecedesTransitive(ps, p, o, op.oid);
    }
  }

  /** Two graphs that hold the same operation under the same identifier. */
  ghost predicate Compatible(h: History, k: History) {
    forall o :: o in h.ops && o in k.ops ==> h.ops[o] == k.ops[o]
  }

  lemma SamePast(h: History, k: History, op: Op)
    requires Knows(h, op) && Knows(k, op) && Compatible(h, k)
    ensures DeclaredPast(h, op) == DeclaredPast(k, op)
    ensures Induced(h, DeclaredPast(h, op)) == Induced(k, DeclaredPast(k, op))
  {
    DeclaredPastIsClosure(h, op);
    DeclaredPastIsClosure(k, op);
    ClosureShared(h, k, op.deps);
    ClosureShared(k, h, op.deps);
    SameInduced(h, k, DeclaredPast(h, op));
  }

  lemma SameInduced(h: History, k: History, s: set<Oid>)
    requires Signed(h) && Signed(k) && Compatible(h, k) && s <= h.ops.Keys && s <= k.ops.Keys
    ensures Induced(h, s) == Induced(k, s)
  {
    var a, b := Induced(h, s), Induced(k, s);
    assert a.ops.Keys == s && b.ops.Keys == s;
    assert a.parents.Keys == s && b.parents.Keys == s;
    assert a.ops == b.ops;
    assert a.parents == b.parents;
  }

  lemma ClosureShared(h: History, k: History, s: set<Oid>)
    requires Signed(h) && Signed(k) && Compatible(h, k) && s <= h.ops.Keys && s <= k.ops.Keys
    ensures Closure(h.parents, s) <= Closure(k.parents, s)
  {
    ClosureIsDownClosed(k.parents, s);
    var t := Closure(k.parents, s);
    forall a | a in Closure(h.parents, s) ensures a in t {
      if a !in s {
        var g :| g in s && Precedes(h.parents, a, g);
        var n: nat :| n > 0 && Steps(h.parents, a, g, n);
        StepsShared(h, k, t, a, g, n);
      }
    }
  }

  lemma {:induction false} StepsShared(h: History, k: History, t: set<Oid>, a: Oid, g: Oid, n: nat)
    requires Signed(h) && Signed(k) && Compatible(h, k) && DownClosed(k.parents, t)
    requires g in t && g in h.ops && Steps(h.parents, a, g, n)
    ensures a in t
    decreases n
  {
    if n > 0 {
      var p :| p in h.parents[g] && Steps(h.parents, a, p, n - 1);
      assert k.parents[g] == h.parents[g];
      StepsShared(h, k, t, a, p, n - 1);
    }
  }

  /** The roster an operation is judged against is the same in every graph that knows the operation. */
  lemma SameRosterBefore(b: Basis, k: History, op: Op)
    requires Knows(b.h, op) && Knows(k, op) && Compatible(b.h, k)
    ensures MembersBefore(b, op) == MembersBefore(b.(h := k), op)
  {
    var s := DeclaredPast(b.h, op);
    SamePast(b.h, k, op);
    DeclaredPastIsClosure(b.h, op);
    DeclaredPastIsClosure(k, op);
    FilteredEqualsInduced(b, s);
    FilteredEqualsInduced(b.(h := k), s);
  }

  /** Arrival history cannot change a verdict: any two graphs that know the operation agree on it,
    * unless it is a dependency-free self-admission. */
  lemma VerdictIsStable(b: Basis, k: History, op: Op)
    requires Knows(b.h, op) && Knows(k, op) && Compatible(b.h, k)
    ensures !Founding(op) ==> (Authorised(b, op) <==> Authorised(b.(h := k), op))
    ensures Founding(op) ==> (Authorised(b, op) <==> !OtherFounder(b.h.ops, op))
  {
    SameRosterBefore(b, k, op);
    if Founding(op) {
      DeclaredPastIsClosure(b.h, op);
      assert DeclaredPast(b.h, op) == {};
      assert MembersBefore(b, op) == {};
    }
  }

  // -------------------------------------------------------------- remove-wins permanence

  /** `big` is a later state of `b`: the graph and the proven equivocators only grew. */
  ghost predicate Later(b: Basis, big: Basis) {
    && ValidHistory(b.h) && ValidHistory(big.h) && PartOf(b.h, big.h)
    && big.policy == b.policy && b.guilty <= big.guilty
  }

  /** An eviction witness for one admission survives growth, even when the author's counted ballot
    * is replaced by one with a lower identifier. */
  lemma EvictionPersists(b: Basis, big: Basis, who: Id, a: Oid, r: Oid) returns (r': Oid)
    requires Later(b, big) && a in b.h.ops
    requires Counted(b, b.h.ops.Keys, who, r) && !Precedes(b.h.parents, r, a)
    ensures Counted(big, big.h.ops.Keys, who, r') && !Precedes(big.h.parents, r', a)
  {
    PastStable(big.h.parents, b.h.parents, a);
    var old_, now := b.h.ops.Keys, big.h.ops.Keys;
    if Proven(b, old_, who, r) {
      r' := r;
    } else {
      MoreVoters(b, big, who);
      assert Ballot(big, now, who, r);
      r' := LowestBallot(big, who, big.h.ops[r].author, r);
      if Precedes(big.h.parents, r', a) {
        PrecedesInside(b.h.parents, r', a);
        assert Ballot(b, old_, who, r');
      }
    }
  }

  lemma PrecedesInside(ps: Parents, x: Oid, a: Oid)
    requires Closed(ps) && a in ps && Precedes(ps, x, a)
    ensures x in ps
  {
    var n: nat :| n > 0 && Steps(ps, x, a, n);
    StepsStayInside(ps, ps.Keys, x, a, n);
  }

  lemma MoreVoters(b: Basis, big: Basis, who: Id)
    requires Later(b, big)
    ensures |Voters(b, b.h.ops.Keys, who)| <= |Voters(big, big.h.ops.Keys, who)|
  {
    var s, t := Voters(b, b.h.ops.Keys, who), Voters(big, big.h.ops.Keys, who);
    forall x | x in s ensures x in t {
      var o :| o in b.h.ops && Ballot(b, b.h.ops.Keys, who, o) && b.h.ops[o].author == x;
      assert Ballot(big, big.h.ops.Keys, who, o);
    }
    Subset(s, t);
  }

  lemma LowestBallot(b: Basis, who: Id, author: Id, o: Oid) returns (low: Oid)
    requires Ballot(b, b.h.ops.Keys, who, o) && b.h.ops[o].author == author
    ensures Vote(b, b.h.ops.Keys, who, low) && b.h.ops[low].author == author && low <= o
  {
    var s := set x | x in b.h.ops && Ballot(b, b.h.ops.Keys, who, x) && b.h.ops[x].author == author;
    assert o in s;
    low := Least(s);
    forall x | Ballot(b, b.h.ops.Keys, who, x) && b.h.ops[x].author == author ensures low <= x {
      assert x in s;
    }
  }

  /** Remove-wins: an evicted identity returns if and only if some admission that is new since the
    * eviction has every counted removal in its past. */
  lemma EvictionIsPermanent(b: Basis, big: Basis, who: Id)
    requires Later(b, big) && who !in Members(b)
    ensures who in Members(big) <==>
            exists a :: a in big.h.ops && a !in b.h.ops && Admission(big, big.h.ops.Keys, who, a)
                        && Survives(big, big.h.ops.Keys, who, a)
  {
    RosterIs(b, b.h.ops.Keys, who);
    RosterIs(big, big.h.ops.Keys, who);
    if Member(big, big.h.ops.Keys, who) {
      var a :| Admission(big, big.h.ops.Keys, who, a) && Survives(big, big.h.ops.Keys, who, a);
      if a in b.h.ops {
        assert Admission(b, b.h.ops.Keys, who, a);
        var r :| Counted(b, b.h.ops.Keys, who, r) && !Precedes(b.h.parents, r, a);
        var r' := EvictionPersists(b, big, who, a, r);
      }
    }
  }

  /** In particular, without a new admission the eviction is final. */
  lemma NoResurrection(b: Basis, big: Basis, who: Id)
    requires Later(b, big) && who !in Members(b)
    requires forall a :: a in big.h.ops && big.h.ops[a].body == Add(who) ==> a in b.h.ops
    ensures who !in Members(big)
  {
    EvictionIsPermanent(b, big, who);
  }
}
