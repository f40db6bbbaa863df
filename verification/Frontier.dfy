/** The contribution frontier (crates/cfr-core/src/keys.rs, `frontier`). */
module Frontier {
  import opened Base
  import opened Ops
  import opened Graph
  import opened Traversal
  import opened DagModule
  import opened Membership

  predicate IsContrib(ops: map<Oid, Op>, o: Oid) {
    o in ops && ops[o].body.Contrib?
  }

  /** A contribution that no other contribution descends from. */
  ghost predicate AtTip(h: History, c: Oid) {
    IsContrib(h.ops, c) && forall d :: IsContrib(h.ops, d) ==> !Precedes(h.parents, c, d)
  }

  ghost function Tips(h: History): (f: set<Oid>) {
    set c | c in h.ops && AtTip(h, c)
  }

  /** The digests that identify a roster and, with a frontier, a version. */
  datatype Labels = Labels(root: set<Id> -> nat, version: (set<Oid>, nat) -> nat)

  /** The version label of a participant's view. */
  ghost function Version(l: Labels, b: Basis): (v: nat) {
    l.version(Tips(b.h), l.root(Members(b)))
  }

  /** The frontier by covering: every contribution marks its whole past. */
  method ComputeTips(dag: Dag) returns (f: set<Oid>)
    requires dag.Valid()
    modifies dag`cache
    ensures dag.Valid()
    ensures f == Tips(dag.View())
  {
    var nodes := set o | o in dag.ops && IsContrib(dag.ops, o);
    var covered := Cover(dag, nodes);
    f := nodes - covered;
    forall c ensures c in f <==> c in Tips(dag.View()) {
      if IsContrib(dag.ops, c) && c in covered {
        var d :| d in nodes && c in Past(dag.parents, d);
      }
      forall d | IsContrib(dag.ops, d) && Precedes(dag.parents, c, d) ensures d in nodes {
      }
    }
  }

  method Cover(dag: Dag, nodes: set<Oid>) returns (covered: set<Oid>)
    requires dag.Valid()
    modifies dag`cache
    ensures dag.Valid()
    ensures forall c :: c in covered <==> exists d :: d in nodes && c in Past(dag.parents, d)
  {
    covered := {};
    var todo := nodes;
    while todo != {}
      invariant dag.Valid() && todo <= nodes
      invariant forall c :: c in covered <==> exists d :: d in nodes && d !in todo && c in Past(dag.parents, d)
      decreases |todo|
    {
      var d := Least(todo);
      var past := dag.Ancestors(d);
      covered := covered + past;
      todo := todo - {d};
    }
  }

  /** Every contribution is on the frontier or below it. */
  lemma BelowTip(h: History, c: Oid) returns (f: Oid)
    requires ValidHistory(h) && IsContrib(h.ops, c)
    ensures f in Tips(h) && (c == f || Precedes(h.parents, c, f))
  {
    var rank :| Ranked(h.parents, rank);
    var top := RankBound(rank);
    f := Climb(h, rank, top, c);
  }

  lemma {:induction false} Climb(h: History, rank: map<Oid, nat>, top: nat, c: Oid) returns (f: Oid)
    requires Ranked(h.parents, rank) && (forall x :: x in rank ==> rank[x] < top) && IsContrib(h.ops, c)
    ensures f in Tips(h) && (c == f || Precedes(h.parents, c, f))
    decreases if c in rank then top - rank[c] else top + 1
  {
    f := c;
    if !AtTip(h, c) {
      var d :| IsContrib(h.ops, d) && Precedes(h.parents, c, d);
      var n: nat :| n > 0 && Steps(h.parents, c, d, n);
      StepsRank(h.parents, rank, c, d, n);
      f := Climb(h, rank, top, d);
      if d != f {
        PrecedesTransitive(h.parents, c, d, f);
      }
    }
  }

  /** Contraction leaves the frontier unchanged exactly when it keeps the frontier. */
  lemma ContractionKeepsTips(h: History, keep: set<Oid>, k: History)
    requires ValidHistory(h) && Contracted(h.parents, keep, k.parents)
    requires k.ops == map o | o in h.ops && o in keep :: h.ops[o]
    ensures Tips(k) == Tips(h) <==> Tips(h) <= keep
  {
    ContractionPreservesPrecedence(h.parents, keep, k.parents);
    assert forall o :: o in k.ops <==> o in k.parents;
    if Tips(h) <= keep {
      forall c | c in Tips(k) ensures c in Tips(h) {
        assert IsContrib(h.ops, c);
        var f := BelowTip(h, c);
        assert IsContrib(k.ops, f);
      }
      forall c | c in Tips(h) ensures c in Tips(k) {
        assert IsContrib(k.ops, c);
        forall d | IsContrib(k.ops, d) ensures !Precedes(k.parents, c, d) {
          assert IsContrib(h.ops, d);
        }
      }
    }
  }

  /** Operations that are not contributions do not move the frontier. */
  lemma TipsIgnoreOthers(h: History, big: History)
    requires ValidHistory(h) && ValidHistory(big) && PartOf(h, big)
    requires forall o :: IsContrib(big.ops, o) ==> o in h.ops
    ensures Tips(big) == Tips(h)
  {
    forall c ensures c in Tips(big) <==> c in Tips(h) {
      forall d | IsContrib(h.ops, d) || IsContrib(big.ops, d)
        ensures IsContrib(h.ops, d) && IsContrib(big.ops, d)
        ensures Precedes(big.parents, c, d) <==> Precedes(h.parents, c, d)
      {
        PastStable(big.parents, h.parents, d);
      }
    }
  }

  /** A contribution signed on top of everything known becomes the whole frontier. */
  lemma NewTipDominates(h: History, op: Op)
    requires ValidHistory(h) && op.oid !in h.ops && op.body.Contrib?
    ensures var k := History(h.ops[op.oid := op], h.parents[op.oid := Heads(h.parents)]);
            ValidHistory(k) && Tips(k) == {op.oid} && Past(k.parents, op.oid) == h.ops.Keys
  {
    var ps := h.parents[op.oid := Heads(h.parents)];
    var k := History(h.ops[op.oid := op], ps);
    AddKeepsWellFormed(h.parents, op.oid, Heads(h.parents));
    forall a | a in h.ops ensures Precedes(ps, a, op.oid) {
      UnderHeads(h, ps, op.oid, a);
    }
    PrecedesIrreflexive(ps, op.oid);
    forall d | d in h.ops ensures !Precedes(ps, op.oid, d) {
      PastStable(ps, h.parents, d);
      if Precedes(ps, op.oid, d) {
        PrecedesKnown(h.parents, op.oid, d);
      }
    }
    assert IsContrib(k.ops, op.oid);
  }

  lemma UnderHeads(h: History, ps: Parents, n: Oid, a: Oid)
    requires ValidHistory(h) && n !in h.ops && ps == h.parents[n := Heads(h.parents)] && a in h.ops
    ensures Precedes(ps, a, n)
  {
    AddKeepsWellFormed(h.parents, n, Heads(h.parents));
    HeadsImplyAll(h.parents);
    assert a in Closure(h.parents, Heads(h.parents));
    if a in Heads(h.parents) {
      ParentPrecedes(ps, a, n);
    } else {
      var g :| g in Heads(h.parents) && Precedes(h.parents, a, g);
      PastStable(ps, h.parents, g);
      ParentPrecedes(ps, g, n);
      PrecedesTransitive(ps, a, g, n);
    }
  }
}
