/** Causal precedence over a parent relation: the mathematics behind crates/cfr-core/src/dag.rs. */
module Graph {
  import opened Ops

  type Parents = map<Oid, set<Oid>>

  /** Every recorded parent is itself a node. */
  ghost predicate Closed(ps: Parents) {
    forall o, p :: o in ps && p in ps[o] ==> p in ps
  }

  ghost predicate Below(rank: map<Oid, nat>, p: Oid, o: Oid) {
    o in rank && p in rank && rank[p] < rank[o]
  }

  ghost predicate Ranked(ps: Parents, rank: map<Oid, nat>) {
    forall o, p :: o in ps && p in ps[o] ==> Below(rank, p, o)
  }

  ghost predicate Acyclic(ps: Parents) {
    exists rank :: Ranked(ps, rank)
  }

  ghost predicate WellFormed(ps: Parents) {
    Closed(ps) && Acyclic(ps)
  }

  /** `a` is reached from `b` over exactly `n` parent edges. */
  ghost predicate Steps(ps: Parents, a: Oid, b: Oid, n: nat)
    decreases n
  {
    if n == 0 then a == b
    else b in ps && exists p :: p in ps[b] && Steps(ps, a, p, n - 1)
  }

  ghost predicate Precedes(ps: Parents, a: Oid, b: Oid) {
    exists n: nat :: n > 0 && Steps(ps, a, b, n)
  }

  /** The strict causal past of `b`. */
  ghost function Past(ps: Parents, b: Oid): (s: set<Oid>) {
    set a | a in ps && Precedes(ps, a, b)
  }

  /** A set together with the causal past of its members. */
  ghost function Closure(ps: Parents, s: set<Oid>): (r: set<Oid>) {
    set a | a in ps && (a in s || exists h :: h in s && Precedes(ps, a, h))
  }

  /** Nodes that are nobody's parent. */
  ghost function Heads(ps: Parents): (s: set<Oid>) {
    set o | o in ps && forall c :: c in ps ==> o !in ps[c]
  }

  ghost predicate DownClosed(ps: Parents, s: set<Oid>) {
    s <= ps.Keys && forall o, p :: o in s && p in ps[o] ==> p in s
  }

  lemma ParentPrecedes(ps: Parents, p: Oid, b: Oid)
    requires b in ps && p in ps[b]
    ensures Precedes(ps, p, b)
  {
    assert Steps(ps, p, p, 0);
    assert Steps(ps, p, b, 1);
  }

  lemma {:induction false} StepsCompose(ps: Parents, a: Oid, b: Oid, c: Oid, m: nat, n: nat)
    requires Steps(ps, a, b, m) && Steps(ps, b, c, n)
    ensures Steps(ps, a, c, m + n)
    decreases n
  {
    if n > 0 {
      var p :| p in ps[c] && Steps(ps, b, p, n - 1);
      StepsCompose(ps, a, b, p, m, n - 1);
    }
  }

  lemma PrecedesTransitive(ps: Parents, a: Oid, b: Oid, c: Oid)
    requires Precedes(ps, a, b) && Precedes(ps, b, c)
    ensures Precedes(ps, a, c)
  {
    var m: nat :| m > 0 && Steps(ps, a, b, m);
    var n: nat :| n > 0 && Steps(ps, b, c, n);
    StepsCompose(ps, a, b, c, m, n);
  }

  lemma {:induction false} StepsRank(ps: Parents, rank: map<Oid, nat>, a: Oid, b: Oid, n: nat)
    requires Ranked(ps, rank) && n > 0 && Steps(ps, a, b, n)
    ensures Below(rank, a, b)
    decreases n
  {
    var p :| p in ps[b] && Steps(ps, a, p, n - 1);
    if n > 1 {
      StepsRank(ps, rank, a, p, n - 1);
    }
  }

  lemma PrecedesIrreflexive(ps: Parents, a: Oid)
    requires Acyclic(ps)
    ensures !Precedes(ps, a, a)
  {
    if Precedes(ps, a, a) {
      var rank :| Ranked(ps, rank);
      var n: nat :| n > 0 && Steps(ps, a, a, n);
      StepsRank(ps, rank, a, a, n);
    }
  }

  /** A set that holds the parents of `b` (or `b`) and is closed under parents holds all of the past. */
  lemma {:induction false} StepsStayInside(ps: Parents, s: set<Oid>, a: Oid, b: Oid, n: nat)
    requires b in s && (forall o, p :: o in s && o in ps && p in ps[o] ==> p in s)
    requires Steps(ps, a, b, n)
    ensures a in s
    decreases n
  {
    if n > 0 {
      var p :| p in ps[b] && Steps(ps, a, p, n - 1);
      StepsStayInside(ps, s, a, p, n - 1);
    }
  }

  lemma PastInside(ps: Parents, s: set<Oid>, b: Oid)
    requires b in ps ==> ps[b] <= s
    requires forall o, p :: o in s && o in ps && p in ps[o] ==> p in s
    ensures Past(ps, b) <= s
  {
    forall a | a in Past(ps, b) ensures a in s {
      var n: nat :| n > 0 && Steps(ps, a, b, n);
      var p :| p in ps[b] && Steps(ps, a, p, n - 1);
      StepsStayInside(ps, s, a, p, n - 1);
    }
  }

  lemma PastIsDownClosed(ps: Parents, b: Oid)
    requires Closed(ps)
    ensures DownClosed(ps, Past(ps, b))
  {
    forall o, p | o in Past(ps, b) && p in ps[o] ensures p in Past(ps, b) {
      ParentPrecedes(ps, p, o);
      PrecedesTransitive(ps, p, o, b);
    }
  }

  lemma ClosureIsDownClosed(ps: Parents, s: set<Oid>)
    requires Closed(ps)
    ensures DownClosed(ps, Closure(ps, s))
  {
    forall o, p | o in Closure(ps, s) && p in ps[o] ensures p in Closure(ps, s) {
      ParentPrecedes(ps, p, o);
      if o !in s {
        var h :| h in s && Precedes(ps, o, h);
        PrecedesTransitive(ps, p, o, h);
      }
    }
  }

  /** The summary sent by anti-entropy loses nothing: the heads imply the whole graph. */
  lemma HeadsImplyAll(ps: Parents)
    requires WellFormed(ps)
    ensures Closure(ps, Heads(ps)) == ps.Keys
  {
    var rank :| Ranked(ps, rank);
    var top := RankBound(rank);
    forall o | o in ps ensures o in Closure(ps, Heads(ps)) {
      BelowSomeHead(ps, rank, top, o);
    }
  }

  lemma RankBound(rank: map<Oid, nat>) returns (top: nat)
    ensures forall o :: o in rank ==> rank[o] < top
  {
    top := 0;
    var todo := rank.Keys;
    while todo != {}
      invariant todo <= rank.Keys
      invariant forall o :: o in rank && o !in todo ==> rank[o] < top
      decreases todo
    {
      var o :| o in todo;
      top := top + rank[o] + 1;
      todo := todo - {o};
    }
  }

  lemma {:induction false} BelowSomeHead(ps: Parents, rank: map<Oid, nat>, top: nat, o: Oid)
    requires Ranked(ps, rank) && (forall x :: x in rank ==> rank[x] < top) && o in ps
    ensures o in Closure(ps, Heads(ps))
    decreases if o in rank then top - rank[o] else top + 1
  {
    if o !in Heads(ps) {
      var c :| c in ps && o in ps[c];
      BelowSomeHead(ps, rank, top, c);
      ParentPrecedes(ps, o, c);
      if c !in Heads(ps) {
        var h :| h in Heads(ps) && Precedes(ps, c, h);
        PrecedesTransitive(ps, o, c, h);
      }
    }
  }

  /** `small` is `big` cut down to a causally closed part. */
  ghost predicate Extends(big: Parents, small: Parents) {
    Closed(small) && small.Keys <= big.Keys && forall o :: o in small ==> big[o] == small[o]
  }

  lemma {:induction false} StepsExtend(big: Parents, small: Parents, a: Oid, b: Oid, n: nat)
    requires Extends(big, small) && b in small
    ensures Steps(big, a, b, n) <==> Steps(small, a, b, n)
    ensures Steps(big, a, b, n) ==> a in small
    decreases n
  {
    if n > 0 {
      forall p | p in small[b]
        ensures Steps(big, a, p, n - 1) <==> Steps(small, a, p, n - 1)
        ensures Steps(big, a, p, n - 1) ==> a in small
      {
        StepsExtend(big, small, a, p, n - 1);
      }
    }
  }

  /** Growing the graph never changes the past of a node that was already there. */
  lemma PastStable(big: Parents, small: Parents, b: Oid)
    requires Extends(big, small) && b in small
    ensures Past(big, b) == Past(small, b)
    ensures forall a :: Precedes(big, a, b) <==> Precedes(small, a, b)
  {
    forall a ensures Precedes(big, a, b) <==> Precedes(small, a, b)
             ensures Precedes(big, a, b) ==> a in small {
      if n: nat :| n > 0 && Steps(big, a, b, n) {
        StepsExtend(big, small, a, b, n);
      }
      if n: nat :| n > 0 && Steps(small, a, b, n) {
        StepsExtend(big, small, a, b, n);
      }
    }
  }

  /** Adding a fresh node whose parents are present keeps the graph well formed. */
  lemma AddKeepsWellFormed(ps: Parents, o: Oid, deps: set<Oid>)
    requires WellFormed(ps) && o !in ps && deps <= ps.Keys
    ensures WellFormed(ps[o := deps]) && Extends(ps[o := deps], ps)
  {
    var rank :| Ranked(ps, rank);
    var top := RankBound(rank);
    var total := map x | x in ps :: if x in rank then rank[x] else 0;
    var next := total[o := top + 1];
    assert Ranked(ps[o := deps], next);
  }

  /** Operations with their recorded parents. */
  datatype History = History(ops: map<Oid, Op>, parents: Parents)

  ghost predicate ValidHistory(h: History) {
    && h.ops.Keys == h.parents.Keys
    && WellFormed(h.parents)
    && forall o :: o in h.ops ==> h.ops[o].oid == o
  }

  /** The recorded parents are the signed dependencies: nothing was contracted. */
  ghost predicate Signed(h: History) {
    ValidHistory(h) && forall o :: o in h.ops ==> h.parents[o] == h.ops[o].deps
  }

  /** `small` is a causally closed part of `big`. */
  ghost predicate PartOf(small: History, big: History) {
    && Extends(big.parents, small.parents)
    && small.ops.Keys == small.parents.Keys && small.ops.Keys <= big.ops.Keys
    && forall o :: o in small.ops ==> big.ops[o] == small.ops[o]
  }

  /** The subgraph induced by a set of operations. */
  ghost function Induced(h: History, keep: set<Oid>): (sub: History) {
    History(map o | o in h.ops && o in keep :: h.ops[o], map o | o in h.parents && o in keep :: h.parents[o])
  }

  lemma InducedIsPart(h: History, keep: set<Oid>)
    requires ValidHistory(h) && DownClosed(h.parents, keep)
    ensures ValidHistory(Induced(h, keep)) && PartOf(Induced(h, keep), h)
    ensures Induced(h, keep).ops.Keys == keep
    ensures Signed(h) ==> Signed(Induced(h, keep))
  {
    var sub := Induced(h, keep);
    var rank :| Ranked(h.parents, rank);
    assert Ranked(sub.parents, rank);
  }
}
