/** The causal operation graph (crates/cfr-core/src/dag.rs). */
module DagModule {
  import opened Base
  import opened Ops
  import opened Graph
  import opened Traversal
  import opened Topological

  const MAX_OPS: nat := 4096

  class Dag {
    var epoch: nat
    var ops: map<Oid, Op>
    var parents: Parents
    var cache: map<Oid, set<Oid>>

    ghost predicate Valid()
      reads this
    {
      ValidHistory(View()) && CacheCoherent() && |ops| <= MAX_OPS
    }

    ghost function View(): (h: History)
      reads this
    {
      History(ops, parents)
    }

    /** The memo never disagrees with recomputation. */
    ghost predicate CacheCoherent()
      reads this
    {
      forall o :: o in cache ==> cache[o] == Past(parents, o)
    }

    constructor ()
      ensures Valid() && ops == map[] && epoch == 0
    {
      epoch, ops, parents, cache := 0, map[], map[], map[];
      new;
      assert Ranked(parents, map[]);
    }

    /** Stores an operation; a known identifier is a no-op and unknown dependencies are not recorded. */
    method Add(op: Op) returns (r: Option<Oid>)
      requires Valid()
      modifies this
      ensures Valid()
      ensures r == if |old(ops)| >= MAX_OPS then None else Some(op.oid)
      ensures ops == if r == None || op.oid in old(ops) then old(ops) else old(ops)[op.oid := op]
      ensures parents == if ops == old(ops) then old(parents)
                         else old(parents)[op.oid := op.deps * old(ops).Keys]
      ensures epoch == if ops == old(ops) then old(epoch) else old(epoch) + 1
      ensures ops == old(ops) ==> cache == old(cache)
      ensures Extends(parents, old(parents))
    {
      if |ops| >= MAX_OPS {
        return None;
      }
      if op.oid in ops {
        return Some(op.oid);
      }
      var deps := op.deps * ops.Keys;
      AddKeepsWellFormed(parents, op.oid, deps);
      parents := parents[op.oid := deps];
      ops := ops[op.oid := op];
      cache := map[];
      epoch := epoch + 1;
      assert op.oid in ops;
      return Some(op.oid);
    }

    /** The strict causal past by worklist, memoised. */
    method Ancestors(oid: Oid) returns (seen: set<Oid>)
      requires Valid()
      modifies this`cache
      ensures Valid()
      ensures seen == Past(parents, oid)
    {
      if oid in cache {
        return cache[oid];
      }
      seen := Walk(parents, oid);
      cache := cache[oid := seen];
    }

    /** Everything implied by the heads that are known here; unknown heads are ignored. */
    method CausalClosure(heads: seq<Oid>) returns (known: set<Oid>)
      requires Valid()
      modifies this`cache
      ensures Valid()
      ensures known == Closure(parents, Elements(heads))
    {
      known := {};
      for i := 0 to |heads|
        invariant Valid()
        invariant known == Closure(parents, Elements(heads[..i]))
      {
        var head := heads[i];
        TakeOne(heads, i);
        ElementsPush(heads[..i], head);
        ClosureOneMore(parents, Elements(heads[..i]), head);
        if head !in ops {
          continue;
        }
        var past := Ancestors(head);
        known := known + {head} + past;
      }
      TakeAll(heads);
    }

    method PrecedesIn(a: Oid, b: Oid) returns (r: bool)
      requires Valid()
      modifies this`cache
      ensures Valid()
      ensures r <==> Precedes(parents, a, b)
    {
      PrecedesIrreflexive(parents, a);
      if a == b {
        return false;
      }
      var past := Ancestors(b);
      if Precedes(parents, a, b) {
        PrecedesKnown(parents, a, b);
      }
      return a in past;
    }

    method HeadsOf() returns (r: set<Oid>)
      requires Valid()
      ensures r == Heads(parents)
      ensures Closure(parents, r) == ops.Keys
    {
      var referenced := Referenced(parents);
      r := ops.Keys - referenced;
      UnreferencedAreHeads(parents, referenced);
      HeadsImplyAll(parents);
    }

    /** Contracts the graph down to `keep`: causality between survivors is what it was. */
    method Compact(keep: set<Oid>)
      requires Valid()
      modifies this
      ensures Valid()
      ensures Contracted(old(parents), keep, parents)
      ensures ops == map o | o in old(ops) && o in keep :: old(ops)[o]
      ensures forall a, b :: a in ops && b in ops ==> (Precedes(parents, a, b) <==> old(Precedes(parents, a, b)))
      ensures epoch == if old(ops).Keys <= keep then old(epoch) else old(epoch) + 1
    {
      if ops.Keys <= keep {
        NothingDropped(parents, keep);
        return;
      }
      var rewired := RewireAll(parents, keep);
      var kept := map o | o in ops && o in keep :: ops[o];
      CompactedHistory(View(), keep, kept, rewired);
      ops := kept;
      parents := rewired;
      cache := map[];
      epoch := epoch + 1;
    }

    /** All identifiers, each after its dependencies. */
    method TopologicalOrder() returns (out: seq<Oid>)
      requires Valid()
      ensures IsTopological(parents, out)
    {
      out := Order(parents);
    }
  }

  ghost predicate IsReferenced(ps: Parents, done: set<Oid>, p: Oid) {
    exists c :: c in done && c in ps && p in ps[c]
  }

  /** Every identifier some operation names as a parent. */
  method Referenced(ps: Parents) returns (r: set<Oid>)
    ensures forall p :: p in r <==> IsReferenced(ps, ps.Keys, p)
  {
    r := {};
    var todo := ps.Keys;
    while todo != {}
      invariant todo <= ps.Keys && forall p :: p in r <==> IsReferenced(ps, ps.Keys - todo, p)
      decreases |todo|
    {
      var c := Least(todo);
      ReferencedOneMore(ps, ps.Keys - todo, c);
      assert ps.Keys - (todo - {c}) == ps.Keys - todo + {c};
      r := r + ps[c];
      todo := todo - {c};
    }
    assert ps.Keys - todo == ps.Keys;
  }

  lemma ReferencedOneMore(ps: Parents, done: set<Oid>, c: Oid)
    requires c in ps
    ensures forall p :: IsReferenced(ps, done + {c}, p) <==> IsReferenced(ps, done, p) || p in ps[c]
  {
    forall p ensures IsReferenced(ps, done + {c}, p) <==> IsReferenced(ps, done, p) || p in ps[c] {
      if p in ps[c] {
        assert c in done + {c};
      }
      if IsReferenced(ps, done, p) {
        var d :| d in done && d in ps && p in ps[d];
        assert d in done + {c};
      }
    }
  }

  lemma UnreferencedAreHeads(ps: Parents, r: set<Oid>)
    requires forall p :: p in r <==> IsReferenced(ps, ps.Keys, p)
    ensures ps.Keys - r == Heads(ps)
  {
    forall o | o in ps ensures o in Heads(ps) <==> o !in r {
      if o !in Heads(ps) {
        var c :| c in ps && o in ps[c];
        assert c in ps.Keys;
      }
    }
  }

  lemma CompactedHistory(h: History, keep: set<Oid>, kept: map<Oid, Op>, cs: Parents)
    requires ValidHistory(h) && Contracted(h.parents, keep, cs) && kept == map o | o in h.ops && o in keep :: h.ops[o]
    ensures ValidHistory(History(kept, cs)) && |kept| <= |h.ops|
    ensures forall a, b :: a in kept && b in kept ==> (Precedes(cs, a, b) <==> Precedes(h.parents, a, b))
  {
    ContractionPreservesPrecedence(h.parents, keep, cs);
    Subset(kept.Keys, h.ops.Keys);
    assert |kept.Keys| == |kept| && |h.ops.Keys| == |h.ops|;
  }

  lemma NothingDropped(ps: Parents, keep: set<Oid>)
    requires Closed(ps) && ps.Keys <= keep
    ensures Contracted(ps, keep, ps)
  {
    forall a, b | b in ps ensures a in ps[b] <==> a in keep && Reached(ps, keep, a, b) {
      if a in ps[b] {
        assert Via(ps, keep, a, b, 1);
      }
      if n: nat :| Via(ps, keep, a, b, n) {
        assert n == 1;
      }
    }
  }

  lemma ClosureOneMore(ps: Parents, s: set<Oid>, h: Oid)
    ensures Closure(ps, s + {h}) == Closure(ps, s) + (if h in ps then {h} + Past(ps, h) else {})
  {
    if h !in ps {
      NothingPrecedesUnknown(ps, h);
    }
  }

  lemma NothingPrecedesUnknown(ps: Parents, b: Oid)
    requires b !in ps
    ensures forall a :: !Precedes(ps, a, b)
  {
    forall a, n: nat | n > 0 && Steps(ps, a, b, n) ensures false {
    }
  }

  lemma PrecedesKnown(ps: Parents, a: Oid, b: Oid)
    requires Closed(ps) && Precedes(ps, a, b)
    ensures a in ps
  {
    var n: nat :| n > 0 && Steps(ps, a, b, n);
    var p :| p in ps[b] && Steps(ps, a, p, n - 1);
    StepsStayInside(ps, ps.Keys, a, p, n - 1);
  }
}
