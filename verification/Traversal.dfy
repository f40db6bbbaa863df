/** Worklist searches over the graph (crates/cfr-core/src/dag.rs, `ancestors` and `compact`). */
module Traversal {
  import opened Base
  import opened Ops
  import opened Graph

  /** Every edge out of `start` and out of a visited node leads to a visited or a queued node. */
  ghost predicate Frontierless(ps: Parents, start: Oid, seen: set<Oid>, queued: set<Oid>) {
    && (start in ps ==> ps[start] <= seen + queued)
    && forall x :: x in seen && x in ps ==> ps[x] <= seen + queued
  }

  lemma Visit(ps: Parents, start: Oid, cur: Oid)
    requires Closed(ps) && cur in Past(ps, start)
    ensures ps[cur] <= Past(ps, start)
  {
    PastIsDownClosed(ps, start);
  }

  lemma Begin(ps: Parents, start: Oid)
    requires Closed(ps) && start in ps
    ensures ps[start] <= Past(ps, start)
  {
    forall x | x in ps[start] ensures x in Past(ps, start) {
      ParentPrecedes(ps, x, start);
    }
  }

  lemma ElementsAppend(s: seq<Oid>, t: set<Oid>)
    ensures Elements(s + Ascending(t)) == Elements(s) + t
  {
    ElementsAre(s);
    ElementsAre(s + Ascending(t));
  }

  /** The worklist search: exactly the strict causal past, for every well-formed graph. */
  method Walk(ps: Parents, start: Oid) returns (seen: set<Oid>)
    requires Closed(ps)
    ensures seen == Past(ps, start)
  {
    seen := {};
    var stack := [];
    if start in ps {
      ElementsAppend([], ps[start]);
      stack := [] + Ascending(ps[start]);
      Begin(ps, start);
    }
    while stack != []
      invariant seen <= Past(ps, start) && Elements(stack) <= Past(ps, start)
      invariant Frontierless(ps, start, seen, Elements(stack))
      decreases Past(ps, start) - seen, |stack|
    {
      var cur := stack[|stack| - 1];
      stack := stack[..|stack| - 1];
      if cur in seen {
        continue;
      }
      seen := seen + {cur};
      Visit(ps, start, cur);
      ElementsAppend(stack, ps[cur]);
      stack := stack + Ascending(ps[cur]);
    }
    PastInside(ps, seen, start);
  }

  /** `a` is reached from `b` over `n` edges whose intermediate nodes are all dropped. */
  ghost predicate Via(ps: Parents, keep: set<Oid>, a: Oid, b: Oid, n: nat)
    decreases n
  {
    b in ps && n > 0 && exists p :: p in ps[b] && if n == 1 then a == p else p !in keep && Via(ps, keep, a, p, n - 1)
  }

  ghost predicate Reached(ps: Parents, keep: set<Oid>, a: Oid, b: Oid) {
    exists n: nat :: Via(ps, keep, a, b, n)
  }

  /** `s` is the set of nearest surviving ancestors: kept, and reachable through dropped nodes only. */
  ghost predicate AreNearest(ps: Parents, keep: set<Oid>, s: set<Oid>, b: Oid) {
    forall a :: a in s <==> a in keep && Reached(ps, keep, a, b)
  }

  /** Each dropped node is replaced, in its children, by its own parents. */
  ghost predicate Contracted(ps: Parents, keep: set<Oid>, cs: Parents) {
    cs.Keys == ps.Keys * keep && Resolved(ps, keep, cs)
  }

  lemma {:induction false} ViaIsSteps(ps: Parents, keep: set<Oid>, a: Oid, b: Oid, n: nat)
    requires Via(ps, keep, a, b, n)
    ensures Steps(ps, a, b, n)
    decreases n
  {
    var p :| p in ps[b] && if n == 1 then a == p else p !in keep && Via(ps, keep, a, p, n - 1);
    if n > 1 {
      ViaIsSteps(ps, keep, a, p, n - 1);
    }
  }

  /** Walking back from `b` towards a kept `a`, the first kept node met is a nearest one. */
  lemma {:induction false} FirstKept(ps: Parents, keep: set<Oid>, a: Oid, b: Oid, n: nat)
    returns (k: Oid, m: nat, j: nat)
    requires a in keep && n > 0 && Steps(ps, a, b, n)
    ensures k in keep && Via(ps, keep, k, b, m) && Steps(ps, a, k, j) && j < n
    decreases n
  {
    var p :| p in ps[b] && Steps(ps, a, p, n - 1);
    if p in keep {
      k, m, j := p, 1, n - 1;
    } else {
      k, m, j := FirstKept(ps, keep, a, p, n - 1);
      m := m + 1;
    }
  }

  lemma {:induction false} ContractedSound(ps: Parents, keep: set<Oid>, cs: Parents, a: Oid, b: Oid, n: nat)
    returns (m: nat)
    requires Contracted(ps, keep, cs) && Steps(cs, a, b, n)
    ensures Steps(ps, a, b, m) && (n > 0 ==> m > 0)
    decreases n
  {
    if n == 0 {
      m := 0;
    } else {
      var p :| p in cs[b] && Steps(cs, a, p, n - 1);
      var rest := ContractedSound(ps, keep, cs, a, p, n - 1);
      assert Reached(ps, keep, p, b);
      var k: nat :| Via(ps, keep, p, b, k);
      ViaIsSteps(ps, keep, p, b, k);
      StepsCompose(ps, a, p, b, rest, k);
      m := rest + k;
    }
  }

  lemma {:induction false} ContractedComplete(ps: Parents, keep: set<Oid>, cs: Parents, a: Oid, b: Oid, n: nat)
    returns (m: nat)
    requires Closed(ps) && Contracted(ps, keep, cs) && a in keep && b in cs && Steps(ps, a, b, n)
    ensures Steps(cs, a, b, m) && (n > 0 ==> m > 0)
    decreases n
  {
    if n == 0 {
      m := 0;
    } else {
      var k, v, j := FirstKept(ps, keep, a, b, n);
      assert Reached(ps, keep, k, b) && k in cs[b];
      ViaIsSteps(ps, keep, k, b, v);
      StepsStayInside(ps, ps.Keys, k, b, v);
      m := ContractedComplete(ps, keep, cs, a, k, j);
      StepsEdge(cs, k, b);
      StepsCompose(cs, a, k, b, m, 1);
      m := m + 1;
    }
  }

  lemma StepsEdge(ps: Parents, p: Oid, b: Oid)
    requires b in ps && p in ps[b]
    ensures Steps(ps, p, b, 1)
  {
    assert Steps(ps, p, p, 0);
  }

  /** Contraction is invisible to causality between survivors, and the result is again a graph. */
  lemma ContractionPreservesPrecedence(ps: Parents, keep: set<Oid>, cs: Parents)
    requires WellFormed(ps) && Contracted(ps, keep, cs)
    ensures WellFormed(cs)
    ensures forall a, b :: a in cs && b in cs ==> (Precedes(cs, a, b) <==> Precedes(ps, a, b))
  {
    forall a, b | a in cs && b in cs ensures Precedes(cs, a, b) <==> Precedes(ps, a, b) {
      if n: nat :| n > 0 && Steps(cs, a, b, n) {
        var m := ContractedSound(ps, keep, cs, a, b, n);
      }
      if n: nat :| n > 0 && Steps(ps, a, b, n) {
        var m := ContractedComplete(ps, keep, cs, a, b, n);
      }
    }
    ContractionWellFormed(ps, keep, cs);
  }

  lemma ContractionWellFormed(ps: Parents, keep: set<Oid>, cs: Parents)
    requires WellFormed(ps) && Contracted(ps, keep, cs)
    ensures WellFormed(cs)
  {
    var rank :| Ranked(ps, rank);
    forall o, p | o in cs && p in cs[o] ensures p in cs {
      ContractedEdge(ps, rank, keep, cs, p, o);
    }
    forall o, p | o in cs && p in cs[o] ensures Below(rank, p, o) {
      ContractedEdge(ps, rank, keep, cs, p, o);
    }
    assert Ranked(cs, rank);
  }

  lemma ContractedEdge(ps: Parents, rank: map<Oid, nat>, keep: set<Oid>, cs: Parents, p: Oid, o: Oid)
    requires Closed(ps) && Ranked(ps, rank) && Contracted(ps, keep, cs) && o in cs && p in cs[o]
    ensures p in cs && Below(rank, p, o)
  {
    assert Reached(ps, keep, p, o);
    var n: nat :| Via(ps, keep, p, o, n);
    ViaIsSteps(ps, keep, p, o, n);
    StepsRank(ps, rank, p, o, n);
    StepsStayInside(ps, ps.Keys, p, o, n);
  }

  lemma {:induction false} ViaExtend(ps: Parents, keep: set<Oid>, p: Oid, x: Oid, b: Oid, n: nat)
    requires Via(ps, keep, x, b, n) && x !in keep && x in ps && p in ps[x]
    ensures Via(ps, keep, p, b, n + 1)
    decreases n
  {
    var q :| q in ps[b] && if n == 1 then x == q else q !in keep && Via(ps, keep, x, q, n - 1);
    if n == 1 {
      assert Via(ps, keep, p, x, 1);
    } else {
      ViaExtend(ps, keep, p, x, q, n - 1);
    }
  }

  lemma {:induction false} ViaInside(ps: Parents, keep: set<Oid>, s: set<Oid>, a: Oid, b: Oid, n: nat)
    requires Via(ps, keep, a, b, n) && ps[b] <= s
    requires forall x :: x in s && x in ps && x !in keep ==> ps[x] <= s
    ensures a in s
    decreases n
  {
    var p :| p in ps[b] && if n == 1 then a == p else p !in keep && Via(ps, keep, a, p, n - 1);
    if n > 1 {
      ViaInside(ps, keep, s, a, p, n - 1);
    }
  }

  /** `t` holds the parents of `b` and, with every dropped node, that node's parents. */
  ghost predicate Saturated(ps: Parents, keep: set<Oid>, b: Oid, t: set<Oid>)
    requires b in ps
  {
    t <= ps.Keys && ps[b] <= t && forall x :: x in t && x !in keep ==> ps[x] <= t
  }

  /** The least saturated set: what is reachable from `b` through dropped nodes. */
  ghost function Touched(ps: Parents, keep: set<Oid>, b: Oid): (t: set<Oid>)
    requires Closed(ps) && b in ps
    ensures Saturated(ps, keep, b, t)
  {
    var t := set x | x in ps && Reached(ps, keep, x, b);
    forall p | p in ps[b] ensures p in t {
      assert Via(ps, keep, p, b, 1);
    }
    forall x | x in t && x !in keep ensures ps[x] <= t {
      TouchThrough(ps, keep, b, x);
    }
    t
  }

  lemma TouchThrough(ps: Parents, keep: set<Oid>, b: Oid, x: Oid)
    requires x in ps && x !in keep && Reached(ps, keep, x, b)
    ensures forall p :: p in ps[x] ==> Reached(ps, keep, p, b)
  {
    var n: nat :| Via(ps, keep, x, b, n);
    forall p | p in ps[x] ensures Reached(ps, keep, p, b) {
      ViaExtend(ps, keep, p, x, b, n);
    }
  }

  lemma TouchedLeast(ps: Parents, keep: set<Oid>, b: Oid, s: set<Oid>)
    requires Closed(ps) && b in ps && Saturated(ps, keep, b, s)
    ensures Touched(ps, keep, b) <= s
  {
    forall x | x in Touched(ps, keep, b) ensures x in s {
      var n: nat :| Via(ps, keep, x, b, n);
      ViaInside(ps, keep, s, x, b, n);
    }
  }

  lemma TouchedIsReached(ps: Parents, keep: set<Oid>, b: Oid, a: Oid)
    requires Closed(ps) && b in ps
    ensures a in Touched(ps, keep, b) <==> Reached(ps, keep, a, b)
  {
    if n: nat :| Via(ps, keep, a, b, n) {
      ViaIsSteps(ps, keep, a, b, n);
      StepsStayInside(ps, ps.Keys, a, b, n);
    }
  }

  /** Every edge out of `b` and out of a visited dropped node leads to a visited or a queued node. */
  ghost predicate Explored(ps: Parents, keep: set<Oid>, b: Oid, seen: set<Oid>, queued: set<Oid>)
    requires b in ps
  {
    ps[b] <= seen + queued && forall x :: x in seen && x in ps && x !in keep ==> ps[x] <= seen + queued
  }

  /** The worklist, against any saturated set `t`. */
  method Explore(ps: Parents, keep: set<Oid>, b: Oid, ghost t: set<Oid>) returns (seen: set<Oid>, out: set<Oid>)
    requires Closed(ps) && b in ps && Saturated(ps, keep, b, t)
    ensures seen <= t && Saturated(ps, keep, b, seen)
    ensures forall a :: a in out <==> a in seen && a in keep
  {
    out, seen := {}, {};
    ElementsAppend([], ps[b]);
    var stack := [] + Ascending(ps[b]);
    ghost var left := |t|;
    while stack != []
      invariant seen <= t && Elements(stack) <= t
      invariant Explored(ps, keep, b, seen, Elements(stack))
      invariant forall a :: a in out <==> a in seen && a in keep
      invariant left == |t - seen|
      decreases left, |stack|
    {
      var cur := stack[|stack| - 1];
      stack := stack[..|stack| - 1];
      if cur in seen {
        continue;
      }
      OneLess(t, seen, cur);
      seen, left := seen + {cur}, left - 1;
      if cur !in keep {
        ElementsAppend(stack, ps[cur]);
        stack := stack + Ascending(ps[cur]);
      } else {
        out := out + {cur};
      }
    }
  }

  /** The inner worklist of contraction: the nearest surviving ancestors of `b`. */
  method Rewire(ps: Parents, keep: set<Oid>, b: Oid) returns (out: set<Oid>)
    requires Closed(ps) && b in ps
    ensures AreNearest(ps, keep, out, b)
  {
    ghost var t := Touched(ps, keep, b);
    var seen;
    seen, out := Explore(ps, keep, b, t);
    TouchedLeast(ps, keep, b, seen);
    assert seen == t;
    forall a ensures a in out <==> a in keep && Reached(ps, keep, a, b) {
      TouchedIsReached(ps, keep, b, a);
    }
  }

  ghost predicate Resolved(ps: Parents, keep: set<Oid>, cs: Parents) {
    forall b :: b in cs ==> AreNearest(ps, keep, cs[b], b)
  }

  /** The rewired parent table of every survivor. */
  method RewireAll(ps: Parents, keep: set<Oid>) returns (cs: Parents)
    requires WellFormed(ps)
    ensures Contracted(ps, keep, cs)
  {
    cs := map[];
    var todo := ps.Keys * keep;
    while todo != {}
      invariant forall b :: b in todo ==> b in ps
      invariant cs.Keys + todo == ps.Keys * keep
      invariant Resolved(ps, keep, cs)
      decreases |todo|
    {
      var b := Least(todo);
      var out := Rewire(ps, keep, b);
      cs, todo := cs[b := out], todo - {b};
    }
  }
}
