/** Kahn ordering of the graph (crates/cfr-core/src/dag.rs, `topological`). */
module Topological {
  import opened Base
  import opened Ops
  import opened Graph

  ghost predicate NoRepeats(s: seq<Oid>) {
    s == [] || (s[|s| - 1] !in Elements(s[..|s| - 1]) && NoRepeats(s[..|s| - 1]))
  }

  lemma NoRepeatsPush(s: seq<Oid>, x: Oid)
    requires NoRepeats(s) && x !in Elements(s)
    ensures NoRepeats(s + [x])
  {
    assert (s + [x])[..|s|] == s;
  }

  lemma {:induction false} NoRepeatsSize(s: seq<Oid>)
    requires NoRepeats(s)
    ensures |Elements(s)| == |s|
  {
    if s != [] {
      NoRepeatsSize(s[..|s| - 1]);
    }
  }

  lemma {:induction false} AscendingNoRepeats(s: seq<nat>)
    requires StrictlyAscending(s)
    ensures NoRepeats(s)
  {
    if s != [] {
      AscendingNoRepeats(s[..|s| - 1]);
      ElementsAre(s[..|s| - 1]);
    }
  }

  /** Every element comes after all of its parents. */
  ghost predicate ParentsFirst(ps: Parents, s: seq<Oid>) {
    forall i :: 0 <= i < |s| ==> s[i] in ps && ps[s[i]] <= Elements(s[..i])
  }

  lemma ParentsFirstPush(ps: Parents, s: seq<Oid>, x: Oid)
    requires ParentsFirst(ps, s) && x in ps && ps[x] <= Elements(s)
    ensures ParentsFirst(ps, s + [x])
  {
    var t := s + [x];
    forall i | 0 <= i < |t| ensures t[i] in ps && ps[t[i]] <= Elements(t[..i]) {
      if i < |s| {
        assert t[..i] == s[..i];
      } else {
        assert t[..i] == s;
      }
    }
  }

  /** A listing of all nodes, each once, parents before children. */
  ghost predicate IsTopological(ps: Parents, s: seq<Oid>) {
    NoRepeats(s) && Elements(s) == ps.Keys && ParentsFirst(ps, s)
  }

  /** The children of `p` in the order the child table lists them. */
  function Children(ps: Parents, p: Oid): (r: seq<Oid>)
    ensures forall c :: c in r <==> c in ps && p in ps[c]
  {
    Ascending(set c | c in ps && p in ps[c])
  }

  /** The in-degree table counts the parents not yet emitted. */
  ghost predicate Counts(ps: Parents, indeg: map<Oid, nat>, done: set<Oid>) {
    indeg.Keys == ps.Keys && forall o :: o in ps ==> indeg[o] == |ps[o] - done|
  }

  /** Exactly the nodes without pending parents have been emitted or are ready. */
  ghost predicate ReadyExact(indeg: map<Oid, nat>, out: set<Oid>, ready: seq<Oid>) {
    && NoRepeats(ready)
    && (forall o :: o in Elements(ready) ==> o in indeg && indeg[o] == 0 && o !in out)
    && (forall o :: o in out ==> o in indeg && indeg[o] == 0)
    && (forall o :: o in indeg && indeg[o] == 0 ==> o in out || o in Elements(ready))
  }

  lemma ReadyGrows(indeg: map<Oid, nat>, out: set<Oid>, ready: seq<Oid>, c: Oid)
    requires c in indeg && indeg[c] > 0 && ReadyExact(indeg, out, ready)
    ensures indeg[c] == 1 ==> ReadyExact(indeg[c := 0], out, ready + [c])
    ensures indeg[c] > 1 ==> ReadyExact(indeg[c := indeg[c] - 1], out, ready)
  {
    NoRepeatsPush(ready, c);
    ElementsPush(ready, c);
  }

  /** The in-degree table while the first children of `cur` have been visited. */
  ghost predicate Halfway(ps: Parents, indeg: map<Oid, nat>, done: set<Oid>, cur: Oid, visited: set<Oid>) {
    && indeg.Keys == ps.Keys
    && forall o :: o in ps ==> indeg[o] == if o in visited then |ps[o] - (done + {cur})| else |ps[o] - done|
  }

  lemma VisitChild(ps: Parents, indeg: map<Oid, nat>, done: set<Oid>, cur: Oid, visited: set<Oid>, c: Oid)
    requires Halfway(ps, indeg, done, cur, visited)
    requires c in ps && cur in ps[c] && cur !in done && c !in visited
    ensures indeg[c] > 0
    ensures Halfway(ps, indeg[c := indeg[c] - 1], done, cur, visited + {c})
  {
    OneLess(ps[c], done, cur);
  }

  /** The loop over the children of one emitted node. */
  method Release(ps: Parents, indeg0: map<Oid, nat>, cur: Oid, ghost done: set<Oid>, ready0: seq<Oid>)
    returns (indeg: map<Oid, nat>, ready: seq<Oid>)
    requires cur !in done && Counts(ps, indeg0, done) && ReadyExact(indeg0, done + {cur}, ready0)
    ensures Counts(ps, indeg, done + {cur})
    ensures ReadyExact(indeg, done + {cur}, ready)
  {
    indeg, ready := indeg0, ready0;
    var cs := Children(ps, cur);
    for j := 0 to |cs|
      invariant Halfway(ps, indeg, done, cur, Elements(cs[..j]))
      invariant ReadyExact(indeg, done + {cur}, ready)
    {
      var c := cs[j];
      assert c in cs && c !in cs[..j];
      ElementsAre(cs[..j]);
      VisitChild(ps, indeg, done, cur, Elements(cs[..j]), c);
      TakeOne(cs, j);
      ElementsPush(cs[..j], c);
      ReadyGrows(indeg, done + {cur}, ready, c);
      indeg := indeg[c := indeg[c] - 1];
      if indeg[c] == 0 {
        ready := ready + [c];
      }
    }
    TakeAll(cs);
    AllVisited(ps, indeg, done, cur);
  }

  lemma AllVisited(ps: Parents, indeg: map<Oid, nat>, done: set<Oid>, cur: Oid)
    requires Halfway(ps, indeg, done, cur, Elements(Children(ps, cur)))
    ensures Counts(ps, indeg, done + {cur})
  {
    ElementsAre(Children(ps, cur));
    forall o | o in ps && o !in Elements(Children(ps, cur)) ensures ps[o] - done == ps[o] - (done + {cur}) {
    }
  }

  lemma NothingLeft(ps: Parents, indeg: map<Oid, nat>, done: set<Oid>)
    requires WellFormed(ps) && Counts(ps, indeg, done) && ReadyExact(indeg, done, [])
    ensures done == ps.Keys
  {
    var rank :| Ranked(ps, rank);
    forall o | o in ps && ps[o] <= done ensures o in done {
      assert ps[o] - done == {};
    }
    forall o | o in ps ensures o in done {
      Emitted(ps, rank, done, o);
    }
  }

  lemma {:induction false} Emitted(ps: Parents, rank: map<Oid, nat>, done: set<Oid>, o: Oid)
    requires Closed(ps) && Ranked(ps, rank) && o in ps
    requires forall x :: x in ps && ps[x] <= done ==> x in done
    ensures o in done
    decreases if o in rank then rank[o] else 0
  {
    forall p | p in ps[o] ensures p in done {
      Emitted(ps, rank, done, p);
    }
  }

  ghost predicate Emitting(ps: Parents, indeg: map<Oid, nat>, out: seq<Oid>, ready: seq<Oid>) {
    && Counts(ps, indeg, Elements(out)) && ReadyExact(indeg, Elements(out), ready)
    && NoRepeats(out) && ParentsFirst(ps, out)
  }

  lemma InitiallyReady(indeg: map<Oid, nat>, zero: set<Oid>)
    requires forall o :: o in zero <==> o in indeg && indeg[o] == 0
    ensures ReadyExact(indeg, {}, Ascending(zero))
  {
    AscendingNoRepeats(Ascending(zero));
    ElementsAre(Ascending(zero));
  }

  lemma InitialCounts(ps: Parents, indeg: map<Oid, nat>)
    requires indeg.Keys == ps.Keys && forall o :: o in ps ==> indeg[o] == |ps[o]|
    ensures Counts(ps, indeg, {})
  {
    forall o | o in ps ensures ps[o] - {} == ps[o] {
    }
  }

  /** One turn of the main loop: pop a ready node, emit it and release its children. */
  method Emit(ps: Parents, indeg0: map<Oid, nat>, out0: seq<Oid>, ready0: seq<Oid>)
    returns (indeg: map<Oid, nat>, out: seq<Oid>, ready: seq<Oid>)
    requires ready0 != [] && Emitting(ps, indeg0, out0, ready0)
    ensures Emitting(ps, indeg, out, ready)
    ensures |ps.Keys - Elements(out)| < |ps.Keys - Elements(out0)|
  {
    var cur := ready0[|ready0| - 1];
    ghost var done := Elements(out0);
    OneLess(ps.Keys, done, cur);
    assert ps[cur] - done == {};
    NoRepeatsPush(out0, cur);
    ParentsFirstPush(ps, out0, cur);
    ElementsPush(out0, cur);
    indeg, ready := Release(ps, indeg0, cur, done, ready0[..|ready0| - 1]);
    out := out0 + [cur];
  }

  /** Kahn's algorithm: a permutation of all nodes in which every node follows its parents. The
    * in-degree table is of type `nat`, so no decrement can underflow. */
  method Order(ps: Parents) returns (out: seq<Oid>)
    requires WellFormed(ps)
    ensures IsTopological(ps, out)
  {
    var indeg: map<Oid, nat> := map o | o in ps :: |ps[o]|;
    var ready := Ascending(set o | o in indeg && indeg[o] == 0);
    out := [];
    InitialCounts(ps, indeg);
    InitiallyReady(indeg, set o | o in indeg && indeg[o] == 0);
    while ready != []
      invariant Emitting(ps, indeg, out, ready)
      decreases |ps.Keys - Elements(out)|
    {
      indeg, out, ready := Emit(ps, indeg, out, ready);
    }
    NothingLeft(ps, indeg, Elements(out));
  }
}
