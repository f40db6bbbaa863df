/** The loops that evaluate a roster (crates/cfr-core/src/membership.rs), proved against Membership. */
module RosterLoops {
  import opened Base
  import opened Ops
  import opened Graph
  import opened Membership
  import opened DagModule
  import opened Topological

  /** The ballots seen so far: one per author, the lowest identifier. */
  ghost predicate Tally(b: Basis, keep: set<Oid>, target: Id, todo: set<Oid>, votes: map<Id, Oid>) {
    && (forall a :: a in votes ==>
        Ballot(b, keep, target, votes[a]) && b.h.ops[votes[a]].author == a && votes[a] !in todo)
    && (forall o :: Ballot(b, keep, target, o) && o !in todo ==>
          b.h.ops[o].author in votes && votes[b.h.ops[o].author] <= o)
  }

  lemma TallyComplete(b: Basis, keep: set<Oid>, target: Id, votes: map<Id, Oid>)
    requires Tally(b, keep, target, {}, votes)
    ensures votes.Keys == Voters(b, keep, target)
    ensures forall o :: o in votes.Values <==> Vote(b, keep, target, o)
  {
    forall a ensures a in votes <==> a in Voters(b, keep, target) {
      if a in votes {
        assert Ballot(b, keep, target, votes[a]);
      }
    }
    forall o ensures o in votes.Values <==> Vote(b, keep, target, o) {
      if Vote(b, keep, target, o) {
        var a := b.h.ops[o].author;
        assert a in votes && votes[a] == o;
      }
    }
  }

  ghost predicate ProvenSoFar(b: Basis, keep: set<Oid>, target: Id, todo: set<Oid>, proven: set<Oid>) {
    forall o :: o in proven <==> Proven(b, keep, target, o) && o !in todo
  }

  ghost predicate Behind(b: Basis, todo: set<Oid>) {
    todo <= b.h.ops.Keys && forall x, y :: x in b.h.ops && x !in todo && y in todo ==> x < y
  }

  /** The loop body for one operation. */
  method CountOne(b: Basis, keep: set<Oid>, target: Id, ghost todo: set<Oid>, o: Oid, proven0: set<Oid>,
                  votes0: map<Id, Oid>)
    returns (proven: set<Oid>, votes: map<Id, Oid>)
    requires Behind(b, todo) && o in todo && forall x :: x in todo ==> o <= x
    requires ProvenSoFar(b, keep, target, todo, proven0) && Tally(b, keep, target, todo, votes0)
    ensures ProvenSoFar(b, keep, target, todo - {o}, proven) && Tally(b, keep, target, todo - {o}, votes)
  {
    proven, votes := proven0, votes0;
    if Proven(b, keep, target, o) {
      proven := proven + {o};
    } else if Ballot(b, keep, target, o) {
      if b.h.ops[o].author !in votes {
        votes := votes[b.h.ops[o].author := o];
      }
    }
  }

  /** One ascending pass over the operations. */
  method Count(b: Basis, keep: set<Oid>, target: Id) returns (proven: set<Oid>, votes: map<Id, Oid>)
    ensures ProvenSoFar(b, keep, target, {}, proven) && Tally(b, keep, target, {}, votes)
  {
    votes, proven := map[], {};
    var todo := b.h.ops.Keys;
    while todo != {}
      invariant Behind(b, todo)
      invariant ProvenSoFar(b, keep, target, todo, proven)
      invariant Tally(b, keep, target, todo, votes)
      decreases |todo|
    {
      var o := Least(todo);
      proven, votes := CountOne(b, keep, target, todo, o, proven, votes);
      todo := todo - {o};
    }
  }

  /** The removals that count: proven ones, and the ballots once they reach the quorum. */
  method CountedRemoves(b: Basis, keep: set<Oid>, target: Id) returns (counted: set<Oid>)
    ensures forall o :: o in counted <==> Counted(b, keep, target, o)
  {
    var proven, votes := Count(b, keep, target);
    TallyComplete(b, keep, target, votes);
    assert |votes| == |votes.Keys|;
    counted := proven;
    if |votes| >= b.policy.quorum {
      counted := counted + votes.Values;
    }
  }

  /** Whether one admission of `who` has every counted removal in its past. */
  method Alive(dag: Dag, b: Basis, keep: set<Oid>, who: Id, counted: set<Oid>) returns (r: bool)
    requires dag.Valid() && dag.View() == b.h
    requires forall o :: o in counted <==> Counted(b, keep, who, o)
    modifies dag`cache
    ensures dag.Valid()
    ensures r <==> Member(b, keep, who)
  {
    var todo := set a | a in b.h.ops && Admission(b, keep, who, a);
    r := false;
    while todo != {} && !r
      invariant dag.Valid() && dag.View() == b.h
      invariant r ==> Member(b, keep, who)
      invariant !r ==> forall a :: Admission(b, keep, who, a) && Survives(b, keep, who, a) ==> a in todo
      invariant forall a :: a in todo ==> Admission(b, keep, who, a)
      decreases |todo|
    {
      var a := Least(todo);
      r := AllBefore(dag, counted, a);
      assert r <==> Survives(b, keep, who, a);
      todo := todo - {a};
    }
  }

  method AllBefore(dag: Dag, removes: set<Oid>, a: Oid) returns (r: bool)
    requires dag.Valid()
    modifies dag`cache
    ensures dag.Valid()
    ensures r <==> forall x :: x in removes ==> Precedes(dag.parents, x, a)
  {
    var todo := removes;
    r := true;
    while todo != {} && r
      invariant dag.Valid()
      invariant todo <= removes
      invariant r ==> forall x :: x in removes && x !in todo ==> Precedes(dag.parents, x, a)
      invariant !r ==> exists x :: x in removes && !Precedes(dag.parents, x, a)
      decreases |todo|
    {
      var x := Least(todo);
      r := dag.PrecedesIn(x, a);
      todo := todo - {x};
    }
  }

  /** The roster over the operations in `keep`. */
  method MembersIn(dag: Dag, b: Basis, keep: set<Oid>) returns (live: set<Id>)
    requires dag.Valid() && dag.View() == b.h
    modifies dag`cache
    ensures dag.Valid()
    ensures live == Roster(b, keep)
  {
    var admitted := set a | a in b.h.ops && a in keep && b.h.ops[a].body.Add? :: b.h.ops[a].body.who;
    live := {};
    var todo := admitted;
    while todo != {}
      invariant dag.Valid() && dag.View() == b.h
      invariant forall x :: x in live <==> x in admitted && x !in todo && Member(b, keep, x)
      decreases |todo|
    {
      var who := Least(todo);
      var counted := CountedRemoves(b, keep, who);
      var alive := Alive(dag, b, keep, who, counted);
      if alive {
        live := live + {who};
      }
      todo := todo - {who};
    }
    forall who ensures who in live <==> who in Roster(b, keep) {
      RosterIs(b, keep, who);
    }
  }

  /** The dependencies of `op` that are present, with their pasts and the past of `op` itself. */
  method PastOf(dag: Dag, op: Op) returns (past: set<Oid>)
    requires dag.Valid()
    modifies dag`cache
    ensures dag.Valid()
    ensures past == DeclaredPast(dag.View(), op)
  {
    ElementsAscending(op.deps);
    past := dag.CausalClosure(Ascending(op.deps));
    if op.oid in dag.ops {
      var more := dag.Ancestors(op.oid);
      past := past + more;
    } else {
      NothingPrecedesUnknown(dag.parents, op.oid);
      assert Past(dag.parents, op.oid) == {};
    }
  }

  /** The authorisation basis, evaluated on the full graph. */
  method MembersBeforeFast(dag: Dag, policy: Policy, guilty: set<Id>, op: Op) returns (live: set<Id>)
    requires dag.Valid()
    modifies dag`cache
    ensures dag.Valid()
    ensures live == MembersBefore(Basis(dag.View(), policy, guilty), op)
  {
    var past := PastOf(dag, op);
    live := MembersIn(dag, Basis(History(dag.ops, dag.parents), policy, guilty), past);
  }

  /** The same roster by rebuilding the past as a graph of its own. */
  method MembersBeforeReference(dag: Dag, policy: Policy, guilty: set<Id>, op: Op) returns (live: set<Id>)
    requires dag.Valid() && Signed(dag.View())
    modifies dag`cache
    ensures dag.Valid()
    ensures live == MembersBefore(Basis(dag.View(), policy, guilty), op)
  {
    var past := PastOf(dag, op);
    DeclaredPastIsDownClosed(dag.View(), op);
    var order := dag.TopologicalOrder();
    var sub := Rebuild(History(dag.ops, dag.parents), order, past);
    FilteredEqualsInduced(Basis(dag.View(), policy, guilty), past);
    live := MembersIn(sub, Basis(History(sub.ops, sub.parents), policy, guilty), sub.ops.Keys);
  }

  lemma InducedGrows(h: History, s: set<Oid>, o: Oid)
    requires Signed(h) && o in h.ops && o !in s && h.ops[o].deps <= s
    ensures var sub := Induced(h, s);
            o !in sub.ops &&
            Induced(h, s + {o}) == History(sub.ops[o := h.ops[o]], sub.parents[o := h.ops[o].deps * sub.ops.Keys])
  {
    var sub := Induced(h, s);
    assert h.ops[o].deps * sub.ops.Keys == h.ops[o].deps by {
      assert Closed(h.parents) && h.parents[o] == h.ops[o].deps;
    }
    assert Induced(h, s + {o}).ops == sub.ops[o := h.ops[o]];
    assert Induced(h, s + {o}).parents == sub.parents[o := h.parents[o]];
  }

  lemma ReplayedNext(h: History, past: set<Oid>, order: seq<Oid>, i: nat)
    requires Signed(h) && DownClosed(h.parents, past) && IsTopological(h.parents, order) && i < |order|
    ensures order[i] in h.ops && h.ops[order[i]].oid == order[i] && i < |h.ops|
    ensures order[i] !in Replayed(past, order, i)
    ensures Replayed(past, order, i + 1) == Replayed(past, order, i) + (if order[i] in past then {order[i]} else {})
    ensures order[i] in past ==> h.ops[order[i]].deps <= Replayed(past, order, i)
  {
    TakeOne(order, i);
    ElementsPush(order[..i], order[i]);
    NoRepeatsSize(order);
    NoRepeatsPrefix(order, i + 1);
    assert order[..i + 1][..i] == order[..i];
    assert order[i] in order;
    ElementsAre(order);
  }

  lemma {:induction false} NoRepeatsPrefix(s: seq<Oid>, i: nat)
    requires NoRepeats(s) && i <= |s|
    ensures NoRepeats(s[..i])
    decreases |s| - i
  {
    if i == |s| {
      TakeAll(s);
    } else {
      NoRepeatsPrefix(s, i + 1);
      assert s[..i + 1][..i] == s[..i];
    }
  }

  /** Replays a causally closed set into a fresh graph in topological order. */
  method Rebuild(h: History, order: seq<Oid>, past: set<Oid>) returns (sub: Dag)
    requires Signed(h) && |h.ops| <= MAX_OPS && DownClosed(h.parents, past) && IsTopological(h.parents, order)
    ensures fresh(sub) && sub.Valid()
    ensures sub.View() == Induced(h, past)
  {
    sub := new Dag();
    for i := 0 to |order|
      invariant fresh(sub) && sub.Valid()
      invariant sub.View() == Induced(h, Replayed(past, order, i))
      invariant |sub.ops| <= i
    {
      ReplayNext(sub, h, past, order, i);
    }
    TakeAll(order);
    assert Replayed(past, order, |order|) == past;
  }

  ghost function Replayed(past: set<Oid>, order: seq<Oid>, i: nat): (s: set<Oid>)
    requires i <= |order|
  {
    past * Elements(order[..i])
  }

  method ReplayNext(sub: Dag, h: History, past: set<Oid>, order: seq<Oid>, i: nat)
    requires Signed(h) && |h.ops| <= MAX_OPS && DownClosed(h.parents, past) && IsTopological(h.parents, order)
    requires i < |order| && sub.Valid() && sub.View() == Induced(h, Replayed(past, order, i)) && |sub.ops| <= i
    modifies sub
    ensures sub.Valid() && sub.View() == Induced(h, Replayed(past, order, i + 1)) && |sub.ops| <= i + 1
  {
    var o := order[i];
    ReplayedNext(h, past, order, i);
    if o in past {
      Replay(sub, h, Replayed(past, order, i), h.ops[o]);
    }
  }

  method Replay(sub: Dag, ghost h: History, ghost done: set<Oid>, op: Op)
    requires sub.Valid() && Signed(h) && op.oid in h.ops && h.ops[op.oid] == op && |sub.ops| < MAX_OPS
    requires op.oid !in done && op.deps <= done && sub.View() == Induced(h, done)
    modifies sub
    ensures sub.Valid() && sub.View() == Induced(h, done + {op.oid}) && |sub.ops| == |old(sub.ops)| + 1
  {
    InducedGrows(h, done, op.oid);
    var r := sub.Add(op);
  }
}
