/** Contributing entropy, absorbing it, and evicting with an immediate rekey
  * (crates/cfr-core/src/member.rs, `contribute_excluding`, `absorb`, `remove`, `removal_complete`). */
module Contribution {
  import opened Base
  import opened Ops
  import opened Graph
  import opened Membership
  import opened Frontier
  import opened DagModule
  import opened Replica
  import opened Convergence
  import opened Keys

  const MAX_RECIPIENTS: nat := 256

  /** A participant with its key material. `reachable` holds the identities with a send channel or a
    * known prekey. */
  datatype Keyed = Keyed(r: Replica, window: Window, absorbed: set<Oid>, missing: set<Oid>, reachable: set<Id>,
                         seed0: Secret)

  datatype Absorption = Absorption(outcome: AbsorbOutcome, s: Keyed)
  datatype AbsorbOutcome = Done | Equivocation | MissingKeys | NotAContribution

  /** Folds an opened contribution secret into the node keys. */
  function Absorb(k: Kdf, s: Keyed, op: Op, x: Secret): (a: Absorption) {
    if !op.body.Contrib? then Absorption(NotAContribution, s)
    else if op.oid in s.absorbed then Absorption(Done, s)
    else if k.commit(x) != op.body.cid then Absorption(Equivocation, s)
    else match Combine(s.window.keys, op.body.cparents)
      case None => Absorption(MissingKeys, s.(missing := s.missing + {op.oid}))
      case Some(parent) => Absorption(Done, s.(
        window := Insert(s.window, op.oid, NodeKey(k, x, parent, op.oid)),
        absorbed := s.absorbed + {op.oid},
        missing := s.missing - {op.oid}))
  }

  ghost function CurrentTips(s: Keyed): (f: set<Oid>) {
    Tips(HistoryOf(s.r.ops))
  }

  ghost function CurrentMembers(s: Keyed): (m: set<Id>) {
    Members(BasisOf(s.r))
  }

  ghost function CurrentKey(k: Kdf, s: Keyed): (x: Option<Secret>) {
    GroupKey(k, s.seed0, CurrentTips(s), k.root(CurrentMembers(s)), s.window.keys)
  }

  /** Frontier nodes to chain onto: all but those that are underivable and whose author has left. */
  ghost function Chainable(s: Keyed): (f: set<Oid>) {
    set o | o in CurrentTips(s) && (o in s.window.keys || o !in s.r.ops || s.r.ops[o].author in CurrentMembers(s))
  }

  datatype Attempt =
    | NotParticipating
    | TooLarge
    | MissingNodeKeys
    | GraphFull
    | Requested(s: Keyed)
    | Contributed(s: Keyed, op: Op)

  /** What the signer chooses for one attempt: the secret, the sealed slices and the identifier and
    * signature of whichever operation results. */
  datatype Choice = Choice(secret: Secret, slices: seq<Slice>, oid: Oid, sig: nat)

  ghost function Stored(s: Keyed, op: Op): (t: Keyed) {
    s.(r := s.r.(ops := s.r.ops[op.oid := op]))
  }

  ghost function ContributeExcluding(k: Kdf, s: Keyed, exclude: set<Id>, c: Choice): (a: Attempt) {
    var members := CurrentMembers(s);
    var recips := members - {s.r.me} - exclude;
    if s.r.me !in members then NotParticipating
    else if |recips| > MAX_RECIPIENTS then TooLarge
    else if !(recips <= s.reachable) then
      if |s.r.ops| >= MAX_OPS then GraphFull
      else Requested(Stored(s, Sign(s.r, Draft(c.oid, PrekeyRequest(Ascending(recips - s.reachable)), c.sig))))
    else if Combine(s.window.keys, Chainable(s)) == None then MissingNodeKeys
    else if |s.r.ops| >= MAX_OPS then GraphFull
    else
      var body := Contrib(k.commit(c.secret), Chainable(s), Ascending(recips), c.slices, k.root(members));
      var op := Sign(s.r, Draft(c.oid, body, c.sig));
      Contributed(Absorb(k, Stored(s, op), op, c.secret).s, op)
  }

  /** The identifier of the operation to be signed is new. */
  ghost predicate Fresh(s: Keyed, c: Choice) {
    c.oid !in s.r.ops && c.oid !in s.absorbed
  }

  /** A contribution leaves the roster as it was. */
  lemma ContributionKeepsRoster(r: Replica, op: Op)
    requires Signed(HistoryOf(r.ops)) && op.oid !in r.ops && op.deps <= r.ops.Keys && Neutral(op.body)
    ensures Members(BasisOf(r.(ops := r.ops[op.oid := op]))) == Members(BasisOf(r))
  {
    AddSigned(r.ops, op);
    var b := BasisOf(r.(ops := r.ops[op.oid := op]));
    assert PartOf(HistoryOf(r.ops), b.h);
    assert b.(h := HistoryOf(r.ops)) == BasisOf(r);
    forall who ensures who in Members(b) <==> who in Members(BasisOf(r)) {
      RosterIgnoresPublications(b, HistoryOf(r.ops), who);
    }
  }

  lemma AbsorbOwn(k: Kdf, s: Keyed, op: Op, x: Secret)
    requires ValidWindow(s.window) && op.body.Contrib? && op.oid !in s.absorbed && op.body.cid == k.commit(x)
    requires Combine(s.window.keys, op.body.cparents).Some?
    ensures var a := Absorb(k, s, op, x);
      && a.outcome == Done && a.s.r == s.r && a.s.seed0 == s.seed0 && ValidWindow(a.s.window)
      && op.oid in a.s.window.keys
      && a.s.window.keys[op.oid] == NodeKey(k, x, Combine(s.window.keys, op.body.cparents).value, op.oid)
  {
    InsertKeeps(s.window, op.oid, NodeKey(k, x, Combine(s.window.keys, op.body.cparents).value, op.oid));
  }

  /** A successful contribution becomes the whole frontier and has everything known before in its past. The
    * roster is unchanged and the group key is derivable: it is derived from the fresh secret chained onto
    * the combined key of the frontier it replaces. */
  lemma ContributionDominates(k: Kdf, s: Keyed, exclude: set<Id>, c: Choice)
    requires Signed(HistoryOf(s.r.ops)) && ValidWindow(s.window) && Fresh(s, c)
    requires ContributeExcluding(k, s, exclude, c).Contributed?
    ensures var a := ContributeExcluding(k, s, exclude, c);
      && CurrentTips(a.s) == {c.oid}
      && Past(Deps(a.s.r.ops), c.oid) == s.r.ops.Keys
      && a.s.r == s.r.(ops := s.r.ops[c.oid := a.op])
      && CurrentMembers(a.s) == CurrentMembers(s)
      && Combine(s.window.keys, Chainable(s)).Some?
      && CurrentKey(k, a.s) == Some(k.group(s.seed0,
           NodeKey(k, c.secret, Combine(s.window.keys, Chainable(s)).value, c.oid), k.root(CurrentMembers(s)), {c.oid}))
  {
    var a := ContributeExcluding(k, s, exclude, c);
    ContributedShape(k, s, exclude, c);
    ContributedGraph(s.r, a.op);
    KeyOfOneTip(k, a.s, c.oid);
  }

  /** The published operation and the new state, spelled out. */
  lemma ContributedShape(k: Kdf, s: Keyed, exclude: set<Id>, c: Choice)
    requires ValidWindow(s.window) && Fresh(s, c)
    requires ContributeExcluding(k, s, exclude, c).Contributed?
    ensures var a := ContributeExcluding(k, s, exclude, c);
      && a.op.oid == c.oid && a.op.author == s.r.me && a.op.deps == Heads(Deps(s.r.ops)) && a.op.body.Contrib?
      && a.op.body.cparents == Chainable(s)
      && (forall x :: x in a.op.body.recips <==> x in CurrentMembers(s) && x != s.r.me && x !in exclude)
      && a.s.r == s.r.(ops := s.r.ops[c.oid := a.op]) && a.s.seed0 == s.seed0
      && Combine(s.window.keys, Chainable(s)).Some? && c.oid in a.s.window.keys
      && a.s.window.keys[c.oid] == NodeKey(k, c.secret, Combine(s.window.keys, Chainable(s)).value, c.oid)
  {
    var a := ContributeExcluding(k, s, exclude, c);
    AbsorbOwn(k, Stored(s, a.op), a.op, c.secret);
  }

  lemma ContributedGraph(r: Replica, op: Op)
    requires Signed(HistoryOf(r.ops)) && op.oid !in r.ops && op.deps == Heads(Deps(r.ops)) && op.body.Contrib?
    ensures var t := r.(ops := r.ops[op.oid := op]);
      && Tips(HistoryOf(t.ops)) == {op.oid} && Past(Deps(t.ops), op.oid) == r.ops.Keys
      && Members(BasisOf(t)) == Members(BasisOf(r))
  {
    assert Deps(r.ops[op.oid := op]) == Deps(r.ops)[op.oid := op.deps];
    NewTipDominates(HistoryOf(r.ops), op);
    ContributionKeepsRoster(r, op);
  }

  lemma KeyOfOneTip(k: Kdf, s: Keyed, o: Oid)
    requires CurrentTips(s) == {o} && o in s.window.keys
    ensures CurrentKey(k, s) == Some(k.group(s.seed0, s.window.keys[o], k.root(CurrentMembers(s)), {o}))
  {
    var list := Ascending({o});
    assert list[0] in list && list == [o];
    assert XorAll(s.window.keys, list) == Xor(XorAll(s.window.keys, []), s.window.keys[o]);
    assert Xor(ZERO, s.window.keys[o]).ones == s.window.keys[o].ones;
  }

  // -------------------------------------------------------------------------------- eviction

  predicate IsRemoval(r: Replica, who: Id, o: Oid) {
    && o in r.ops
    && (r.ops[o].body == Remove(who) || (r.ops[o].body.Accuse? && r.ops[o].body.who == who && who in r.guilty))
  }

  /** Some frontier node was created after the eviction, does not address the evicted party and was not
    * authored by it. */
  ghost predicate RemovalComplete(r: Replica, who: Id) {
    exists f, o :: f in Tips(HistoryOf(r.ops)) && who !in r.ops[f].body.recips && r.ops[f].author != who
                   && IsRemoval(r, who, o) && Precedes(Deps(r.ops), o, f)
  }

  /** Publishes an eviction and rekeys without the evicted party. */
  ghost function RemoveAndRekey(k: Kdf, s: Keyed, who: Id, d: Draft, c: Choice): (a: Attempt)
    requires d.body == Remove(who)
  {
    if |s.r.ops| >= MAX_OPS then GraphFull
    else ContributeExcluding(k, Stored(s, Sign(s.r, d)), {who}, c)
  }

  /** Evicting another party on the contributing path completes the removal at once. */
  lemma RemoveCompletes(k: Kdf, s: Keyed, who: Id, d: Draft, c: Choice)
    requires Signed(HistoryOf(s.r.ops)) && ValidWindow(s.window) && who != s.r.me
    requires d.body == Remove(who) && d.oid !in s.r.ops && Fresh(s, c) && c.oid != d.oid
    requires RemoveAndRekey(k, s, who, d, c).Contributed?
    ensures RemovalComplete(RemoveAndRekey(k, s, who, d, c).s.r, who)
  {
    var rm := Sign(s.r, d);
    AddSigned(s.r.ops, rm);
    var t := Stored(s, rm);
    ContributionDominates(k, t, {who}, c);
    ContributedShape(k, t, {who}, c);
    var a := ContributeExcluding(k, t, {who}, c);
    var r := a.s.r;
    assert c.oid in Tips(HistoryOf(r.ops)) && r.ops[c.oid] == a.op;
    assert IsRemoval(r, who, d.oid);
    assert d.oid in Past(Deps(r.ops), c.oid);
  }
}
