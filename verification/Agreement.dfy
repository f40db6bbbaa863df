/** Key agreement over all runs of a conference: participants, arbitrary signed operations, possibly
  * equivocating contributors, welcomes and repairs (crates/cfr-core/src/member.rs). */
module Agreement {
  import opened Base
  import opened Ops
  import opened Keys
  import opened Contribution

  // ------------------------------------------------------------------------ canonical node keys

  /** Every operation ever signed, by anyone, and every secret a slice ever opened to. */
  datatype World = World(ops: map<Oid, Op>, secrets: set<Secret>)

  ghost predicate Within(a: World, b: World) {
    a.secrets <= b.secrets && forall o :: o in a.ops ==> o in b.ops && b.ops[o] == a.ops[o]
  }

  /** How a node key comes about: a secret and the derivations of the parents' keys, in listing order. */
  datatype Derivation = Derivation(o: Oid, secret: Secret, kids: seq<Derivation>)

  /** The derivation follows the signed contributions: committed secrets, declared parents. */
  ghost predicate Follows(k: Kdf, world: World, d: Derivation) {
    && d.o in world.ops && world.ops[d.o].body.Contrib?
    && d.secret in world.secrets && k.commit(d.secret) == world.ops[d.o].body.cid
    && var list := Ascending(world.ops[d.o].body.cparents);
       |d.kids| == |list| && forall i :: 0 <= i < |list| ==> d.kids[i].o == list[i] && Follows(k, world, d.kids[i])
  }

  function KeyOf(k: Kdf, d: Derivation): (x: Secret) {
    NodeKey(k, d.secret, XorKids(k, d.kids), d.o)
  }

  function XorKids(k: Kdf, kids: seq<Derivation>): (x: Secret) {
    if kids == [] then ZERO else Xor(XorKids(k, kids[..|kids| - 1]), KeyOf(k, kids[|kids| - 1]))
  }

  /** `key` is the value fixed by the signed contribution `o`. */
  ghost predicate Canonical(k: Kdf, world: World, o: Oid, key: Secret) {
    exists d :: Follows(k, world, d) && d.o == o && KeyOf(k, d) == key
  }

  /** No two of these secrets have the same commitment. */
  ghost predicate Binding(k: Kdf, secrets: set<Secret>) {
    forall x, y :: x in secrets && y in secrets && k.commit(x) == k.commit(y) ==> x == y
  }

  /** A signed contribution fixes one derivation. */
  lemma {:induction false} DerivationUnique(k: Kdf, world: World, d: Derivation, e: Derivation)
    requires Binding(k, world.secrets) && Follows(k, world, d) && Follows(k, world, e) && d.o == e.o
    ensures d == e
  {
    forall i | 0 <= i < |d.kids| ensures d.kids[i] == e.kids[i] {
      DerivationUnique(k, world, d.kids[i], e.kids[i]);
    }
    assert d.kids == e.kids;
  }

  lemma {:induction false} FollowsGrows(k: Kdf, world: World, w: World, d: Derivation)
    requires Follows(k, world, d) && Within(world, w)
    ensures Follows(k, w, d)
  {
    forall i | 0 <= i < |d.kids| ensures Follows(k, w, d.kids[i]) {
      FollowsGrows(k, world, w, d.kids[i]);
    }
  }

  ghost predicate Derive(k: Kdf, world: World, kids: seq<Derivation>, list: seq<Oid>) {
    |kids| == |list| && forall i :: 0 <= i < |list| ==> kids[i].o == list[i] && Follows(k, world, kids[i])
  }

  lemma DerivePush(k: Kdf, world: World, kids: seq<Derivation>, d: Derivation, list: seq<Oid>)
    requires list != [] && Derive(k, world, kids, list[..|list| - 1]) && Follows(k, world, d) && d.o == list[|list| - 1]
    ensures Derive(k, world, kids + [d], list)
  {
    PairsPush((e: Derivation, o: Oid) => e.o == o && Follows(k, world, e), kids, d, list);
  }

  lemma PairsPush<A, B>(p: (A, B) -> bool, xs: seq<A>, x: A, ys: seq<B>)
    requires |ys| == |xs| + 1 && p(x, ys[|xs|]) && forall i :: 0 <= i < |xs| ==> p(xs[i], ys[..|xs|][i])
    ensures forall i :: 0 <= i < |ys| ==> p((xs + [x])[i], ys[i])
  {
  }

  /** Derivations for a listing of canonical keys. */
  lemma {:induction false} Derivations(k: Kdf, world: World, keys: map<Oid, Secret>, list: seq<Oid>)
    returns (kids: seq<Derivation>)
    requires forall p :: p in list ==> p in keys && Canonical(k, world, p, keys[p])
    ensures Derive(k, world, kids, list) && XorKids(k, kids) == XorAll(keys, list)
  {
    if list == [] {
      kids := [];
    } else {
      var init, last := list[..|list| - 1], list[|list| - 1];
      var rest := Derivations(k, world, keys, init);
      assert last in list;
      var d := Witness(k, world, last, keys[last]);
      kids := rest + [d];
      DerivePush(k, world, rest, d, list);
      XorKidsPush(k, rest, d);
      XorAllPush(keys, list);
    }
  }

  lemma Witness(k: Kdf, world: World, o: Oid, key: Secret) returns (d: Derivation)
    requires Canonical(k, world, o, key)
    ensures Follows(k, world, d) && d.o == o && KeyOf(k, d) == key
  {
    d :| Follows(k, world, d) && d.o == o && KeyOf(k, d) == key;
  }

  lemma XorAllPush(keys: map<Oid, Secret>, list: seq<Oid>)
    requires list != [] && forall p :: p in list ==> p in keys
    ensures XorAll(keys, list) == Xor(XorAll(keys, list[..|list| - 1]), keys[list[|list| - 1]])
  {
  }

  lemma XorKidsPush(k: Kdf, kids: seq<Derivation>, d: Derivation)
    ensures XorKids(k, kids + [d]) == Xor(XorKids(k, kids), KeyOf(k, d))
  {
    assert (kids + [d])[..|kids|] == kids;
  }

  // ------------------------------------------------------------------------------- the system

  type Entries = seq<(Oid, Secret)>

  /** Node keys under way, as they were when sent: a repair answer or a welcome. */
  datatype Letter = Answer(from: Id, to: Id, entries: Entries) | Welcome(to: Id, seed0: Secret, entries: Entries)

  /** The world, the participants, and every letter ever sent: one may arrive late, often or never. */
  datatype System = System(world: World, peers: map<Id, Keyed>, mail: set<Letter>)

  datatype Step =
    | Publish(op: Op)                          // anyone signs anything
    | Learn(p: Id, ops: map<Oid, Op>)          // a participant's graph grows
    | Convict(p: Id, who: set<Id>)             // a participant proves equivocations
    | Open(p: Id, o: Oid, x: Secret)           // a slice of a known contribution opens to `x`
    | Invite(p: Id, q: Id)                     // `p` sends `q` a welcome
    | Join(letter: Letter, newcomer: Keyed)    // the newcomer accepts a welcome
    | Serve(p: Id, q: Id, nodes: seq<Oid>)     // `p` answers `q` for frontier nodes
    | Repair(letter: Letter)                   // the requester receives an answer

  function InsertAll(w: Window, entries: Entries): (r: Window)
    decreases |entries|
  {
    if entries == [] then w else InsertAll(Insert(w, entries[0].0, entries[0].1), entries[1..])
  }

  function NodesOf(entries: Entries): (nodes: set<Oid>) {
    set e | e in entries :: e.0
  }

  /** What an answer carries: requested nodes of the responder's frontier whose key it holds. */
  ghost function Served(p: Keyed, nodes: seq<Oid>): (r: Entries)
    ensures forall e :: e in r ==> e.0 in p.window.keys && e.1 == p.window.keys[e.0]
  {
    if nodes == [] then []
    else
      var rest := Served(p, nodes[1..]);
      if nodes[0] in CurrentTips(p) && nodes[0] in p.window.keys then [(nodes[0], p.window.keys[nodes[0]])] + rest
      else rest
  }

  /** What the requester keeps of it: nodes of its own frontier on arrival. */
  ghost function Wanted(q: Keyed, entries: Entries): (r: Entries)
    ensures forall e :: e in r ==> e in entries
  {
    if entries == [] then []
    else
      var rest := Wanted(q, entries[1..]);
      if entries[0].0 in CurrentTips(q) then [entries[0]] + rest else rest
  }

  /** An answer from a member of the requester's roster is taken in; any other is an error. */
  ghost function Repaired(q: Keyed, from: Id, entries: Entries): (r: Keyed) {
    var list := Wanted(q, entries);
    if from !in CurrentMembers(q) then q
    else q.(window := InsertAll(q.window, list), absorbed := q.absorbed + NodesOf(list),
            missing := q.missing - NodesOf(list))
  }

  /** The keys of the whole frontier, for a newcomer. */
  ghost function Shared(p: Keyed): (entries: Entries)
    ensures forall e :: e in entries ==> e.0 in p.window.keys && e.1 == p.window.keys[e.0]
  {
    Served(p, Ascending(CurrentTips(p)))
  }

  ghost predicate Enabled(s: System, step: Step) {
    match step
    case Publish(op) => op.oid !in s.world.ops
    case Learn(p, ops) => p in s.peers && forall o :: o in ops ==> o in s.world.ops && s.world.ops[o] == ops[o]
    case Convict(p, who) => p in s.peers
    case Open(p, o, x) => p in s.peers && o in s.peers[p].r.ops
    case Invite(p, q) =>
      p in s.peers && p in CurrentMembers(s.peers[p]) && CurrentTips(s.peers[p]) <= s.peers[p].window.keys.Keys
    case Join(letter, newcomer) =>
      && letter in s.mail && letter.Welcome? && letter.to !in s.peers && newcomer.seed0 == letter.seed0
      && newcomer.window == InsertAll(Window(map[], [], OVERLAP), letter.entries)
      && newcomer.absorbed == NodesOf(letter.entries)
      && forall o :: o in newcomer.r.ops ==> o in s.world.ops && s.world.ops[o] == newcomer.r.ops[o]
    case Serve(p, q, nodes) => p in s.peers && q in CurrentMembers(s.peers[p])
    case Repair(letter) => letter in s.mail && letter.Answer? && letter.to in s.peers
  }

  ghost function Next(k: Kdf, s: System, step: Step): (t: System)
    requires Enabled(s, step)
  {
    match step
    case Publish(op) => s.(world := s.world.(ops := s.world.ops[op.oid := op]))
    case Learn(p, ops) =>
      var kp := s.peers[p];
      s.(peers := s.peers[p := kp.(r := kp.r.(ops := kp.r.ops + ops))])
    case Convict(p, who) =>
      var kp := s.peers[p];
      s.(peers := s.peers[p := kp.(r := kp.r.(guilty := kp.r.guilty + who))])
    case Open(p, o, x) =>
      s.(world := Opened(s.world, x), peers := s.peers[p := Absorb(k, s.peers[p], s.peers[p].r.ops[o], x).s])
    case Invite(p, q) => s.(mail := s.mail + {Welcome(q, s.peers[p].seed0, Shared(s.peers[p]))})
    case Join(letter, newcomer) => s.(peers := s.peers[letter.to := newcomer])
    case Serve(p, q, nodes) => s.(mail := s.mail + {Answer(p, q, Served(s.peers[p], nodes))})
    case Repair(letter) => s.(peers := s.peers[letter.to := Repaired(s.peers[letter.to], letter.from, letter.entries)])
  }

  function Opened(world: World, x: Secret): (w: World) {
    world.(secrets := world.secrets + {x})
  }

  /** Identifiers denote what the world says; all held keys are canonical. */
  ghost predicate GoodPeer(k: Kdf, world: World, seed0: Secret, p: Keyed) {
    && p.seed0 == seed0 && ValidWindow(p.window)
    && (forall o :: o in p.r.ops ==> o in world.ops && world.ops[o] == p.r.ops[o])
    && AllCanonical(k, world, p.window.keys)
  }

  /** All keys under way are canonical. */
  ghost predicate GoodLetter(k: Kdf, world: World, seed0: Secret, l: Letter) {
    (l.Welcome? ==> l.seed0 == seed0) && GoodEntries(k, world, l.entries)
  }

  ghost predicate GoodEntries(k: Kdf, world: World, entries: Entries) {
    forall e :: e in entries ==> Canonical(k, world, e.0, e.1)
  }

  ghost predicate Good(k: Kdf, seed0: Secret, s: System) {
    && (forall o :: o in s.world.ops ==> s.world.ops[o].oid == o)
    && (forall p :: p in s.peers ==> GoodPeer(k, s.world, seed0, s.peers[p]))
    && forall l :: l in s.mail ==> GoodLetter(k, s.world, seed0, l)
  }

  lemma CanonicalGrows(k: Kdf, world: World, w: World, o: Oid, key: Secret)
    requires Canonical(k, world, o, key) && Within(world, w)
    ensures Canonical(k, w, o, key)
  {
    var d := Witness(k, world, o, key);
    FollowsGrows(k, world, w, d);
  }

  lemma GoodPeerGrows(k: Kdf, world: World, w: World, seed0: Secret, p: Keyed)
    requires GoodPeer(k, world, seed0, p) && Within(world, w)
    ensures GoodPeer(k, w, seed0, p)
  {
    forall o | o in p.window.keys ensures Canonical(k, w, o, p.window.keys[o]) {
      CanonicalGrows(k, world, w, o, p.window.keys[o]);
    }
  }

  lemma GoodLetterGrows(k: Kdf, world: World, w: World, seed0: Secret, l: Letter)
    requires GoodLetter(k, world, seed0, l) && Within(world, w)
    ensures GoodLetter(k, w, seed0, l)
  {
    forall e | e in l.entries ensures Canonical(k, w, e.0, e.1) {
      CanonicalGrows(k, world, w, e.0, e.1);
    }
  }

  /** Whatever is signed or opened later, what was canonical stays so. */
  lemma GoodGrows(k: Kdf, seed0: Secret, s: System, w: World)
    requires Good(k, seed0, s) && Within(s.world, w) && forall o :: o in w.ops ==> w.ops[o].oid == o
    ensures Good(k, seed0, s.(world := w))
  {
    forall p | p in s.peers ensures GoodPeer(k, w, seed0, s.peers[p]) {
      GoodPeerGrows(k, s.world, w, seed0, s.peers[p]);
    }
    forall l | l in s.mail ensures GoodLetter(k, w, seed0, l) {
      GoodLetterGrows(k, s.world, w, seed0, l);
    }
  }

  /** An equivocating contributor can deliver any secret: what is absorbed is canonical or nothing. */
  lemma AbsorbIsCanonical(k: Kdf, world: World, seed0: Secret, p: Keyed, op: Op, x: Secret)
    requires GoodPeer(k, world, seed0, p) && op.oid in world.ops && world.ops[op.oid] == op && x in world.secrets
    ensures GoodPeer(k, world, seed0, Absorb(k, p, op, x).s)
  {
    var a := Absorb(k, p, op, x);
    if a.outcome == Done && op.oid !in p.absorbed {
      ChainedIsCanonical(k, world, p.window.keys, op, x);
      InsertCanonical(k, world, p.window, op.oid,
                      NodeKey(k, x, Combine(p.window.keys, op.body.cparents).value, op.oid));
    }
  }

  lemma ChainedIsCanonical(k: Kdf, world: World, keys: map<Oid, Secret>, op: Op, x: Secret)
    requires AllCanonical(k, world, keys) && op.oid in world.ops && world.ops[op.oid] == op && op.body.Contrib?
    requires x in world.secrets && k.commit(x) == op.body.cid && op.body.cparents <= keys.Keys
    ensures Canonical(k, world, op.oid, NodeKey(k, x, Combine(keys, op.body.cparents).value, op.oid))
  {
    var kids := Derivations(k, world, keys, Ascending(op.body.cparents));
    var d := Derivation(op.oid, x, kids);
    assert Follows(k, world, d) && KeyOf(k, d) == NodeKey(k, x, XorAll(keys, Ascending(op.body.cparents)), op.oid);
  }

  ghost predicate AllCanonical(k: Kdf, world: World, keys: map<Oid, Secret>) {
    forall o :: o in keys ==> Canonical(k, world, o, keys[o])
  }

  lemma InsertCanonical(k: Kdf, world: World, w: Window, o: Oid, key: Secret)
    requires ValidWindow(w) && AllCanonical(k, world, w.keys) && Canonical(k, world, o, key)
    ensures ValidWindow(Insert(w, o, key)) && AllCanonical(k, world, Insert(w, o, key).keys)
  {
    InsertKeeps(w, o, key);
  }

  lemma {:induction false} InsertAllCanonical(k: Kdf, world: World, w: Window, entries: Entries)
    requires ValidWindow(w) && AllCanonical(k, world, w.keys) && GoodEntries(k, world, entries)
    ensures ValidWindow(InsertAll(w, entries)) && AllCanonical(k, world, InsertAll(w, entries).keys)
    decreases |entries|
  {
    if entries != [] {
      var (o, key) := entries[0];
      assert entries[0] in entries;
      InsertCanonical(k, world, w, o, key);
      InsertAllCanonical(k, world, Insert(w, o, key), entries[1..]);
    }
  }

  /** Every step of the system keeps every stored key, and every key under way, canonical. */
  lemma StepKeepsGood(k: Kdf, seed0: Secret, s: System, step: Step)
    requires Good(k, seed0, s) && Enabled(s, step)
    ensures Good(k, seed0, Next(k, s, step))
  {
    match step
    case Publish(op) => GoodGrows(k, seed0, s, s.world.(ops := s.world.ops[op.oid := op]));
    case Learn(p, ops) => SetPeer(k, seed0, s, p, Next(k, s, step).peers[p]);
    case Convict(p, who) => SetPeer(k, seed0, s, p, Next(k, s, step).peers[p]);
    case Open(p, o, x) => OpenIsGood(k, seed0, s, p, o, x);
    case Invite(p, q) => Post(k, seed0, s, Welcome(q, s.peers[p].seed0, Shared(s.peers[p])));
    case Join(letter, newcomer) =>
      InsertAllCanonical(k, s.world, Window(map[], [], OVERLAP), letter.entries);
      SetPeer(k, seed0, s, letter.to, newcomer);
    case Serve(p, q, nodes) => Post(k, seed0, s, Answer(p, q, Served(s.peers[p], nodes)));
    case Repair(letter) =>
      var q := s.peers[letter.to];
      RepairIsGood(k, seed0, s.world, q, letter.from, letter.entries);
      SetPeer(k, seed0, s, letter.to, Repaired(q, letter.from, letter.entries));
  }

  lemma SetPeer(k: Kdf, seed0: Secret, s: System, p: Id, kp: Keyed)
    requires Good(k, seed0, s) && GoodPeer(k, s.world, seed0, kp)
    ensures Good(k, seed0, s.(peers := s.peers[p := kp]))
  {
  }

  lemma Post(k: Kdf, seed0: Secret, s: System, l: Letter)
    requires Good(k, seed0, s) && GoodLetter(k, s.world, seed0, l)
    ensures Good(k, seed0, s.(mail := s.mail + {l}))
  {
  }

  lemma OpenIsGood(k: Kdf, seed0: Secret, s: System, p: Id, o: Oid, x: Secret)
    requires Good(k, seed0, s) && p in s.peers && o in s.peers[p].r.ops
    ensures Good(k, seed0, Next(k, s, Open(p, o, x)))
  {
    var t := s.(world := Opened(s.world, x));
    GoodGrows(k, seed0, s, t.world);
    AbsorbIsCanonical(k, t.world, seed0, s.peers[p], s.peers[p].r.ops[o], x);
    SetPeer(k, seed0, t, p, Absorb(k, s.peers[p], s.peers[p].r.ops[o], x).s);
  }

  lemma RepairIsGood(k: Kdf, seed0: Secret, world: World, q: Keyed, from: Id, entries: Entries)
    requires GoodPeer(k, world, seed0, q) && GoodEntries(k, world, entries)
    ensures GoodPeer(k, world, seed0, Repaired(q, from, entries))
  {
    InsertAllCanonical(k, world, q.window, Wanted(q, entries));
  }

  /** A run from the founding state. */
  ghost predicate Reaches(k: Kdf, s: System, steps: seq<Step>, t: System)
    decreases |steps|
  {
    if steps == [] then s == t
    else Enabled(s, steps[0]) && Reaches(k, Next(k, s, steps[0]), steps[1..], t)
  }

  lemma {:induction false} RunKeepsGood(k: Kdf, seed0: Secret, s: System, steps: seq<Step>, t: System)
    requires Good(k, seed0, s) && Reaches(k, s, steps, t)
    ensures Good(k, seed0, t)
    decreases |steps|
  {
    if steps != [] {
      StepKeepsGood(k, seed0, s, steps[0]);
      RunKeepsGood(k, seed0, Next(k, s, steps[0]), steps[1..], t);
    }
  }

  /** One founder, nothing published, no keys. */
  ghost predicate Founding(s: System, founder: Id) {
    && s.world == World(map[], {}) && s.mail == {} && s.peers.Keys == {founder}
    && s.peers[founder].r.ops == map[] && s.peers[founder].window == Window(map[], [], OVERLAP)
  }

  /** Agreement: in every state of every run in which no two opened secrets share a commitment, two
    * participants with the same frontier and the same roster digest that can both derive the group key
    * derive the same one. */
  lemma KeysAgree(k: Kdf, s: System, founder: Id, steps: seq<Step>, t: System, p: Id, q: Id)
    requires Founding(s, founder) && Reaches(k, s, steps, t) && p in t.peers && q in t.peers
    requires Binding(k, t.world.secrets)
    requires CurrentTips(t.peers[p]) == CurrentTips(t.peers[q])
    requires k.root(CurrentMembers(t.peers[p])) == k.root(CurrentMembers(t.peers[q]))
    requires CurrentKey(k, t.peers[p]).Some? && CurrentKey(k, t.peers[q]).Some?
    ensures CurrentKey(k, t.peers[p]) == CurrentKey(k, t.peers[q])
  {
    var seed0 := s.peers[founder].seed0;
    RunKeepsGood(k, seed0, s, steps, t);
    SameKeys(k, t.world, seed0, t.peers[p], t.peers[q]);
  }

  lemma SameKeys(k: Kdf, world: World, seed0: Secret, p: Keyed, q: Keyed)
    requires Binding(k, world.secrets) && GoodPeer(k, world, seed0, p) && GoodPeer(k, world, seed0, q)
    requires CurrentTips(p) == CurrentTips(q) && k.root(CurrentMembers(p)) == k.root(CurrentMembers(q))
    requires CurrentKey(k, p).Some? && CurrentKey(k, q).Some?
    ensures CurrentKey(k, p) == CurrentKey(k, q)
  {
    forall o | o in CurrentTips(p) ensures p.window.keys[o] == q.window.keys[o] {
      SameNodeKey(k, world, seed0, p, q, o);
    }
    GroupKeyDependsOnTips(k, seed0, CurrentTips(p), k.root(CurrentMembers(p)), p.window.keys, q.window.keys);
  }

  /** Any two participants that hold a key for the same node hold the same key. */
  lemma SameNodeKey(k: Kdf, world: World, seed0: Secret, p: Keyed, q: Keyed, o: Oid)
    requires Binding(k, world.secrets) && GoodPeer(k, world, seed0, p) && GoodPeer(k, world, seed0, q)
    requires o in p.window.keys && o in q.window.keys
    ensures p.window.keys[o] == q.window.keys[o]
  {
    var d := Witness(k, world, o, p.window.keys[o]);
    var e := Witness(k, world, o, q.window.keys[o]);
    DerivationUnique(k, world, d, e);
  }
}
