/** Node keys and group keys (crates/cfr-core/src/keys.rs). */
module Keys {
  import opened Base
  import opened Ops
  import opened Topological

  /** A 32-byte secret, as the set of its one-bits. */
  datatype Secret = Secret(ones: set<nat>)

  const ZERO: Secret := Secret({})

  function Xor(a: Secret, b: Secret): (x: Secret) {
    Secret((a.ones - b.ones) + (b.ones - a.ones))
  }

  /** The derivation functions, arbitrary: `node` and `group` are keyed derivations, `commit` is the
    * published commitment and `root` the digest of a roster. */
  datatype Kdf = Kdf(
    node: (Secret, Secret, Oid) -> Secret,
    group: (Secret, Secret, nat, set<Oid>) -> Secret,
    commit: Secret -> nat,
    root: set<Id> -> nat)

  const OVERLAP: nat := 64

  // ------------------------------------------------------------------------- combining keys

  /** XOR of the keys of a listing, from the first to the last. */
  function XorAll(keys: map<Oid, Secret>, list: seq<Oid>): (x: Secret)
    requires forall o :: o in list ==> o in keys
  {
    if list == [] then ZERO else Xor(XorAll(keys, list[..|list| - 1]), keys[list[|list| - 1]])
  }

  /** The combined key of a set of nodes, absent when any of them is absent. */
  function Combine(keys: map<Oid, Secret>, nodes: set<Oid>): (x: Option<Secret>) {
    if nodes <= keys.Keys then Some(XorAll(keys, Ascending(nodes))) else None
  }

  lemma {:induction false} XorDependsOnListed(a: map<Oid, Secret>, b: map<Oid, Secret>, list: seq<Oid>)
    requires forall o :: o in list ==> o in a && o in b && a[o] == b[o]
    ensures XorAll(a, list) == XorAll(b, list)
  {
    if list != [] {
      XorDependsOnListed(a, b, list[..|list| - 1]);
    }
  }

  lemma XorSwap(a: Secret, b: Secret, c: Secret)
    ensures Xor(Xor(a, b), c) == Xor(Xor(a, c), b)
  {
    assert Xor(Xor(a, b), c).ones == Xor(Xor(a, c), b).ones;
  }

  function Without(list: seq<Oid>, o: Oid): (r: seq<Oid>)
    ensures forall x :: x in r <==> x in list && x != o
  {
    if list == [] then []
    else
      var init, last := list[..|list| - 1], list[|list| - 1];
      assert list == init + [last];
      if last == o then Without(init, o) else Without(init, o) + [last]
  }

  lemma {:induction false} WithoutNoRepeats(list: seq<Oid>, o: Oid)
    requires NoRepeats(list)
    ensures NoRepeats(Without(list, o))
    ensures |Without(list, o)| == if o in list then |list| - 1 else |list|
  {
    if list != [] {
      var init, last := list[..|list| - 1], list[|list| - 1];
      assert list == init + [last];
      WithoutNoRepeats(init, o);
      ElementsAre(init);
      ElementsAre(Without(init, o));
      if last != o {
        NoRepeatsPush(Without(init, o), last);
      }
    }
  }

  lemma {:induction false} XorPullOut(keys: map<Oid, Secret>, list: seq<Oid>, o: Oid)
    requires NoRepeats(list) && o in list && forall x :: x in list ==> x in keys
    ensures XorAll(keys, list) == Xor(XorAll(keys, Without(list, o)), keys[o])
  {
    var init, last := list[..|list| - 1], list[|list| - 1];
    assert list == init + [last];
    if last == o {
      ElementsAre(init);
      WithoutAbsent(init, o);
    } else {
      XorPullOut(keys, init, o);
      var rest := Without(init, o);
      assert (rest + [last])[..|rest|] == rest;
      XorSwap(XorAll(keys, rest), keys[o], keys[last]);
    }
  }

  lemma {:induction false} WithoutAbsent(list: seq<Oid>, o: Oid)
    requires o !in list
    ensures Without(list, o) == list
  {
    if list != [] {
      var init, last := list[..|list| - 1], list[|list| - 1];
      assert list == init + [last];
      WithoutAbsent(init, o);
    }
  }

  lemma SomeElement(list: seq<Oid>)
    ensures list != [] ==> exists x :: x in list
  {
    if list != [] {
      assert list[0] in list;
    }
  }

  /** The order in which node keys are combined does not matter. */
  lemma {:induction false} CombineOrderIndependent(keys: map<Oid, Secret>, a: seq<Oid>, b: seq<Oid>)
    requires NoRepeats(a) && NoRepeats(b) && (forall x :: x in a <==> x in b) && forall x :: x in a ==> x in keys
    ensures XorAll(keys, a) == XorAll(keys, b)
    decreases |a|
  {
    if a == [] {
      SomeElement(b);
    } else {
      var init, last := a[..|a| - 1], a[|a| - 1];
      assert a == init + [last];
      ElementsAre(init);
      XorPullOut(keys, b, last);
      WithoutNoRepeats(b, last);
      CombineOrderIndependent(keys, init, Without(b, last));
    }
  }

  /** Derives the key of one contribution from its secret and its parents' combined key. */
  function NodeKey(k: Kdf, secret: Secret, parents: Secret, oid: Oid): (x: Secret) {
    k.node(secret, parents, oid)
  }

  function GroupKey(k: Kdf, seed0: Secret, tips: set<Oid>, root: nat, keys: map<Oid, Secret>): (x: Option<Secret>) {
    match Combine(keys, tips)
    case None => None
    case Some(c) => Some(k.group(seed0, c, root, tips))
  }

  /** Equal keys on the tips give equal group keys. */
  lemma GroupKeyDependsOnTips(k: Kdf, seed0: Secret, tips: set<Oid>, root: nat, a: map<Oid, Secret>,
                              b: map<Oid, Secret>)
    requires tips <= a.Keys && tips <= b.Keys && forall o :: o in tips ==> a[o] == b[o]
    ensures GroupKey(k, seed0, tips, root, a) == GroupKey(k, seed0, tips, root, b)
    ensures GroupKey(k, seed0, tips, root, a).Some?
  {
    XorDependsOnListed(a, b, Ascending(tips));
  }

  // ------------------------------------------------------------------ the bounded window

  /** Retained node keys with their insertion order, oldest first. */
  datatype Window = Window(keys: map<Oid, Secret>, order: seq<Oid>, capacity: nat)

  ghost predicate ValidWindow(w: Window) {
    && w.capacity >= 1 && |w.order| <= w.capacity
    && NoRepeats(w.order) && (forall o :: o in w.order <==> o in w.keys)
  }

  /** Moves or appends `o` to the end and drops the oldest entry when over capacity. */
  function Insert(w: Window, o: Oid, key: Secret): (r: Window) {
    var order := Without(w.order, o) + [o];
    var keys := w.keys[o := key];
    if |order| > w.capacity then w.(keys := keys - {order[0]}, order := order[1..])
    else w.(keys := keys, order := order)
  }

  lemma {:induction false} NoRepeatsTail(s: seq<Oid>)
    requires s != [] && NoRepeats(s)
    ensures NoRepeats(s[1..]) && s[0] !in s[1..]
  {
    if |s| > 1 {
      var init := s[..|s| - 1];
      NoRepeatsTail(init);
      ElementsAre(init);
      ElementsAre(init[1..]);
      NoRepeatsPush(init[1..], s[|s| - 1]);
      assert s[1..] == init[1..] + [s[|s| - 1]];
    }
  }

  /** The order after an insertion, before eviction. */
  lemma InsertOrder(w: Window, o: Oid)
    requires ValidWindow(w)
    ensures var order := Without(w.order, o) + [o];
      && NoRepeats(order) && (forall x :: x in order <==> x in w.keys || x == o)
      && |order| == if o in w.keys then |w.order| else |w.order| + 1
  {
    WithoutNoRepeats(w.order, o);
    ElementsAre(Without(w.order, o));
    NoRepeatsPush(Without(w.order, o), o);
  }

  lemma WindowSize(w: Window)
    requires ValidWindow(w)
    ensures |w.keys| == |w.order|
  {
    NoRepeatsSize(w.order);
    ElementsAre(w.order);
    assert Elements(w.order) == w.keys.Keys;
  }

  /** The window stays consistent, holds the new key, and changes no other key it keeps. At most the
    * oldest entry leaves, and only when the window was full. */
  lemma InsertKeeps(w: Window, o: Oid, key: Secret)
    requires ValidWindow(w)
    ensures var r := Insert(w, o, key);
      && ValidWindow(r) && r.capacity == w.capacity && o in r.keys && r.keys[o] == key
      && (forall x :: x in r.keys && x != o ==> x in w.keys && r.keys[x] == w.keys[x])
      && (forall x :: x in w.keys && x !in r.keys ==> w.order[0] == x && o !in w.keys && |w.keys| >= w.capacity)
  {
    InsertOrder(w, o);
    WindowSize(w);
    var order := Without(w.order, o) + [o];
    if |order| > w.capacity {
      WithoutAbsent(w.order, o);
      InsertFull(w, o);
    }
  }

  lemma InsertFull(w: Window, o: Oid)
    requires ValidWindow(w) && o !in w.keys && |w.order| == w.capacity
    ensures var order := w.order + [o];
      && order[0] == w.order[0] && order[0] != o && |order[1..]| == w.capacity && NoRepeats(order[1..])
      && forall x :: x in order[1..] <==> (x in w.keys || x == o) && x != order[0]
  {
    WithoutAbsent(w.order, o);
    InsertOrder(w, o);
    var order := w.order + [o];
    NoRepeatsTail(order);
    assert order == [order[0]] + order[1..];
  }

  class NodeKeys {
    var keys: map<Oid, Secret>
    var order: seq<Oid>
    const capacity: nat

    ghost function View(): (w: Window)
      reads this
    {
      Window(keys, order, capacity)
    }

    constructor (capacity: nat)
      ensures ValidWindow(View())
      ensures View() == Window(map[], [], if capacity < 1 then 1 else capacity)
    {
      keys, order := map[], [];
      this.capacity := if capacity < 1 then 1 else capacity;
    }

    method Put(o: Oid, key: Secret)
      requires ValidWindow(View())
      modifies this
      ensures ValidWindow(View())
      ensures View() == Insert(old(View()), o, key)
    {
      InsertKeeps(View(), o, key);
      if o in keys {
        keys := keys[o := key];
        Touch(o);
      } else {
        WithoutAbsent(order, o);
        keys := keys[o := key];
        order := order + [o];
      }
      EvictOldest();
    }

    method EvictOldest()
      requires |order| <= capacity + 1 && capacity >= 1
      modifies this
      ensures View() == Evicted(old(View()))
    {
      while |order| > capacity
        invariant |order| <= capacity + 1
        invariant Evicted(View()) == Evicted(old(View()))
      {
        var evicted := order[0];
        order := order[1..];
        keys := keys - {evicted};
      }
    }

    /** Marks a node key as recently used; an absent one is ignored. */
    method Touch(o: Oid)
      requires NoRepeats(order)
      modifies this`order
      ensures order == if o in old(order) then Without(old(order), o) + [o] else old(order)
    {
      var list := order;
      var pos := 0;
      while pos < |list| && list[pos] != o
        invariant order == list && pos <= |list| && o !in list[..pos]
      {
        TakeOne(list, pos);
        pos := pos + 1;
      }
      if pos == |list| {
        TakeAll(list);
      } else {
        assert o in list;
        WithoutSplit(list, pos);
        order := list[..pos] + list[pos + 1..] + [o];
      }
    }

    method CombineKeys(nodes: set<Oid>) returns (acc: Option<Secret>)
      ensures acc == Combine(keys, nodes)
    {
      var list := Ascending(nodes);
      var x := ZERO;
      for i := 0 to |list|
        invariant forall o :: o in list[..i] ==> o in keys
        invariant x == XorAll(keys, list[..i])
      {
        assert list[i] in list;
        if list[i] !in keys {
          return None;
        }
        x := Xor(x, keys[list[i]]);
        TakeOne(list, i);
        assert list[..i + 1][..i] == list[..i];
      }
      TakeAll(list);
      return Some(x);
    }
  }

  /** What the eviction loop still has to do. */
  ghost function Evicted(w: Window): (r: Window) {
    if |w.order| > w.capacity then w.(keys := w.keys - {w.order[0]}, order := w.order[1..]) else w
  }

  lemma {:induction false} WithoutSplit(list: seq<Oid>, pos: nat)
    requires NoRepeats(list) && pos < |list|
    ensures Without(list, list[pos]) == list[..pos] + list[pos + 1..]
  {
    var o := list[pos];
    var init, last := list[..|list| - 1], list[|list| - 1];
    assert list == init + [last];
    ElementsAre(init);
    if pos == |list| - 1 {
      WithoutAbsent(init, o);
    } else {
      WithoutSplit(init, pos);
      assert init[pos] in init;
    }
  }
}
