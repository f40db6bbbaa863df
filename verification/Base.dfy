/** Shared small types: bytes, optional values and ordered enumeration of finite sets. */
module Base {
  newtype byte = x: int | 0 <= x < 256

  type bytes = seq<byte>

  datatype Option<+T> = None | Some(value: T)

  /** The largest values of unsigned 32- and 64-bit integers. */
  const MAX_U32: nat := 0xFFFF_FFFF
  const MAX_U64: nat := 0xFFFF_FFFF_FFFF_FFFF

  predicate IsLeast(s: set<nat>, m: nat) {
    m in s && forall x :: x in s ==> m <= x
  }

  lemma HasLeast(s: set<nat>) returns (m: nat)
    requires s != {}
    ensures IsLeast(s, m)
  {
    var a :| a in s;
    m := a;
    assert forall x :: x in s ==> x == a || x in s - {a};
    if s - {a} != {} {
      var b := HasLeast(s - {a});
      m := if a < b then a else b;
    }
  }

  lemma LeastExists(s: set<nat>)
    requires s != {}
    ensures exists m :: m in s && IsLeast(s, m)
  {
    var m := HasLeast(s);
  }

  function Least(s: set<nat>): (m: nat)
    requires s != {}
    ensures m in s && forall x :: x in s ==> m <= x
  {
    LeastExists(s);
    var m :| m in s && IsLeast(s, m);
    m
  }

  /** The order in which a sorted set is iterated. */
  function Ascending(s: set<nat>): (r: seq<nat>)
    ensures |r| == |s|
    ensures forall x :: x in r <==> x in s
    ensures StrictlyAscending(r)
  {
    if s == {} then [] else
      var m := Least(s);
      [m] + Ascending(s - {m})
  }

  ghost predicate StrictlyAscending(r: seq<nat>) {
    forall i, j :: 0 <= i < j < |r| ==> r[i] < r[j]
  }

  /** A strictly ascending sequence is determined by its elements. */
  lemma {:induction false} AscendingUnique(r: seq<nat>, q: seq<nat>)
    requires StrictlyAscending(r) && StrictlyAscending(q)
    requires forall x :: x in r <==> x in q
    ensures r == q
  {
    if r == [] {
      assert forall i :: 0 <= i < |q| ==> q[i] in r;
    } else {
      assert r[0] in q && q[0] in r;
      assert q[0] == r[0];
      forall x ensures x in r[1..] <==> x in q[1..] {
        assert x in r[1..] <==> x in r && x != r[0];
        assert x in q[1..] <==> x in q && x != q[0];
      }
      AscendingUnique(r[1..], q[1..]);
      assert r == [r[0]] + r[1..] && q == [q[0]] + q[1..];
    }
  }

  /** The elements of a listing. */
  ghost function Elements<T>(s: seq<T>): (r: set<T>) {
    if s == [] then {} else Elements(s[..|s| - 1]) + {s[|s| - 1]}
  }

  lemma ElementsPush<T>(s: seq<T>, x: T)
    ensures Elements(s + [x]) == Elements(s) + {x}
  {
    assert (s + [x])[..|s|] == s;
  }

  lemma {:induction false} ElementsAre<T>(s: seq<T>)
    ensures forall x :: x in Elements(s) <==> x in s
  {
    if s != [] {
      ElementsAre(s[..|s| - 1]);
      assert s == s[..|s| - 1] + [s[|s| - 1]];
    }
  }

  lemma ElementsAscending(s: set<nat>)
    ensures Elements(Ascending(s)) == s
  {
    ElementsAre(Ascending(s));
  }

  lemma TakeOne<T>(s: seq<T>, i: nat)
    requires i < |s|
    ensures s[..i + 1] == s[..i] + [s[i]]
  {
  }

  lemma TakeAll<T>(s: seq<T>)
    ensures s[..|s|] == s
  {
  }

  lemma OneLess<T>(s: set<T>, done: set<T>, cur: T)
    requires cur in s && cur !in done
    ensures |s - done| == |s - (done + {cur})| + 1
  {
    assert s - done == (s - (done + {cur})) + {cur};
  }

  lemma Subset<T>(a: set<T>, b: set<T>)
    requires a <= b
    ensures |a| <= |b|
  {
    assert b == a + (b - a);
  }
}
