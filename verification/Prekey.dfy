/** The one-time prekey pool and what a stored operation does to it (crates/cfr-core/src/prekey.rs and
  * `ingest` in crates/cfr-core/src/member.rs). */
module Prekey {
  import opened Base
  import opened Ops

  const SEAL_AFTER: nat := 64

  /** `isSealed`: the private half of this generation has been destroyed. */
  datatype Pool = Pool(generation: nat, isSealed: bool, established: set<Id>, age: nat)

  function NewPool(generation: nat): (p: Pool) {
    Pool(generation, false, {}, 0)
  }

  function Rotated(p: Pool): (q: Pool) {
    NewPool(if p.generation < MAX_U32 then p.generation + 1 else 0)
  }

  /** One local tick; a generation does not outlive its deadline. */
  function Ticked(p: Pool): (q: Pool) {
    var age := if p.age < MAX_U32 then p.age + 1 else p.age;
    p.(age := age, isSealed := p.isSealed || age >= SEAL_AFTER)
  }

  /** `lawful`: the ephemeral key is not a low-order point. */
  predicate Agrees(lawful: nat -> bool, p: Pool, eph: nat) {
    !p.isSealed && lawful(eph)
  }

  /** The pool after opening a channel: sealed once everyone expected has been served. */
  function Served(p: Pool, peer: Id, expected: set<Id>): (q: Pool) {
    var served := p.established + {peer};
    p.(established := served, isSealed := p.isSealed || (expected != {} && expected <= served))
  }

  class PrekeyPool {
    var generation: nat
    var hasSecret: bool
    var established: set<Id>
    var age: nat

    function View(): (p: Pool)
      reads this
    {
      Pool(generation, !hasSecret, established, age)
    }

    constructor (at: nat)
      ensures View() == NewPool(at)
    {
      generation, hasSecret, established, age := at, true, {}, 0;
    }

    method Tick()
      modifies this
      ensures View() == Ticked(old(View()))
    {
      if age < MAX_U32 {
        age := age + 1;
      }
      if age >= SEAL_AFTER {
        hasSecret := false;
      }
    }

    method AgreeFor(lawful: nat -> bool, peer: Id, eph: nat, expected: set<Id>) returns (ok: bool)
      modifies this
      ensures ok <==> Agrees(lawful, old(View()), eph)
      ensures View() == if ok then Served(old(View()), peer, expected) else old(View())
    {
      if !hasSecret || !lawful(eph) {
        return false;
      }
      established := established + {peer};
      if expected != {} && forall p :: p in expected ==> p in established {
        hasSecret := false;
      }
      ok := true;
    }

    method Rotate()
      modifies this
      ensures View() == Rotated(old(View()))
    {
      generation := if generation < MAX_U32 then generation + 1 else 0;
      hasSecret, established, age := true, {}, 0;
    }
  }

  // ------------------------------------------------------------------- what a stored operation does

  /** The first slice addressed to `me`. */
  function SliceFor(me: Id, slices: seq<Slice>): (s: Option<Slice>)
    ensures s.Some? ==> s.value in slices && s.value.to == me
    ensures s == None ==> forall x :: x in slices ==> x.to != me
  {
    if slices == [] then None else if slices[0].to == me then Some(slices[0]) else SliceFor(me, slices[1..])
  }

  /** What decides whether an arriving slice opens a channel: which ephemeral keys are not low-order
    * points, the pool, and the ephemeral key each receiving channel was opened with. */
  datatype Inlet = Inlet(lawful: nat -> bool, pool: Pool, ephs: map<Id, nat>)

  /** `rotates`: a new generation is published. */
  datatype Effect = Effect(inlet: Inlet, rotates: bool)

  function Rotation(i: Inlet): (e: Effect) {
    Effect(i.(pool := Rotated(i.pool)), true)
  }

  /** A slice that offers to establish a channel: known, of a retired generation, refused, or opened. */
  function Establish(i: Inlet, author: Id, gen: nat, eph: nat, others: set<Id>): (e: Effect) {
    if (author in i.ephs && i.ephs[author] == eph) || gen != i.pool.generation then Effect(i, false)
    else if !Agrees(i.lawful, i.pool, eph) then Rotation(i)
    else Effect(i.(pool := Served(i.pool, author, others), ephs := i.ephs[author := eph]), false)
  }

  /** What storing `op` does; `others` is the roster without `me`. */
  function Storing(i: Inlet, me: Id, others: set<Id>, op: Op): (e: Effect) {
    match op.body
    case Add(who) => if who != me && i.pool.isSealed then Rotation(i) else Effect(i, false)
    case PrekeyRequest(targets) => if me in targets then Rotation(i) else Effect(i, false)
    case Contrib(_, _, _, slices, _) =>
      (match SliceFor(me, slices)
       case None => Effect(i, false)
       case Some(s) =>
         if s.establish == None then Effect(i, false)
         else Establish(i, op.author, s.establish.value.0, s.establish.value.1, others))
    case _ => Effect(i, false)
  }
}
