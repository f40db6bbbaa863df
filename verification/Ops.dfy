/** Signed operations (crates/cfr-core/src/op.rs).
  *
  * Every 32-byte identifier (operation id, signing key, digest) is the number its
  * big-endian bytes denote, so the byte order used by sorted containers is `<` on numbers.
  */
module Ops {
  import opened Base

  type Oid = nat
  type Id = nat

  datatype Slice = Slice(to: Id, establish: Option<(nat, nat)>, seqno: nat, ct: bytes)

  datatype Body =
    | Add(who: Id)
    | Remove(who: Id)
    | Prekeys(gen: nat, pk: nat)
    | Contrib(cid: nat, cparents: set<Oid>, recips: seq<Id>, slices: seq<Slice>, view: nat)
    | Accuse(who: Id, coid: Oid, mk: nat, seqno: nat)
    | PrekeyRequest(targets: seq<Id>)

  /** `oid` is the digest of the other fields; see OpCodec for the byte image behind it. */
  datatype Op = Op(oid: Oid, sid: nat, author: Id, deps: set<Oid>, body: Body, sig: nat)
}
