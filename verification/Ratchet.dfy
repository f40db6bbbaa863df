/** Per-sender media ratchets (crates/cfr-media/src/ratchet.rs). */
module RatchetModule {
  import opened Base
  import opened Ops

  const EPOCH: nat := 256
  const MAX_EPOCH_JUMP: nat := 1024

  type Key = b: bytes | |b| == 32 witness seq(32, _ => 0 as byte)

  /** The three key derivations of the media layer. */
  datatype Schedule = Schedule(base: (Key, Id) -> Key, next: Key -> Key, frame: (Key, nat) -> Key)

  datatype Ratchet = Ratchet(chain: Key, epoch: nat)

  /** The chain `n` epochs on. */
  function Advance(s: Schedule, chain: Key, n: nat): (c: Key) {
    if n == 0 then chain else s.next(Advance(s, chain, n - 1))
  }

  /** What the protocol fixes as the key of frame `index` of `sender`. */
  function FrameKey(s: Schedule, group: Key, sender: Id, index: nat): (k: Key) {
    s.frame(Advance(s, s.base(group, sender), index / EPOCH), index)
  }

  function Fresh(s: Schedule, group: Key, sender: Id): (r: Ratchet) {
    Ratchet(s.base(group, sender), 0)
  }

  /** The ratchet sits on `sender`'s chain at its epoch. */
  ghost predicate OnChain(s: Schedule, group: Key, sender: Id, r: Ratchet) {
    r.chain == Advance(s, s.base(group, sender), r.epoch)
  }

  function SendKey(s: Schedule, r: Ratchet, index: nat): (o: (Ratchet, Option<Key>)) {
    var target := index / EPOCH;
    if target < r.epoch then (r, None)
    else
      var chain := Advance(s, r.chain, target - r.epoch);
      (Ratchet(chain, target), Some(s.frame(chain, index)))
  }

  function RecvKey(s: Schedule, r: Ratchet, index: nat): (o: (Ratchet, Option<Key>)) {
    if index / EPOCH > r.epoch + MAX_EPOCH_JUMP then (r, None) else SendKey(s, r, index)
  }

  lemma {:induction false} AdvanceAdds(s: Schedule, chain: Key, m: nat, n: nat)
    ensures Advance(s, Advance(s, chain, m), n) == Advance(s, chain, m + n)
  {
    if n > 0 {
      AdvanceAdds(s, chain, m, n - 1);
    }
  }

  /** Whatever epoch a ratchet has reached, the key it hands out is the one fixed for that frame. */
  lemma SameKeyBothSides(s: Schedule, group: Key, sender: Id, r: Ratchet, index: nat)
    requires OnChain(s, group, sender, r)
    ensures OnChain(s, group, sender, SendKey(s, r, index).0)
    ensures OnChain(s, group, sender, RecvKey(s, r, index).0)
    ensures SendKey(s, r, index).1 == if index / EPOCH < r.epoch then None else Some(FrameKey(s, group, sender, index))
    ensures RecvKey(s, r, index).1
         == if r.epoch <= index / EPOCH <= r.epoch + MAX_EPOCH_JUMP then Some(FrameKey(s, group, sender, index))
           else None
  {
    if index / EPOCH >= r.epoch {
      AdvanceAdds(s, s.base(group, sender), r.epoch, index / EPOCH - r.epoch);
    }
  }

  class MediaRatchet {
    const s: Schedule
    var chain: Key
    var epoch: nat

    function View(): (r: Ratchet)
      reads this
    {
      Ratchet(chain, epoch)
    }

    constructor (s: Schedule, r: Ratchet)
      ensures View() == r && this.s == s
    {
      this.s, chain, epoch := s, r.chain, r.epoch;
    }

    method Send(index: nat) returns (k: Option<Key>)
      modifies this
      ensures (View(), k) == SendKey(s, old(View()), index)
    {
      var target := index / EPOCH;
      if target < epoch {
        return None;
      }
      while epoch < target
        invariant old(epoch) <= epoch <= target && chain == Advance(s, old(chain), epoch - old(epoch))
      {
        chain := s.next(chain);
        epoch := epoch + 1;
      }
      k := Some(s.frame(chain, index));
    }

    method Receive(index: nat) returns (k: Option<Key>)
      modifies this
      ensures (View(), k) == RecvKey(s, old(View()), index)
    {
      var target := index / EPOCH;
      if target < epoch || target - epoch > MAX_EPOCH_JUMP {
        return None;
      }
      k := Send(index);
    }
  }
}
