/** Pairwise ratcheted channels (crates/cfr-core/src/channel.rs) and the receive loop that drives them
  * (crates/cfr-core/src/member.rs, `receive_contribution`). */
module Channel {
  import opened Base
  import opened Keys

  const MAX_BUFFERED: nat := 64

  /** The three derivations of a channel, arbitrary. */
  datatype ChannelKdf = ChannelKdf(first: Secret -> Secret, message: (Secret, nat) -> Secret,
                                   next: (Secret, nat) -> Secret)

  /** The chain key at an index, and the message key derived from it. */
  function ChainAt(k: ChannelKdf, root: Secret, i: nat): (c: Secret) {
    if i == 0 then k.first(root) else k.next(ChainAt(k, root, i - 1), i - 1)
  }

  function MessageKey(k: ChannelKdf, root: Secret, i: nat): (c: Secret) {
    k.message(ChainAt(k, root, i), i)
  }

  class Chan {
    const kdf: ChannelKdf
    ghost const root: Secret
    var chain: Secret
    var next: nat

    ghost predicate Valid()
      reads this
    {
      next <= MAX_U64 && chain == ChainAt(kdf, root, next)
    }

    constructor (kdf: ChannelKdf, root: Secret)
      ensures Valid() && this.kdf == kdf && this.root == root && next == 0
    {
      this.kdf, this.root := kdf, root;
      chain, next := kdf.first(root), 0;
    }

    /** Commits one ratchet step; refuses to wrap, leaving the chain as it was. */
    method Advance() returns (ok: bool)
      requires Valid()
      modifies this
      ensures Valid()
      ensures ok <==> old(next) < MAX_U64
      ensures next == if ok then old(next) + 1 else old(next)
    {
      if next == MAX_U64 {
        return false;
      }
      chain := kdf.next(chain, next);
      next := next + 1;
      return true;
    }

    /** The sender's step: the index and its message key. */
    method Step() returns (r: Option<(nat, Secret)>)
      requires Valid()
      modifies this
      ensures Valid()
      ensures old(next) == MAX_U64 ==> r == None && next == old(next)
      ensures old(next) < MAX_U64 ==> r == Some((old(next), MessageKey(kdf, root, old(next)))) && next == old(next) + 1
    {
      if next == MAX_U64 {
        return None;
      }
      var index, key := next, kdf.message(chain, next);
      var ok := Advance();
      return Some((index, key));
    }
  }

  // ----------------------------------------------------------------- the receiving side, as a function

  /** Position of the ratchet and the reordering buffer. */
  datatype Recv = Recv(position: nat, buffer: map<nat, bytes>)

  /** New state and the slices committed by one call, in order. */
  datatype Received = Received(r: Recv, committed: seq<(nat, bytes)>)

  /** Commits buffered slices while the awaited one is there and authenticates under its own key. A
    * slice that fails has left the buffer and stops the loop. */
  function DrainBuffer(r: Recv, opens: (nat, bytes) -> bool): (x: Received)
    decreases |r.buffer|
  {
    if r.position >= MAX_U64 || r.position !in r.buffer then Received(r, [])
    else
      var payload := r.buffer[r.position];
      var rest := r.(buffer := r.buffer - {r.position});
      if !opens(r.position, payload) then Received(rest, [])
      else
        var tail := DrainBuffer(rest.(position := r.position + 1), opens);
        Received(tail.r, [(r.position, payload)] + tail.committed)
  }

  /** One arriving slice. `opens(i, p)` says whether `p` authenticates under the key of index `i`. */
  function Arrive(r: Recv, index: nat, payload: bytes, opens: (nat, bytes) -> bool): (x: Received) {
    if index < r.position then Received(r, [])
    else if index > r.position then
      if |r.buffer| < MAX_BUFFERED && index !in r.buffer then Received(r.(buffer := r.buffer[index := payload]), [])
      else Received(r, [])
    else if index >= MAX_U64 || !opens(index, payload) then Received(r, [])
    else
      var tail := DrainBuffer(r.(position := index + 1), opens);
      Received(tail.r, [(index, payload)] + tail.committed)
  }

  /** Between calls every buffered slice is strictly ahead of the awaited one, except that a slice for
    * the last representable index stays behind when the ratchet is exhausted. */
  ghost predicate Ahead(r: Recv) {
    && r.position <= MAX_U64 && |r.buffer| <= MAX_BUFFERED
    && forall i :: i in r.buffer ==> r.position < i <= MAX_U64 || r.position == i == MAX_U64
  }

  ghost predicate NotBehind(r: Recv) {
    r.position <= MAX_U64 && |r.buffer| <= MAX_BUFFERED && forall i :: i in r.buffer ==> r.position <= i <= MAX_U64
  }

  /** `log` holds exactly the indices from `a` to `b`, once each, in order, all authentic. */
  ghost predicate Consecutive(log: seq<(nat, bytes)>, a: nat, b: nat, opens: (nat, bytes) -> bool) {
    && a + |log| == b
    && forall i :: 0 <= i < |log| ==> log[i].0 == a + i && opens(log[i].0, log[i].1)
  }

  lemma Prepend(head: (nat, bytes), log: seq<(nat, bytes)>, b: nat, opens: (nat, bytes) -> bool)
    requires opens(head.0, head.1) && Consecutive(log, head.0 + 1, b, opens)
    ensures Consecutive([head] + log, head.0, b, opens)
  {
  }

  lemma {:induction false} DrainInOrder(r: Recv, opens: (nat, bytes) -> bool)
    requires NotBehind(r)
    ensures var x := DrainBuffer(r, opens);
      Ahead(x.r) && Consecutive(x.committed, r.position, x.r.position, opens)
    decreases |r.buffer|
  {
    if r.position < MAX_U64 && r.position in r.buffer {
      var payload := r.buffer[r.position];
      var rest := r.(buffer := r.buffer - {r.position});
      if opens(r.position, payload) {
        DrainInOrder(rest.(position := r.position + 1), opens);
        Prepend((r.position, payload), DrainBuffer(rest.(position := r.position + 1), opens).committed,
          DrainBuffer(rest.(position := r.position + 1), opens).r.position, opens);
      }
    }
  }

  /** One arrival, whatever its index and payload. */
  lemma ArriveInOrder(r: Recv, index: nat, payload: bytes, opens: (nat, bytes) -> bool)
    requires Ahead(r) && index <= MAX_U64
    ensures var x := Arrive(r, index, payload, opens);
      Ahead(x.r) && Consecutive(x.committed, r.position, x.r.position, opens)
  {
    if index == r.position && index < MAX_U64 && opens(index, payload) {
      DrainInOrder(r.(position := index + 1), opens);
      var tail := DrainBuffer(r.(position := index + 1), opens);
      Prepend((index, payload), tail.committed, tail.r.position, opens);
    }
  }

  function Session(r: Recv, arrivals: seq<(nat, bytes)>, opens: (nat, bytes) -> bool): (x: Received)
    decreases |arrivals|
  {
    if arrivals == [] then Received(r, [])
    else
      var head := Arrive(r, arrivals[0].0, arrivals[0].1, opens);
      var tail := Session(head.r, arrivals[1..], opens);
      Received(tail.r, head.committed + tail.committed)
  }

  lemma {:induction false} SessionInOrder(r: Recv, arrivals: seq<(nat, bytes)>, opens: (nat, bytes) -> bool)
    requires Ahead(r) && forall i :: 0 <= i < |arrivals| ==> arrivals[i].0 <= MAX_U64
    ensures var x := Session(r, arrivals, opens);
      Ahead(x.r) && Consecutive(x.committed, r.position, x.r.position, opens)
    decreases |arrivals|
  {
    if arrivals != [] {
      ArriveInOrder(r, arrivals[0].0, arrivals[0].1, opens);
      SessionInOrder(Arrive(r, arrivals[0].0, arrivals[0].1, opens).r, arrivals[1..], opens);
    }
  }

  /** Whatever is reordered, repeated, dropped or forged, what a fresh channel commits is a prefix of what
    * was sent: each index once, in order, with the sender's payload. */
  lemma CommittedIsSentPrefix(sent: seq<bytes>, arrivals: seq<(nat, bytes)>, opens: (nat, bytes) -> bool)
    requires forall i: nat, p :: opens(i, p) ==> i < |sent| && p == sent[i]
    requires forall i :: 0 <= i < |arrivals| ==> arrivals[i].0 <= MAX_U64
    ensures var x := Session(Recv(0, map[]), arrivals, opens);
      && Ahead(x.r) && x.r.position == |x.committed| <= |sent|
      && forall i :: 0 <= i < |x.committed| ==> x.committed[i] == (i, sent[i])
  {
    SessionInOrder(Recv(0, map[]), arrivals, opens);
    var x := Session(Recv(0, map[]), arrivals, opens);
    forall i | 0 <= i < |x.committed| ensures i < |sent| && x.committed[i] == (i, sent[i]) {
      assert x.committed[i].0 == 0 + i && opens(x.committed[i].0, x.committed[i].1);
    }
    if |x.committed| > 0 {
      var last := |x.committed| - 1;
      assert x.committed[last].0 == 0 + last && opens(x.committed[last].0, x.committed[last].1);
    }
  }

  /** The exception in `Ahead` is real: one step before exhaustion, a buffered last slice is left behind. */
  lemma LastSliceStaysBehind(payload: bytes, opens: (nat, bytes) -> bool)
    requires opens(MAX_U64 - 1, payload)
    ensures var r := Recv(MAX_U64 - 1, map[MAX_U64 := payload]);
      Ahead(r) && Arrive(r, MAX_U64 - 1, payload, opens).r == Recv(MAX_U64, map[MAX_U64 := payload])
  {
  }

  // ---------------------------------------------------------------------- the receiving side, in place

  class RecvChan {
    const chan: Chan
    var buffer: map<nat, bytes>

    ghost function View(): (r: Recv)
      reads this, chan
    {
      Recv(chan.next, buffer)
    }

    ghost predicate Valid()
      reads this, chan
    {
      chan.Valid()
    }

    constructor (kdf: ChannelKdf, root: Secret)
      ensures Valid() && fresh(chan) && View() == Recv(0, map[]) && chan.kdf == kdf && chan.root == root
    {
      chan := new Chan(kdf, root);
      buffer := map[];
    }

    /** The key for the awaited index; future slices are buffered, past ones ignored. */
    method Offer(index: nat, payload: bytes) returns (key: Option<Secret>)
      requires Valid()
      modifies this`buffer
      ensures Valid()
      ensures key == if index == chan.next && index < MAX_U64 then Some(MessageKey(chan.kdf, chan.root, index))
        else None
      ensures buffer == if index > chan.next && |old(buffer)| < MAX_BUFFERED && index !in old(buffer)
                        then old(buffer)[index := payload] else old(buffer)
    {
      if index < chan.next {
        return None;
      }
      if index > chan.next {
        if |buffer| < MAX_BUFFERED && index !in buffer {
          buffer := buffer[index := payload];
        }
        return None;
      }
      if index >= MAX_U64 {
        return None;
      }
      return Some(chan.kdf.message(chan.chain, chan.next));
    }

    method Commit(index: nat) returns (ok: bool)
      requires Valid()
      modifies chan
      ensures Valid()
      ensures ok <==> index == old(chan.next) && old(chan.next) < MAX_U64
      ensures chan.next == if ok then old(chan.next) + 1 else old(chan.next)
    {
      if index != chan.next {
        return false;
      }
      ok := chan.Advance();
    }

    /** Takes the buffered slice at the awaited index, with its key. */
    method TakeNext() returns (r: Option<(nat, bytes, Secret)>)
      requires Valid()
      modifies this`buffer
      ensures Valid()
      ensures chan.next >= MAX_U64 || chan.next !in old(buffer) ==> r == None && buffer == old(buffer)
      ensures chan.next < MAX_U64 && chan.next in old(buffer) ==>
        r == Some((chan.next, old(buffer)[chan.next], MessageKey(chan.kdf, chan.root, chan.next)))
        && buffer == old(buffer) - {chan.next}
    {
      var index := chan.next;
      if index >= MAX_U64 || index !in buffer {
        return None;
      }
      var payload := buffer[index];
      buffer := buffer - {index};
      return Some((index, payload, chan.kdf.message(chan.chain, index)));
    }

    /** The receive path: offer, authenticate under the offered key, commit, then drain the buffer. Every
      * payload is authenticated under the sender's key for its own index. */
    method Receive(index: nat, payload: bytes, authentic: (Secret, nat, bytes) -> bool)
      returns (committed: seq<(nat, bytes)>)
      requires Valid()
      modifies this, chan
      ensures Valid()
      ensures Received(View(), committed) == Arrive(old(View()), index, payload, Opener(chan.kdf, chan.root, authentic))
    {
      var key := Offer(index, payload);
      if key == None || !authentic(key.value, index, payload) {
        return [];
      }
      var ok := Commit(index);
      var rest := Drain(authentic);
      committed := [(index, payload)] + rest;
    }

    method Drain(authentic: (Secret, nat, bytes) -> bool) returns (committed: seq<(nat, bytes)>)
      requires Valid()
      modifies this, chan
      ensures Valid()
      ensures Received(View(), committed) == DrainBuffer(old(View()), Opener(chan.kdf, chan.root, authentic))
    {
      ghost var opens := Opener(chan.kdf, chan.root, authentic);
      committed := [];
      while true
        invariant Valid()
        invariant Continue(committed, DrainBuffer(View(), opens)) == DrainBuffer(old(View()), opens)
        decreases |buffer|
      {
        var next := TakeNext();
        if next == None {
          break;
        }
        var (i, p, key) := next.value;
        if !authentic(key, i, p) {
          break;
        }
        var done := Commit(i);
        ContinueOne(committed, (i, p), DrainBuffer(View(), opens));
        committed := committed + [(i, p)];
      }
    }
  }

  /** Authentication as a function of the index: the key is the one the sender used for it. */
  ghost function Opener(k: ChannelKdf, root: Secret,
                        authentic: (Secret, nat, bytes) -> bool): (f: (nat, bytes) -> bool) {
    (i: nat, p: bytes) => authentic(MessageKey(k, root, i), i, p)
  }

  ghost function Continue(committed: seq<(nat, bytes)>, rest: Received): (x: Received) {
    Received(rest.r, committed + rest.committed)
  }

  lemma ContinueOne(committed: seq<(nat, bytes)>, one: (nat, bytes), rest: Received)
    ensures Continue(committed, Received(rest.r, [one] + rest.committed)) == Continue(committed + [one], rest)
  {
    assert committed + ([one] + rest.committed) == committed + [one] + rest.committed;
  }
}
