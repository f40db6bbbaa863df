/** Replay suppression per sender (crates/cfr-media/src/replay.rs). */
module ReplayModule {

  const WINDOW: nat := 64

  /** A 64-bit word, lowest bit first. */
  type Word = b: seq<bool> | |b| == WINDOW witness seq(WINDOW, _ => false)

  /** The window as a value. Bit `k` of the 64-bit word is `seen[k]` and stands for index `high - k`. */
  datatype Window = Window(high: nat, seen: Word, started: bool)

  function Blank(): (r: Word)
    ensures forall k :: 0 <= k < WINDOW ==> !r[k]
  {
    seq(WINDOW, _ => false)
  }

  function Unstarted(): (w: Window) {
    Window(0, Blank(), false)
  }

  /** The 64-bit left shift: low bits become zero, high bits are lost. */
  function Shift(seen: Word, n: nat): (r: Word) {
    if n >= WINDOW then Blank() else seq(n, _ => false) + seen[..WINDOW - n]
  }

  function Accept(w: Window, index: nat): (r: (Window, bool)) {
    if !w.started then (Window(index, Blank()[0 := true], true), true)
    else if index > w.high then (Window(index, Shift(w.seen, index - w.high)[0 := true], true), true)
    else
      var back := w.high - index;
      if back >= WINDOW || w.seen[back] then (w, false)
      else (w.(seen := w.seen[back := true]), true)
  }

  ghost predicate Distinct(accepted: seq<nat>) {
    forall i, j :: 0 <= i < j < |accepted| ==> accepted[i] != accepted[j]
  }

  /** The word holds exactly the accepted indices inside the window, and no index was accepted twice. */
  ghost predicate Tracks(w: Window, accepted: seq<nat>) {
    && Distinct(accepted)
    && (!w.started ==> accepted == [] && w == Unstarted())
    && (w.started ==> w.high in accepted && forall c :: c in accepted ==> c <= w.high)
    && (w.started ==> forall k: nat :: k < WINDOW ==> (w.seen[k] <==> k <= w.high && w.high - k in accepted))
  }

  /** An index is accepted exactly when it is new and not older than the window, and the word keeps
    * tracking what was accepted. */
  lemma AcceptTracks(w: Window, accepted: seq<nat>, index: nat)
    requires Tracks(w, accepted)
    ensures Accept(w, index).1 <==> index !in accepted && (w.started ==> index + WINDOW > w.high)
    ensures !Accept(w, index).1 ==> Accept(w, index).0 == w
    ensures Tracks(Accept(w, index).0, if Accept(w, index).1 then accepted + [index] else accepted)
  {
    if w.started && index <= w.high && w.high - index < WINDOW {
      assert w.seen[w.high - index] <==> index in accepted;
    }
    var (v, ok) := Accept(w, index);
    if ok {
      forall k: nat | k < WINDOW
        ensures v.seen[k] <==> k <= v.high && v.high - k in accepted + [index]
      {
        if w.started && index > w.high && index - w.high <= k {
          assert v.high - k == w.high - (k - (index - w.high));
        }
      }
    }
  }

  class Replay {
    var high: nat
    var seen: Word
    var started: bool

    function View(): (w: Window)
      reads this
    {
      Window(high, seen, started)
    }

    constructor (w: Window)
      ensures View() == w
    {
      high, seen, started := w.high, w.seen, w.started;
    }

    method Offer(index: nat) returns (ok: bool)
      modifies this
      ensures (View(), ok) == Accept(old(View()), index)
    {
      if !started {
        started, high, seen := true, index, Blank()[0 := true];
        return true;
      }
      if index > high {
        seen := Shift(seen, index - high);
        seen := seen[0 := true];
        high := index;
        return true;
      }
      var back := high - index;
      if back >= WINDOW || seen[back] {
        return false;
      }
      seen := seen[back := true];
      return true;
    }
  }
}
