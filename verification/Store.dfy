/** The crash-safe store as a machine over its file operations (crates/cfr/src/persistence/store.rs). */
module Store {
  import opened Base
  import opened Wal

  // ------------------------------------------------------------------------------------ recovery

  function SelectFrom(snapshot: Record, wal: seq<Record>, chosen: Record): (r: Option<Record>)
    decreases |wal|
  {
    if wal == [] then Some(chosen)
    else
      var next := wal[0];
      if next.sequence < chosen.sequence then SelectFrom(snapshot, wal[1..], chosen)
      else if next.sequence == chosen.sequence then
        if next.sequence == snapshot.sequence && next.payload != snapshot.payload then None
        else SelectFrom(snapshot, wal[1..], chosen)
      else if next.sequence != chosen.sequence + 1 then None
      else SelectFrom(snapshot, wal[1..], next)
  }

  /** Which persisted state a reopened conference continues from. */
  function Select(snapshot: Option<Record>, wal: seq<Record>): (r: Option<Record>) {
    if snapshot.Some? then SelectFrom(snapshot.value, wal, snapshot.value)
    else if wal == [] then None
    else Some(wal[|wal| - 1])
  }

  method SelectRecovered(snapshot: Option<Record>, wal: seq<Record>) returns (r: Option<Record>)
    ensures r == Select(snapshot, wal)
  {
    if snapshot == None {
      return if wal == [] then None else Some(wal[|wal| - 1]);
    }
    var chosen := snapshot.value;
    assert wal[0..] == wal;
    for i := 0 to |wal|
      invariant SelectFrom(snapshot.value, wal[i..], chosen) == Select(snapshot, wal)
    {
      var next := wal[i];
      assert wal[i..][1..] == wal[i + 1..];
      if next.sequence == chosen.sequence {
        if next.sequence == snapshot.value.sequence && next.payload != snapshot.value.payload {
          return None;
        }
      } else if next.sequence > chosen.sequence {
        if next.sequence != chosen.sequence + 1 {
          return None;
        }
        chosen := next;
      }
    }
    r := Some(chosen);
  }

  /** The logical decoder's verdict on a record; one of another schema version is not opened at all. */
  datatype Verdict = Sane | Broken | OtherSchema

  type Judge = Record -> Verdict

  /** The snapshot to start from: `None` when the store must not be opened. */
  function StartFrom(valid: Judge, s: Snapshot): (r: Option<Option<Record>>) {
    match s
    case OtherVersion => None
    case Damaged => Some(None)
    case Present(record) =>
      match valid(record)
      case OtherSchema => None
      case Broken => Some(None)
      case Sane => Some(Some(record))
  }

  function Recover(c: Sums, valid: Judge, snapshot: bytes, wal: bytes): (r: Option<Record>) {
    if |wal| > HARD_MAX_WAL_BYTES then None
    else match ScanWal(c, wal)
      case Corrupt => None
      case Scanned(records, _) =>
        var base := StartFrom(valid, ParseSnapshot(c, snapshot));
        if base == None || exists i :: 0 <= i < |records| && !valid(records[i]).Sane? then None
        else Select(base.value, records)
  }

  ghost predicate Usable(valid: Judge, r: Record) {
    Writable(r) && valid(r).Sane?
  }

  /** Snapshot `s` and log `rs` together stand for `live`. */
  ghost predicate Coherent(valid: Judge, s: Record, rs: seq<Record>, live: Record) {
    && Usable(valid, s) && Usable(valid, live)
    && Consecutive(rs) && (forall i :: 0 <= i < |rs| ==> valid(rs[i]).Sane?)
    && (rs == [] ==> s == live)
    && (rs != [] ==> rs[|rs| - 1] == live && rs[0].sequence <= s.sequence + 1 && s.sequence <= live.sequence)
    && (forall i :: 0 <= i < |rs| && rs[i].sequence == s.sequence ==> rs[i] == s)
  }

  /** Scanning a coherent log from a snapshot ends at the live state. */
  lemma {:induction false} SelectEnds(valid: Judge, s: Record, rs: seq<Record>, live: Record, chosen: Record)
    requires Consecutive(rs) && s.sequence <= chosen.sequence
    requires rs == [] ==> chosen == live
    requires rs != [] ==>
      rs[|rs| - 1] == live && rs[0].sequence <= chosen.sequence + 1 && chosen.sequence <= live.sequence
    requires forall i :: 0 <= i < |rs| && rs[i].sequence == s.sequence ==> rs[i] == s
    requires forall i :: 0 <= i < |rs| && rs[i].sequence == chosen.sequence ==> rs[i] == chosen
    ensures SelectFrom(s, rs, chosen) == Some(live)
    decreases |rs|
  {
    if rs != [] {
      var rest := rs[1..];
      assert forall i :: 0 <= i < |rest| ==> rest[i] == rs[i + 1];
      var next := if rs[0].sequence <= chosen.sequence then chosen else rs[0];
      if rest == [] {
        assert rs[0] == live;
      } else {
        assert rs[1].sequence == rs[0].sequence + 1;
        assert rs[|rs| - 1].sequence == rs[0].sequence + (|rs| - 1);
      }
      SelectEnds(valid, s, rest, live, next);
    }
  }

  lemma CoherentSelects(valid: Judge, s: Record, rs: seq<Record>, live: Record)
    requires Coherent(valid, s, rs, live)
    ensures Select(Some(s), rs) == Some(live)
  {
    SelectEnds(valid, s, rs, live, s);
  }

  lemma CoherentPush(valid: Judge, s: Record, rs: seq<Record>, live: Record, r: Record)
    requires Coherent(valid, s, rs, live) && Usable(valid, r) && r.sequence == live.sequence + 1
    ensures Coherent(valid, s, rs + [r], r)
  {
    ConsecutivePush(rs, r);
  }

  lemma ConsecutivePush(rs: seq<Record>, r: Record)
    requires Consecutive(rs) && Writable(r) && (rs != [] ==> r.sequence == rs[|rs| - 1].sequence + 1)
    ensures Consecutive(rs + [r])
  {
    forall i, j | 0 <= i < j < |rs + [r]| ensures (rs + [r])[j].sequence == (rs + [r])[i].sequence + (j - i) {
      if j == |rs| && i < |rs| - 1 {
        assert rs[|rs| - 1].sequence == rs[i].sequence + (|rs| - 1 - i);
      }
    }
  }

  lemma CoherentCheckpoint(valid: Judge, s: Record, rs: seq<Record>, live: Record)
    requires Coherent(valid, s, rs, live)
    ensures Coherent(valid, live, rs, live) && Coherent(valid, live, [], live)
  {
    forall i | 0 <= i < |rs| - 1 ensures rs[i].sequence < live.sequence {
      assert rs[|rs| - 1].sequence == rs[i].sequence + (|rs| - 1 - i);
    }
    if rs != [] {
      assert 0 < |rs| - 1 ==> rs[|rs| - 1].sequence == rs[0].sequence + (|rs| - 1);
    }
  }

  /** Reopening coherent files, with any part of one further record after the log, yields the live
    * state, or that record when all of it reached the disk. */
  lemma RecoverCoherent(c: Sums, valid: Judge, s: Record, rs: seq<Record>, live: Record, r: Record, k: nat)
    requires Coherent(valid, s, rs, live) && Usable(valid, r) && r.sequence == live.sequence + 1
    requires k <= |EncodeRecord(c, r)| && |WalBytes(c, rs)| + k <= HARD_MAX_WAL_BYTES
    ensures var wal := WalBytes(c, rs) + EncodeRecord(c, r)[..k];
      && ScanWal(c, wal) == (if k < |EncodeRecord(c, r)| then Scanned(rs, |WalBytes(c, rs)|)
                             else Scanned(rs + [r], |wal|))
      && Recover(c, valid, EncodeSnapshot(c, s), wal) == Some(if k < |EncodeRecord(c, r)| then live else r)
  {
    SnapshotRoundTrip(c, s);
    if k < |EncodeRecord(c, r)| {
      ScanCutsTornTail(c, rs, r, k);
      CoherentSelects(valid, s, rs, live);
    } else {
      CoherentPush(valid, s, rs, live, r);
      WalBytesPush(c, rs, r);
      ScanWhole(c, rs + [r]);
      CoherentSelects(valid, s, rs + [r], r);
    }
  }

  lemma WalBytesPush(c: Sums, rs: seq<Record>, r: Record)
    ensures WalBytes(c, rs) + EncodeRecord(c, r) == WalBytes(c, rs + [r])
    ensures EncodeRecord(c, r)[..|EncodeRecord(c, r)|] == EncodeRecord(c, r)
  {
    RecordsPush(LogFormat(c), rs, r);
  }

  lemma RecoverIdle(c: Sums, valid: Judge, s: Record, rs: seq<Record>, live: Record)
    requires Coherent(valid, s, rs, live) && |WalBytes(c, rs)| <= HARD_MAX_WAL_BYTES
    ensures ScanWal(c, WalBytes(c, rs)) == Scanned(rs, |WalBytes(c, rs)|)
    ensures Recover(c, valid, EncodeSnapshot(c, s), WalBytes(c, rs)) == Some(live)
  {
    SnapshotRoundTrip(c, s);
    ScanWhole(c, rs);
    CoherentSelects(valid, s, rs, live);
  }
}
