/** Snapshot and write-ahead-log formats (crates/cfr/src/persistence/store.rs). */
module Wal {
  import opened Base
  import BE = BigEndian

  const STORE_FORMAT_VERSION: nat := 1
  const HARD_MAX_STATE_BYTES: nat := 0x40_0000
  const HARD_MAX_WAL_BYTES: nat := 0x400_0000
  const WAL_HEADER_LEN: nat := 12
  const RECORD_PREFIX_LEN: nat := 56
  const RECORD_OVERHEAD: nat := 64
  const SNAPSHOT_PREFIX_LEN: nat := 60
  const SNAPSHOT_OVERHEAD: nat := 68

  const SNAPSHOT_MAGIC: bytes := [67, 70, 82, 83, 78, 65, 80, 0]
  const WAL_MAGIC: bytes := [67, 70, 82, 87, 65, 76, 0, 0]
  const RECORD_MAGIC: bytes := [67, 70, 82, 82, 69, 67, 0, 0]
  const COMMIT_MARKER: bytes := [67, 70, 82, 67, 77, 73, 84, 0]

  type Sum = b: bytes | |b| == 32 witness seq(32, _ => 0 as byte)

  /** The two checksums, over a sequence number and a payload. */
  datatype Sums = Sums(snapshot: (nat, bytes) -> Sum, record: (nat, bytes) -> Sum)

  datatype Record = Record(sequence: nat, payload: bytes)

  /** What the store ever writes: a positive 64-bit sequence and a bounded payload. */
  predicate Writable(r: Record) {
    1 <= r.sequence <= MAX_U64 && |r.payload| <= HARD_MAX_STATE_BYTES
  }

  // ------------------------------------------------------------------------------------ records

  function EncodeRecord(c: Sums, r: Record): (b: bytes)
    ensures |b| == RECORD_OVERHEAD + |r.payload|
  {
    RECORD_MAGIC + BE.Encode(r.sequence, 8) + BE.Encode(|r.payload|, 8) + c.record(r.sequence, r.payload)
    + r.payload + COMMIT_MARKER
  }

  datatype Outcome = Whole(record: Record, size: nat) | Torn | Bad

  /** Reads one record at the front of `b`; too few bytes for it means a torn write. */
  function ParseRecord(c: Sums, b: bytes): (o: Outcome)
    ensures o.Whole? ==> 0 < o.size <= |b|
  {
    if |b| < RECORD_PREFIX_LEN then Torn
    else if b[..8] != RECORD_MAGIC then Bad
    else
      var sequence, length := BE.Decode(b[8..16]), BE.Decode(b[16..24]);
      if sequence == 0 || length > HARD_MAX_STATE_BYTES then Bad
      else if |b| < RECORD_OVERHEAD + length then Torn
      else
        var payload := b[RECORD_PREFIX_LEN..RECORD_PREFIX_LEN + length];
        if b[RECORD_PREFIX_LEN + length..RECORD_OVERHEAD + length] != COMMIT_MARKER then Bad
        else if b[24..56] != c.record(sequence, payload) then Bad
        else Whole(Record(sequence, payload), RECORD_OVERHEAD + length)
  }

  /** The first 56 bytes of any prefix that long are those of the record. */
  lemma RecordHead(c: Sums, r: Record, b: bytes)
    requires Writable(r) && |b| >= RECORD_PREFIX_LEN && (EncodeRecord(c, r) <= b || b <= EncodeRecord(c, r))
    ensures b[..8] == RECORD_MAGIC && BE.Decode(b[8..16]) == r.sequence && BE.Decode(b[16..24]) == |r.payload|
    ensures b[24..56] == c.record(r.sequence, r.payload)
  {
    var e := EncodeRecord(c, r);
    var tail := c.record(r.sequence, r.payload) + r.payload + COMMIT_MARKER;
    assert e[..8] == RECORD_MAGIC && e[8..16] == BE.Encode(r.sequence, 8) && e[16..24] == BE.Encode(|r.payload|, 8);
    assert e[24..56] == c.record(r.sequence, r.payload);
    BE.EightBytes(r.sequence);
    BE.EightBytes(|r.payload|);
    BE.DecodeEncode(r.sequence, 8);
    BE.DecodeEncode(|r.payload|, 8);
    SameSlices(e, b);
  }

  lemma SameSlices(e: bytes, b: bytes)
    requires |e| >= 56 && |b| >= 56 && (e <= b || b <= e)
    ensures e[..8] == b[..8] && e[8..16] == b[8..16] && e[16..24] == b[16..24] && e[24..56] == b[24..56]
  {
    assert forall i :: 0 <= i < 56 ==> e[i] == b[i];
  }

  lemma RecordParses(c: Sums, r: Record, rest: bytes)
    requires Writable(r)
    ensures ParseRecord(c, EncodeRecord(c, r) + rest) == Whole(r, |EncodeRecord(c, r)|)
  {
    var b := EncodeRecord(c, r) + rest;
    RecordHead(c, r, b);
    var n := |r.payload|;
    assert b[RECORD_PREFIX_LEN..RECORD_PREFIX_LEN + n] == r.payload;
    assert b[RECORD_PREFIX_LEN + n..RECORD_OVERHEAD + n] == COMMIT_MARKER;
  }

  /** A proper prefix of a record is recognised as torn, never as damage. */
  lemma PrefixIsTorn(c: Sums, r: Record, k: nat)
    requires Writable(r) && k < |EncodeRecord(c, r)|
    ensures ParseRecord(c, EncodeRecord(c, r)[..k]) == Torn
  {
    if k >= RECORD_PREFIX_LEN {
      RecordHead(c, r, EncodeRecord(c, r)[..k]);
    }
  }

  /** Accepted bytes are exactly the encoding of the record returned. */
  lemma ParsedRecord(c: Sums, b: bytes)
    requires ParseRecord(c, b).Whole?
    ensures var o := ParseRecord(c, b); Writable(o.record) && b[..o.size] == EncodeRecord(c, o.record)
  {
    var o := ParseRecord(c, b);
    var n := |o.record.payload|;
    BE.EncodeDecode(b[8..16]);
    BE.EncodeDecode(b[16..24]);
    BE.EightBytes(o.record.sequence);
    assert b[..o.size] == b[..8] + b[8..16] + b[16..24] + b[24..56] + b[56..56 + n] + b[56 + n..64 + n];
  }

  // ---------------------------------------------------------------------------------- snapshots

  function EncodeSnapshot(c: Sums, r: Record): (b: bytes)
    ensures |b| == SNAPSHOT_OVERHEAD + |r.payload|
  {
    SNAPSHOT_MAGIC + BE.Encode(STORE_FORMAT_VERSION, 4) + BE.Encode(r.sequence, 8) + BE.Encode(|r.payload|, 8)
    + c.snapshot(r.sequence, r.payload) + r.payload + COMMIT_MARKER
  }

  /** What a snapshot file holds; a store of another format version is not opened at all. */
  datatype Snapshot = Present(record: Record) | Damaged | OtherVersion

  function ParseSnapshot(c: Sums, b: bytes): (r: Snapshot) {
    if |b| < SNAPSHOT_PREFIX_LEN || |b| > HARD_MAX_STATE_BYTES + SNAPSHOT_OVERHEAD then Damaged
    else if b[..8] != SNAPSHOT_MAGIC then Damaged
    else if BE.Decode(b[8..12]) != STORE_FORMAT_VERSION then OtherVersion
    else
      var sequence, length := BE.Decode(b[12..20]), BE.Decode(b[20..28]);
      if sequence == 0 || length > HARD_MAX_STATE_BYTES then Damaged
      else if |b| != SNAPSHOT_OVERHEAD + length || b[|b| - 8..] != COMMIT_MARKER then Damaged
      else
        var payload := b[SNAPSHOT_PREFIX_LEN..SNAPSHOT_PREFIX_LEN + length];
        if b[28..60] != c.snapshot(sequence, payload) then Damaged else Present(Record(sequence, payload))
  }

  lemma SnapshotRoundTrip(c: Sums, r: Record)
    requires Writable(r)
    ensures ParseSnapshot(c, EncodeSnapshot(c, r)) == Present(r)
  {
    var b := EncodeSnapshot(c, r);
    assert b[..8] == SNAPSHOT_MAGIC && b[8..12] == BE.Encode(STORE_FORMAT_VERSION, 4);
    assert b[12..20] == BE.Encode(r.sequence, 8) && b[20..28] == BE.Encode(|r.payload|, 8);
    SnapshotBody(c, r, b);
    BE.EightBytes(r.sequence);
    BE.EightBytes(|r.payload|);
    BE.DecodeEncode(STORE_FORMAT_VERSION, 4);
    BE.DecodeEncode(r.sequence, 8);
    BE.DecodeEncode(|r.payload|, 8);
  }

  lemma SnapshotBody(c: Sums, r: Record, b: bytes)
    requires b == EncodeSnapshot(c, r)
    ensures b[28..60] == c.snapshot(r.sequence, r.payload) && b[60..60 + |r.payload|] == r.payload
    ensures b[|b| - 8..] == COMMIT_MARKER
  {
  }

  // ----------------------------------------------------------------------------------- the log

  function Header(): (b: bytes)
    ensures |b| == WAL_HEADER_LEN
  {
    WAL_MAGIC + BE.Encode(STORE_FORMAT_VERSION, 4)
  }

  /** A way to print records and one to find a record at the front of some bytes. */
  datatype Format = Format(enc: Record -> bytes, parse: bytes -> Outcome)

  ghost predicate Bounded(f: Format, b: bytes) {
    f.parse(b).Whole? ==> 0 < f.parse(b).size <= |b|
  }

  ghost predicate Reads(f: Format, r: Record, rest: bytes) {
    Writable(r) ==> f.parse(f.enc(r) + rest) == Whole(r, |f.enc(r)|)
  }

  ghost predicate Finds(f: Format, b: bytes) {
    f.parse(b).Whole? ==>
      0 < f.parse(b).size <= |b| && Writable(f.parse(b).record) && b[..f.parse(b).size] == f.enc(f.parse(b).record)
  }

  ghost predicate Sizable(f: Format) {
    forall b :: Bounded(f, b)
  }

  ghost predicate Faithful(f: Format) {
    Sizable(f) && (forall r, rest :: Reads(f, r, rest)) && (forall b :: Finds(f, b))
  }

  function Records(f: Format, rs: seq<Record>): (b: bytes) {
    if rs == [] then [] else f.enc(rs[0]) + Records(f, rs[1..])
  }

  function ScanFrom(f: Format, b: bytes, prev: Option<nat>): (s: Scan)
    requires Sizable(f)
    ensures s.Scanned? ==> s.end <= |b|
    decreases |b|
  {
    if b == [] then Scanned([], 0)
    else
      assert Bounded(f, b);
      match f.parse(b)
      case Torn => Scanned([], 0)
      case Bad => Corrupt
      case Whole(r, n) =>
        if prev.Some? && r.sequence != prev.value + 1 then Corrupt
        else match ScanFrom(f, b[n..], Some(r.sequence))
          case Corrupt => Corrupt
          case Scanned(rs, e) => Scanned([r] + rs, n + e)
  }

  datatype Scan = Scanned(records: seq<Record>, end: nat) | Corrupt

  ghost predicate Consecutive(rs: seq<Record>) {
    && (forall i :: 0 <= i < |rs| ==> Writable(rs[i]))
    && (forall i, j :: 0 <= i < j < |rs| ==> rs[j].sequence == rs[i].sequence + (j - i))
  }

  function Join(rs: seq<Record>, at: nat, s: Scan): (t: Scan) {
    match s
    case Corrupt => Corrupt
    case Scanned(more, e) => Scanned(rs + more, at + e)
  }

  /** One step of the scan from a position. */
  lemma ScanStep(f: Format, b: bytes, at: nat, prev: Option<nat>)
    requires Sizable(f) && at < |b|
    ensures var o := f.parse(b[at..]);
      && (o.Torn? ==> ScanFrom(f, b[at..], prev) == Scanned([], 0))
      && (o.Bad? ==> ScanFrom(f, b[at..], prev) == Corrupt)
      && (o.Whole? ==> at + o.size <= |b| && o.size > 0)
      && (o.Whole? && prev.Some? && o.record.sequence != prev.value + 1 ==> ScanFrom(f, b[at..], prev) == Corrupt)
      && (o.Whole? && (prev.Some? ==> o.record.sequence == prev.value + 1) ==>
            ScanFrom(f, b[at..], prev) == Join([o.record], o.size,
                                               ScanFrom(f, b[at + o.size..], Some(o.record.sequence))))
  {
    var o := f.parse(b[at..]);
    assert Bounded(f, b[at..]);
    if o.Whole? {
      assert b[at..][o.size..] == b[at + o.size..];
    }
  }

  lemma JoinAssoc(rs: seq<Record>, n: nat, r: Record, k: nat, s: Scan)
    ensures Join(rs, n, Join([r], k, s)) == Join(rs + [r], n + k, s)
  {
    if s.Scanned? {
      assert rs + ([r] + s.records) == rs + [r] + s.records;
    }
  }

  lemma PrintedStep(f: Format, r: Record, rest: bytes, prev: Option<nat>)
    requires Faithful(f) && Writable(r) && (prev.Some? ==> r.sequence == prev.value + 1) && f.enc(r) != []
    ensures ScanFrom(f, f.enc(r) + rest, prev) == Join([r], |f.enc(r)|, ScanFrom(f, rest, Some(r.sequence)))
  {
    var b := f.enc(r) + rest;
    assert Reads(f, r, rest);
    assert b[0..] == b && b[|f.enc(r)|..] == rest;
    ScanStep(f, b, 0, prev);
  }

  lemma {:induction false} ScanRecords(f: Format, rs: seq<Record>, tail: bytes, prev: Option<nat>)
    requires Faithful(f) && Consecutive(rs) && (rs != [] && prev.Some? ==> rs[0].sequence == prev.value + 1)
    requires tail == [] || f.parse(tail) == Torn
    ensures ScanFrom(f, Records(f, rs) + tail, prev) == Scanned(rs, |Records(f, rs)|)
    decreases |rs|
  {
    if rs == [] {
      assert Records(f, rs) + tail == tail;
    } else {
      var r := rs[0];
      var rest := Records(f, rs[1..]) + tail;
      assert Records(f, rs) + tail == f.enc(r) + rest;
      PrintedNonempty(f, r);
      PrintedStep(f, r, rest, prev);
      ConsecutiveTail(rs);
      ScanRecords(f, rs[1..], tail, Some(r.sequence));
      assert rs == [r] + rs[1..];
    }
  }

  lemma ConsecutiveTail(rs: seq<Record>)
    requires rs != [] && Consecutive(rs)
    ensures Consecutive(rs[1..]) && Writable(rs[0]) && (|rs| > 1 ==> rs[1].sequence == rs[0].sequence + 1)
  {
  }

  lemma PrintedNonempty(f: Format, r: Record)
    requires Faithful(f) && Writable(r)
    ensures f.enc(r) != []
  {
    assert Reads(f, r, []) && Bounded(f, f.enc(r) + []);
  }

  ghost predicate Exact(f: Format, b: bytes, s: Scan, prev: Option<nat>) {
    s.Scanned? ==>
      && s.end <= |b| && Consecutive(s.records) && b[..s.end] == Records(f, s.records)
      && (s.records != [] && prev.Some? ==> s.records[0].sequence == prev.value + 1)
      && (s.end == |b| || f.parse(b[s.end..]) == Torn)
  }

  lemma ExactPush(f: Format, b: bytes, r: Record, n: nat, s: Scan, prev: Option<nat>)
    requires 0 < n <= |b| && Writable(r) && b[..n] == f.enc(r) && (prev.Some? ==> r.sequence == prev.value + 1)
    requires Exact(f, b[n..], s, Some(r.sequence))
    ensures Exact(f, b, Join([r], n, s), prev)
  {
    if s.Scanned? {
      var t := Join([r], n, s);
      assert b[..t.end] == b[..n] + b[n..][..s.end];
      assert b[t.end..] == b[n..][s.end..];
      assert t.records[1..] == s.records;
    }
  }

  lemma {:induction false} ScanFromExact(f: Format, b: bytes, prev: Option<nat>)
    requires Faithful(f)
    ensures Exact(f, b, ScanFrom(f, b, prev), prev)
    decreases |b|
  {
    if b != [] {
      assert b[0..] == b;
      ScanStep(f, b, 0, prev);
      assert Finds(f, b);
      var o := f.parse(b);
      if o.Whole? {
        ScanFromExact(f, b[o.size..], Some(o.record.sequence));
        if prev.Some? ==> o.record.sequence == prev.value + 1 {
          ExactPush(f, b, o.record, o.size, ScanFrom(f, b[o.size..], Some(o.record.sequence)), prev);
        }
      }
    }
  }

  function LogFormat(c: Sums): (f: Format) {
    Format((r: Record) => EncodeRecord(c, r), (b: bytes) => ParseRecord(c, b))
  }

  lemma LogIsFaithful(c: Sums)
    ensures Faithful(LogFormat(c))
  {
    forall r, rest ensures Reads(LogFormat(c), r, rest) {
      if Writable(r) {
        RecordParses(c, r, rest);
      }
    }
    forall b ensures Finds(LogFormat(c), b) && Bounded(LogFormat(c), b) {
      if ParseRecord(c, b).Whole? {
        ParsedRecord(c, b);
      }
    }
  }

  lemma LogIsSizable(c: Sums)
    ensures Sizable(LogFormat(c))
  {
  }

  /** The log file holding `rs`. */
  function WalBytes(c: Sums, rs: seq<Record>): (b: bytes) {
    Header() + Records(LogFormat(c), rs)
  }

  predicate HeaderOk(b: bytes) {
    |b| >= WAL_HEADER_LEN && b[..8] == WAL_MAGIC && BE.Decode(b[8..12]) == STORE_FORMAT_VERSION
  }

  function ScanBody(f: Format, b: bytes): (s: Scan)
    requires Sizable(f)
    ensures s.Scanned? ==> s.end <= |b|
  {
    if !HeaderOk(b) then Corrupt
    else match ScanFrom(f, b[WAL_HEADER_LEN..], None)
      case Corrupt => Corrupt
      case Scanned(rs, e) => Scanned(rs, WAL_HEADER_LEN + e)
  }

  function ScanWal(c: Sums, b: bytes): (s: Scan)
    ensures s.Scanned? ==> s.end <= |b|
  {
    LogIsSizable(c);
    ScanBody(LogFormat(c), b)
  }

  lemma HeaderIsOk(rest: bytes)
    ensures HeaderOk(Header() + rest) && (Header() + rest)[WAL_HEADER_LEN..] == rest
  {
    var b := Header() + rest;
    assert b[..8] == WAL_MAGIC && b[8..12] == BE.Encode(STORE_FORMAT_VERSION, 4);
    BE.DecodeEncode(STORE_FORMAT_VERSION, 4);
  }

  lemma ScanBodyRecords(f: Format, rs: seq<Record>, tail: bytes)
    requires Faithful(f) && Consecutive(rs) && (tail == [] || f.parse(tail) == Torn)
    ensures ScanBody(f, Header() + Records(f, rs) + tail) == Scanned(rs, |Header() + Records(f, rs)|)
  {
    assert Header() + Records(f, rs) + tail == Header() + (Records(f, rs) + tail);
    HeaderIsOk(Records(f, rs) + tail);
    ScanRecords(f, rs, tail, None);
  }

  /** The scan returns exactly the complete records and cuts exactly the torn last one. */
  lemma ScanCutsTornTail(c: Sums, rs: seq<Record>, r: Record, k: nat)
    requires Consecutive(rs) && Writable(r) && k < |EncodeRecord(c, r)|
    ensures ScanWal(c, WalBytes(c, rs) + EncodeRecord(c, r)[..k]) == Scanned(rs, |WalBytes(c, rs)|)
  {
    LogIsFaithful(c);
    PrefixIsTorn(c, r, k);
    ScanBodyRecords(LogFormat(c), rs, EncodeRecord(c, r)[..k]);
  }

  lemma ScanWhole(c: Sums, rs: seq<Record>)
    requires Consecutive(rs)
    ensures ScanWal(c, WalBytes(c, rs)) == Scanned(rs, |WalBytes(c, rs)|)
  {
    LogIsFaithful(c);
    assert WalBytes(c, rs) + [] == WalBytes(c, rs);
    ScanBodyRecords(LogFormat(c), rs, []);
  }

  lemma {:induction false} RecordsPush(f: Format, rs: seq<Record>, r: Record)
    ensures Records(f, rs + [r]) == Records(f, rs) + f.enc(r)
  {
    if rs == [] {
      assert rs + [r] == [r];
    } else {
      assert (rs + [r])[1..] == rs[1..] + [r];
      RecordsPush(f, rs[1..], r);
    }
  }

  lemma ScanBodyExact(f: Format, b: bytes)
    requires Faithful(f) && ScanBody(f, b).Scanned?
    ensures var s := ScanBody(f, b);
      && Consecutive(s.records) && b[..s.end] == Header() + Records(f, s.records)
      && (s.end == |b| || f.parse(b[s.end..]) == Torn)
  {
    var body := b[WAL_HEADER_LEN..];
    ScanFromExact(f, body, None);
    var t := ScanFrom(f, body, None);
    var s := ScanBody(f, b);
    BE.EncodeDecode(b[8..12]);
    assert b[..s.end] == b[..8] + b[8..12] + body[..t.end];
    assert b[s.end..] == body[t.end..];
  }

  /** Whatever a scan accepts is a log of consecutive records followed by less than one record. */
  lemma ScanExact(c: Sums, b: bytes)
    requires ScanWal(c, b).Scanned?
    ensures var s := ScanWal(c, b);
      && Consecutive(s.records) && b[..s.end] == WalBytes(c, s.records)
      && (s.end == |b| || LogFormat(c).parse(b[s.end..]) == Torn)
  {
    LogIsFaithful(c);
    ScanBodyExact(LogFormat(c), b);
  }

  /** The scan as the loop over a position. */
  method ScanLog(f: Format, b: bytes) returns (s: Scan)
    requires Sizable(f)
    ensures s == ScanBody(f, b)
  {
    if !HeaderOk(b) {
      return Corrupt;
    }
    s := ScanRest(f, b, WAL_HEADER_LEN);
    JoinNone(WAL_HEADER_LEN, ScanFrom(f, b[WAL_HEADER_LEN..], None));
  }

  method ScanRest(f: Format, b: bytes, start: nat) returns (s: Scan)
    requires Sizable(f) && start <= |b|
    ensures s == Join([], start, ScanFrom(f, b[start..], None))
  {
    var records: seq<Record> := [];
    var position := start;
    var previous: Option<nat> := None;
    ghost var whole := Join([], start, ScanFrom(f, b[start..], None));
    while position < |b|
      invariant start <= position <= |b|
      invariant whole == Join(records, position, ScanFrom(f, b[position..], previous))
      decreases |b| - position
    {
      ScanStep(f, b, position, previous);
      var o := f.parse(b[position..]);
      if o.Torn? {
        break;
      }
      if o.Bad? {
        return Corrupt;
      }
      if previous.Some? && o.record.sequence != previous.value + 1 {
        return Corrupt;
      }
      JoinAssoc(records, position, o.record, o.size, ScanFrom(f, b[position + o.size..], Some(o.record.sequence)));
      previous := Some(o.record.sequence);
      records := records + [o.record];
      position := position + o.size;
    }
    assert records + [] == records;
    s := Scanned(records, position);
  }

  lemma JoinNone(at: nat, s: Scan)
    ensures s.Scanned? ==> Join([], at, s) == Scanned(s.records, at + s.end)
  {
    if s.Scanned? {
      assert [] + s.records == s.records;
    }
  }
}
