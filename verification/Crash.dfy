/** Runs of commits, checkpoints, failures and crashes (crates/cfr/src/persistence/store.rs and mod.rs). */
module Crash {
  import opened Base
  import opened Wal
  import opened Store

  /** The resource limits stored with the conference. */
  datatype Limits = Limits(maxRecord: nat, maxWal: nat, threshold: nat)

  predicate LimitsOk(l: Limits) {
    && 1 <= l.maxRecord <= HARD_MAX_STATE_BYTES
    && WAL_HEADER_LEN <= l.maxWal <= HARD_MAX_WAL_BYTES && 1 <= l.threshold <= l.maxWal
  }

  datatype Fixed = Fixed(c: Sums, valid: Judge, l: Limits)

  /** The file the open handle writes to. `Orphan`: a rename has put a fresh log in its place;
    * `mayReturn`: that rename is not yet durable. */
  datatype Handle = Linked | Orphan(log: seq<Record>, mayReturn: bool)

  /** The state last returned, the snapshots a crash may leave (the last is the visible one), the
    * visible log, and the handle. */
  datatype Machine = Machine(live: Record, snaps: seq<Record>, wal: seq<Record>, handle: Handle)

  // ------------------------------------------------------------------------------------ crashes

  /** What a crash happens to leave: one of the snapshots, whether a not yet durable rename of the
    * log is undone, and how many bytes of a write in flight arrived. */
  datatype Pick = Pick(snap: nat, undo: bool, arrived: nat)

  function LogOf(m: Machine): (log: seq<Record>) {
    if m.handle.Orphan? then m.handle.log else m.wal
  }

  function SnapOf(m: Machine, pick: Pick): (s: Record)
    requires m.snaps != []
    ensures s in m.snaps
  {
    if pick.snap < |m.snaps| then m.snaps[pick.snap] else m.snaps[|m.snaps| - 1]
  }

  /** Whether the log found after the crash is the file behind the handle. */
  predicate SameFile(m: Machine, pick: Pick) {
    m.handle.Linked? || (m.handle.mayReturn && pick.undo)
  }

  function Arrived(f: Fixed, r: Record, pick: Pick): (b: bytes) {
    var e := EncodeRecord(f.c, r);
    e[..if pick.arrived < |e| then pick.arrived else |e|]
  }

  function LogFile(f: Fixed, m: Machine, pick: Pick, flight: Option<Record>): (b: bytes) {
    if !SameFile(m, pick) then WalBytes(f.c, m.wal)
    else WalBytes(f.c, LogOf(m)) + (if flight.Some? then Arrived(f, flight.value, pick) else [])
  }

  /** Opening the directory after a crash. */
  function Reopen(f: Fixed, m: Machine, pick: Pick, flight: Option<Record>): (r: Option<Machine>)
    requires m.snaps != []
  {
    var s, log := SnapOf(m, pick), LogFile(f, m, pick, flight);
    match Recover(f.c, f.valid, EncodeSnapshot(f.c, s), log)
    case None => None
    case Some(live) =>
      match ScanWal(f.c, log)
      case Corrupt => None
      case Scanned(records, _) =>
        if |WalBytes(f.c, records)| > f.l.maxWal then None else Some(Machine(live, [s], records, Linked))
  }

  // --------------------------------------------------------------------------------- operations

  /** How far an operation gets: to the end, to an error, or to a crash. For a checkpoint the points
    * are 0 before the snapshot rename, 1 before that rename is durable, 2 before the log rename,
    * 3 before that rename is durable, 4 before the handle is replaced. */
  datatype Stop = Fine | Fails(point: nat) | Crashes(point: nat, pick: Pick)

  function CheckpointAt(m: Machine, point: nat): (n: Machine) {
    if point == 0 then m
    else if point == 1 then m.(snaps := m.snaps + [m.live])
    else if point == 2 then m.(snaps := [m.live], handle := Settled(m.handle))
    else if point == 3 then Machine(m.live, [m.live], [], Orphan(LogOf(m), m.handle.Linked?))
    else if point == 4 then Machine(m.live, [m.live], [], Orphan(LogOf(m), false))
    else Machine(m.live, [m.live], [], Linked)
  }

  function Settled(h: Handle): (g: Handle) {
    if h.Orphan? then Orphan(h.log, false) else h
  }

  /** The durable write of one record through the handle. */
  function Appended(m: Machine, r: Record): (n: Machine) {
    if m.handle.Orphan? then Machine(r, m.snaps, m.wal, Orphan(m.handle.log + [r], m.handle.mayReturn))
    else Machine(r, m.snaps, m.wal + [r], Linked)
  }

  datatype Result = Returned | Errored | Recovered

  function Checkpoint(f: Fixed, m: Machine, stop: Stop): (r: Option<(Machine, Result)>)
    requires m.snaps != []
  {
    match stop
    case Fine => Some((CheckpointAt(m, 5), Returned))
    case Fails(p) => Some((CheckpointAt(m, if p < 5 then p else 4), Errored))
    case Crashes(p, pick) => Restarted(Reopen(f, CheckpointAt(m, p), pick, None))
  }

  function Restarted(m: Option<Machine>): (r: Option<(Machine, Result)>) {
    if m.Some? then Some((m.value, Recovered)) else None
  }

  function Candidate(m: Machine, payload: bytes): (r: Record) {
    Record(m.live.sequence + 1, payload)
  }

  function Append(f: Fixed, m: Machine, r: Record, stop: Stop): (o: Option<(Machine, Result)>)
    requires m.snaps != []
  {
    if |WalBytes(f.c, LogOf(m))| + |EncodeRecord(f.c, r)| > f.l.maxWal then Some((m, Errored))
    else match stop
      case Fine => Some((Appended(m, r), Returned))
      case Fails(_) => Some((m, Errored))
      case Crashes(_, pick) => Restarted(Reopen(f, m, pick, Some(r)))
  }

  /** A commit checkpoints first when the log would grow past the threshold. A failed write or sync
    * is rolled back to the old length. */
  function Commit(f: Fixed, m: Machine, payload: bytes, first: Stop, second: Stop): (o: Option<(Machine, Result)>)
    requires m.snaps != []
  {
    var r := Candidate(m, payload);
    if r.sequence > MAX_U64 || |payload| > f.l.maxRecord then Some((m, Errored))
    else if |WalBytes(f.c, LogOf(m))| + |EncodeRecord(f.c, r)| <= f.l.threshold then Append(f, m, r, second)
    else match Checkpoint(f, m, first)
      case None => None
      case Some((n, result)) => if result != Returned then Some((n, result)) else Append(f, n, r, second)
  }

  datatype Event =
    | Committing(payload: bytes, first: Stop, second: Stop)
    | Checkpointing(stop: Stop)
    | Crashing(pick: Pick)

  function Step(f: Fixed, m: Machine, e: Event): (o: Option<(Machine, Result)>)
    requires m.snaps != []
  {
    match e
    case Committing(payload, first, second) => Commit(f, m, payload, first, second)
    case Checkpointing(stop) => Checkpoint(f, m, stop)
    case Crashing(pick) => Restarted(Reopen(f, m, pick, None))
  }

  // ---------------------------------------------------------------------------------- invariant

  ghost predicate AllCoherent(f: Fixed, snaps: seq<Record>, log: seq<Record>, live: Record) {
    forall i :: 0 <= i < |snaps| ==> Coherent(f.valid, snaps[i], log, live)
  }

  /** Every snapshot a crash may leave fits the log behind the handle; behind an orphaned handle the
    * directory holds one snapshot and an empty log. */
  ghost predicate Sound(f: Fixed, m: Machine) {
    && LimitsOk(f.l) && m.snaps != []
    && AllCoherent(f, m.snaps, LogOf(m), m.live)
    && |WalBytes(f.c, LogOf(m))| <= f.l.maxWal
    && (m.handle.Orphan? ==> m.wal == [])
  }

  /** Nothing returned is missing from the directory. */
  ghost predicate Intact(m: Machine) {
    m.handle.Orphan? ==> forall i :: 0 <= i < |m.snaps| ==> m.snaps[i] == m.live
  }

  // ------------------------------------------------------------------------------------ crashes

  /** A write in flight continues the live state and fits the log. */
  ghost predicate InFlight(f: Fixed, m: Machine, r: Record) {
    && Usable(f.valid, r) && r.sequence == m.live.sequence + 1
    && |WalBytes(f.c, LogOf(m))| + |EncodeRecord(f.c, r)| <= f.l.maxWal
  }

  /** What reopening finds. */
  function Survivor(f: Fixed, m: Machine, pick: Pick, flight: Option<Record>): (r: Record)
    requires m.snaps != []
  {
    if !SameFile(m, pick) then SnapOf(m, pick)
    else if flight.Some? && pick.arrived >= |EncodeRecord(f.c, flight.value)| then flight.value
    else m.live
  }

  lemma EmptyLogSize(c: Sums)
    ensures |WalBytes(c, [])| == WAL_HEADER_LEN
  {
  }

  lemma ReopenOrphaned(f: Fixed, m: Machine, pick: Pick, flight: Option<Record>)
    requires Sound(f, m) && !SameFile(m, pick)
    ensures Reopen(f, m, pick, flight) == Some(Machine(SnapOf(m, pick), [SnapOf(m, pick)], [], Linked))
  {
    var s := SnapOf(m, pick);
    assert Coherent(f.valid, s, LogOf(m), m.live);
    EmptyLogSize(f.c);
    RecoverIdle(f.c, f.valid, s, [], s);
  }

  lemma ReopenIdle(f: Fixed, m: Machine, pick: Pick)
    requires Sound(f, m) && SameFile(m, pick)
    ensures Reopen(f, m, pick, None) == Some(Machine(m.live, [SnapOf(m, pick)], LogOf(m), Linked))
  {
    var s := SnapOf(m, pick);
    assert Coherent(f.valid, s, LogOf(m), m.live);
    assert WalBytes(f.c, LogOf(m)) + [] == WalBytes(f.c, LogOf(m));
    RecoverIdle(f.c, f.valid, s, LogOf(m), m.live);
  }

  lemma ReopenTorn(f: Fixed, m: Machine, pick: Pick, r: Record)
    requires Sound(f, m) && SameFile(m, pick) && InFlight(f, m, r)
    ensures Reopen(f, m, pick, Some(r))
         == Some(if pick.arrived < |EncodeRecord(f.c, r)| then Machine(m.live, [SnapOf(m, pick)], LogOf(m), Linked)
                 else Machine(r, [SnapOf(m, pick)], LogOf(m) + [r], Linked))
  {
    var s := SnapOf(m, pick);
    assert Coherent(f.valid, s, LogOf(m), m.live);
    var e := EncodeRecord(f.c, r);
    var k := if pick.arrived < |e| then pick.arrived else |e|;
    RecoverCoherent(f.c, f.valid, s, LogOf(m), m.live, r, k);
    WalBytesPush(f.c, LogOf(m), r);
  }

  /** Reopening always succeeds, and finds exactly the survivor. */
  lemma ReopenSound(f: Fixed, m: Machine, pick: Pick, flight: Option<Record>)
    requires Sound(f, m) && (flight.Some? ==> InFlight(f, m, flight.value))
    ensures Reopen(f, m, pick, flight).Some?
    ensures var n := Reopen(f, m, pick, flight).value;
      Sound(f, n) && n.handle.Linked? && n.live == Survivor(f, m, pick, flight)
  {
    var s := SnapOf(m, pick);
    assert Coherent(f.valid, s, LogOf(m), m.live);
    if !SameFile(m, pick) {
      ReopenOrphaned(f, m, pick, flight);
      EmptyLogSize(f.c);
    } else if flight == None {
      ReopenIdle(f, m, pick);
    } else {
      ReopenTorn(f, m, pick, flight.value);
      CoherentPush(f.valid, s, LogOf(m), m.live, flight.value);
      WalBytesPush(f.c, LogOf(m), flight.value);
    }
  }

  // ---------------------------------------------------------------------------------- operations

  lemma CheckpointSound(f: Fixed, m: Machine, point: nat)
    requires Sound(f, m)
    ensures var n := CheckpointAt(m, point); Sound(f, n) && n.live == m.live && (Intact(m) || point >= 2 ==> Intact(n))
  {
    SnapshotsAfter(f, m.snaps, LogOf(m), m.live);
    EmptyLogSize(f.c);
  }

  lemma SnapshotsAfter(f: Fixed, snaps: seq<Record>, log: seq<Record>, live: Record)
    requires snaps != [] && AllCoherent(f, snaps, log, live)
    ensures AllCoherent(f, snaps + [live], log, live) && AllCoherent(f, [live], log, live)
    ensures AllCoherent(f, [live], [], live)
  {
    CoherentCheckpoint(f.valid, snaps[0], log, live);
  }

  lemma AppendedSound(f: Fixed, m: Machine, r: Record)
    requires Sound(f, m) && InFlight(f, m, r)
    ensures Sound(f, Appended(m, r)) && (m.handle.Linked? ==> Intact(Appended(m, r)))
  {
    forall i | 0 <= i < |m.snaps| ensures Coherent(f.valid, m.snaps[i], LogOf(m) + [r], r) {
      CoherentPush(f.valid, m.snaps[i], LogOf(m), m.live, r);
    }
    WalBytesPush(f.c, LogOf(m), r);
  }

  /** What every step guarantees. `r` is the state a commit would reach. */
  ghost predicate Atomic(f: Fixed, m: Machine, o: Option<(Machine, Result)>, r: Record, commits: bool) {
    && o.Some?
    && Sound(f, o.value.0)
    && (o.value.1.Errored? ==> o.value.0.live == m.live)
    && (o.value.1.Returned? ==> o.value.0.live == if commits then r else m.live)
    && (Intact(m) && o.value.1.Recovered? ==> o.value.0.live == m.live || (commits && o.value.0.live == r))
    && (Intact(m) ==> Intact(o.value.0) || (commits && o.value.1.Returned? && o.value.0.handle.Orphan?))
  }

  lemma SurvivorIntact(f: Fixed, m: Machine, pick: Pick, flight: Option<Record>)
    requires m.snaps != [] && Intact(m)
    ensures Survivor(f, m, pick, flight) == m.live || (flight.Some? && Survivor(f, m, pick, flight) == flight.value)
  {
  }

  lemma CheckpointAtomic(f: Fixed, m: Machine, stop: Stop, r: Record)
    requires Sound(f, m)
    ensures Atomic(f, m, Checkpoint(f, m, stop), r, false)
    ensures Checkpoint(f, m, stop).value.1.Returned? ==> Checkpoint(f, m, stop).value.0 == CheckpointAt(m, 5)
  {
    match stop
    case Fine => CheckpointSound(f, m, 5);
    case Fails(p) => CheckpointSound(f, m, if p < 5 then p else 4);
    case Crashes(p, pick) =>
      CheckpointSound(f, m, p);
      ReopenSound(f, CheckpointAt(m, p), pick, None);
      if Intact(m) {
        SurvivorIntact(f, CheckpointAt(m, p), pick, None);
      }
  }

  lemma AppendAtomic(f: Fixed, m: Machine, r: Record, stop: Stop)
    requires Sound(f, m) && Usable(f.valid, r) && r.sequence == m.live.sequence + 1
    ensures Atomic(f, m, Append(f, m, r, stop), r, true)
  {
    if |WalBytes(f.c, LogOf(m))| + |EncodeRecord(f.c, r)| <= f.l.maxWal {
      match stop
      case Fine => AppendedSound(f, m, r);
      case Fails(_) =>
      case Crashes(_, pick) =>
        ReopenSound(f, m, pick, Some(r));
        if Intact(m) {
          SurvivorIntact(f, m, pick, Some(r));
        }
    }
  }

  lemma CommitAtomic(f: Fixed, m: Machine, payload: bytes, first: Stop, second: Stop)
    requires Sound(f, m) && f.valid(Candidate(m, payload)).Sane?
    ensures Atomic(f, m, Commit(f, m, payload, first, second), Candidate(m, payload), true)
  {
    var r := Candidate(m, payload);
    if r.sequence <= MAX_U64 && |payload| <= f.l.maxRecord {
      if |WalBytes(f.c, LogOf(m))| + |EncodeRecord(f.c, r)| <= f.l.threshold {
        AppendAtomic(f, m, r, second);
      } else {
        CheckpointAtomic(f, m, first, r);
        if Checkpoint(f, m, first).value.1.Returned? {
          CheckpointSound(f, m, 5);
          AppendAtomic(f, CheckpointAt(m, 5), r, second);
        }
      }
    }
  }

  function Target(m: Machine, e: Event): (r: Record) {
    if e.Committing? then Candidate(m, e.payload) else m.live
  }

  /** What the logical layer encodes, it decodes again. */
  ghost predicate Decodable(f: Fixed, m: Machine, e: Event) {
    e.Committing? ==> f.valid(Candidate(m, e.payload)).Sane?
  }

  lemma StepAtomic(f: Fixed, m: Machine, e: Event)
    requires Sound(f, m) && Decodable(f, m, e)
    ensures Atomic(f, m, Step(f, m, e), Target(m, e), e.Committing?)
  {
    match e
    case Committing(payload, first, second) => CommitAtomic(f, m, payload, first, second);
    case Checkpointing(stop) => CheckpointAtomic(f, m, stop, Target(m, e));
    case Crashing(pick) =>
      ReopenSound(f, m, pick, None);
      if Intact(m) {
        SurvivorIntact(f, m, pick, None);
      }
  }

  // ----------------------------------------------------------------------------------- whole runs

  /** A store that was created and holds its first state. */
  function Created(r: Record): (m: Machine) {
    Machine(r, [r], [], Linked)
  }

  lemma CreatedSound(f: Fixed, r: Record)
    requires LimitsOk(f.l) && Usable(f.valid, r)
    ensures Sound(f, Created(r)) && Intact(Created(r))
  {
    EmptyLogSize(f.c);
    assert Coherent(f.valid, r, [], r);
  }

  ghost predicate Reaches(f: Fixed, m: Machine, es: seq<Event>, n: Machine)
    decreases |es|
  {
    if es == [] then n == m
    else
      && m.snaps != [] && Decodable(f, m, es[0])
      && Step(f, m, es[0]).Some?
      && Reaches(f, Step(f, m, es[0]).value.0, es[1..], n)
  }

  /** No commit of the run returned through an orphaned handle. */
  ghost predicate Careful(f: Fixed, m: Machine, es: seq<Event>)
    decreases |es|
  {
    es != [] && m.snaps != [] && Step(f, m, es[0]).Some? ==>
      var (n, result) := Step(f, m, es[0]).value;
      !(es[0].Committing? && result.Returned? && n.handle.Orphan?) && Careful(f, n, es[1..])
  }

  lemma {:induction false} RunSound(f: Fixed, m: Machine, es: seq<Event>, n: Machine)
    requires Sound(f, m) && Reaches(f, m, es, n)
    ensures Sound(f, n) && (Intact(m) && Careful(f, m, es) ==> Intact(n))
    decreases |es|
  {
    if es != [] {
      StepAtomic(f, m, es[0]);
      RunSound(f, Step(f, m, es[0]).value.0, es[1..], n);
    }
  }

  /** Over every run in which no commit returned through an orphaned handle, a crash anywhere in the
    * next operation reopens at the last state returned or the one in flight. */
  lemma CrashAtomicity(f: Fixed, r: Record, es: seq<Event>, n: Machine, e: Event)
    requires LimitsOk(f.l) && Usable(f.valid, r) && Reaches(f, Created(r), es, n) && Careful(f, Created(r), es)
    requires Decodable(f, n, e)
    ensures n.snaps != [] && Step(f, n, e).Some?
    ensures Step(f, n, e).value.1.Recovered? ==>
      Step(f, n, e).value.0.live == n.live || (e.Committing? && Step(f, n, e).value.0.live == Candidate(n, e.payload))
  {
    CreatedSound(f, r);
    RunSound(f, Created(r), es, n);
    StepAtomic(f, n, e);
  }

  // --------------------------------------------------------------------------- the caller's version

  /** Every error a call reports is followed by reopening the store. */
  ghost predicate Prudent(f: Fixed, m: Machine, es: seq<Event>)
    decreases |es|
  {
    es != [] && m.snaps != [] && Step(f, m, es[0]).Some? ==>
      var (n, result) := Step(f, m, es[0]).value;
      (result.Errored? && |es| > 1 ==> es[1].Crashing?) && Prudent(f, n, es[1..])
  }

  /** Only an error leaves the handle on a replaced file, and reopening ends that. */
  lemma StepLinked(f: Fixed, m: Machine, e: Event)
    requires Sound(f, m) && Decodable(f, m, e) && (m.handle.Linked? || e.Crashing?)
    ensures Step(f, m, e).Some? && (Step(f, m, e).value.1.Errored? || Step(f, m, e).value.0.handle.Linked?)
  {
    StepAtomic(f, m, e);
    match e
    case Committing(payload, first, second) =>
      if Commit(f, m, payload, first, second).value.1.Recovered? {
        RecoveredLinked(f, m, e);
      }
    case Checkpointing(stop) =>
      if stop.Crashes? {
        RecoveredLinked(f, m, e);
      }
    case Crashing(pick) => RecoveredLinked(f, m, e);
  }

  lemma RecoveredLinked(f: Fixed, m: Machine, e: Event)
    requires m.snaps != [] && Step(f, m, e).Some? && Step(f, m, e).value.1.Recovered?
    ensures Step(f, m, e).value.0.handle.Linked?
  {
  }

  lemma {:induction false} PrudentIsCareful(f: Fixed, m: Machine, es: seq<Event>, n: Machine)
    requires Sound(f, m) && Reaches(f, m, es, n) && Prudent(f, m, es)
    requires m.handle.Linked? || es == [] || es[0].Crashing?
    ensures Careful(f, m, es)
    decreases |es|
  {
    if es != [] {
      StepAtomic(f, m, es[0]);
      StepLinked(f, m, es[0]);
      var (next, result) := Step(f, m, es[0]).value;
      PrudentIsCareful(f, next, es[1..], n);
    }
  }

  /** Crash atomicity for every caller who reopens the store after an error. */
  lemma PrudentCrashAtomicity(f: Fixed, r: Record, es: seq<Event>, n: Machine, e: Event)
    requires LimitsOk(f.l) && Usable(f.valid, r) && Reaches(f, Created(r), es, n) && Prudent(f, Created(r), es)
    requires Decodable(f, n, e)
    ensures n.snaps != [] && Step(f, n, e).Some?
    ensures Step(f, n, e).value.1.Recovered? ==>
      Step(f, n, e).value.0.live == n.live || (e.Committing? && Step(f, n, e).value.0.live == Candidate(n, e.payload))
  {
    CreatedSound(f, r);
    PrudentIsCareful(f, Created(r), es, n);
    CrashAtomicity(f, r, es, n, e);
  }

  // -------------------------------------------------------------- exactly when nothing can be lost

  ghost predicate AlwaysRecovers(f: Fixed, m: Machine)
    requires m.snaps != []
  {
    forall pick :: Reopen(f, m, pick, None).Some? && Reopen(f, m, pick, None).value.live == m.live
  }

  /** Every crash finds the last returned state exactly when the handle is not orphaned or the
    * directory's snapshot already holds that state. */
  lemma NothingLostExactly(f: Fixed, m: Machine)
    requires Sound(f, m)
    ensures AlwaysRecovers(f, m) <==> Intact(m)
  {
    if Intact(m) {
      forall pick ensures Reopen(f, m, pick, None).Some? && Reopen(f, m, pick, None).value.live == m.live {
        ReopenSound(f, m, pick, None);
        SurvivorIntact(f, m, pick, None);
      }
    } else {
      var i :| 0 <= i < |m.snaps| && m.snaps[i] != m.live;
      ReopenSound(f, m, Pick(i, false, 0), None);
    }
  }

  /** A store opens again exactly when its log limit leaves room for the log's own header. */
  lemma OpensExactly(f: Fixed, r: Record, pick: Pick)
    requires Usable(f.valid, r)
    ensures Reopen(f, Created(r), pick, None).Some? <==> f.l.maxWal >= WAL_HEADER_LEN
  {
    assert Coherent(f.valid, r, [], r);
    assert WalBytes(f.c, []) + [] == WalBytes(f.c, []);
    EmptyLogSize(f.c);
    RecoverIdle(f.c, f.valid, r, [], r);
  }

  ghost predicate RoomFor(f: Fixed, m: Machine, payload: bytes) {
    && m.live.sequence < MAX_U64 && |payload| <= f.l.maxRecord
    && |WalBytes(f.c, LogOf(m))| + |EncodeRecord(f.c, Candidate(m, payload))| <= f.l.threshold
  }

  lemma CommitReturns(f: Fixed, m: Machine, payload: bytes)
    requires Sound(f, m) && RoomFor(f, m, payload)
    ensures Commit(f, m, payload, Fine, Fine) == Some((Appended(m, Candidate(m, payload)), Returned))
  {
  }

  lemma StaleAfterCrash(f: Fixed, m: Machine, pick: Pick)
    requires Sound(f, m) && !SameFile(m, pick)
    ensures Step(f, m, Crashing(pick)).Some? && Step(f, m, Crashing(pick)).value.0.live == SnapOf(m, pick)
  {
    ReopenOrphaned(f, m, pick, None);
  }

  /** A checkpoint that reports an error after its log rename leaves the handle on the replaced file:
    * the next commit returns, and a crash then finds the state before it. */
  lemma OrphanedCommitIsLost(f: Fixed, m: Machine, payload: bytes)
    requires Sound(f, m) && m.handle.Linked? && f.valid(Candidate(m, payload)).Sane? && RoomFor(f, m, payload)
    ensures Checkpoint(f, m, Fails(3)) == Some((CheckpointAt(m, 3), Errored))
    ensures var n := Appended(CheckpointAt(m, 3), Candidate(m, payload));
      && Commit(f, CheckpointAt(m, 3), payload, Fine, Fine) == Some((n, Returned))
      && n.live == Candidate(m, payload) && n.snaps != []
      && Step(f, n, Crashing(Pick(0, false, 0))).Some?
      && Step(f, n, Crashing(Pick(0, false, 0))).value.0.live == m.live
  {
    var n := CheckpointAt(m, 3);
    CheckpointSound(f, m, 3);
    CommitReturns(f, n, payload);
    OrphanIsStale(f, n, Candidate(m, payload));
  }

  lemma OrphanIsStale(f: Fixed, n: Machine, r: Record)
    requires Sound(f, n) && InFlight(f, n, r) && n.handle.Orphan? && n.snaps == [n.live]
    ensures Appended(n, r).live == r && Appended(n, r).snaps == [n.live]
    ensures Step(f, Appended(n, r), Crashing(Pick(0, false, 0))).Some?
    ensures Step(f, Appended(n, r), Crashing(Pick(0, false, 0))).value.0.live == n.live
  {
    AppendedSound(f, n, r);
    StaleAfterCrash(f, Appended(n, r), Pick(0, false, 0));
  }

  lemma OrphanReopens(f: Fixed, m: Machine, r: Record)
    requires Sound(f, m) && m.handle.Linked? && InFlight(f, CheckpointAt(m, 3), r)
    ensures var n := Appended(CheckpointAt(m, 3), r);
      n.snaps != [] && Step(f, n, Crashing(Pick(0, false, 0))) == Some((Created(m.live), Recovered))
  {
    CheckpointSound(f, m, 3);
    AppendedSound(f, CheckpointAt(m, 3), r);
    ReopenOrphaned(f, Appended(CheckpointAt(m, 3), r), Pick(0, false, 0), None);
  }
}
