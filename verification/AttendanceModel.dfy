/**
 * Attendance tables and the transactions on them, as functions from one database value to the next.
 *
 * The rows of `time_entry` and `attendance_correction` are grouped under their work day in insertion
 * order; a correction's index there is its id. A work day is identified by (relationship, date) and a
 * monthly period by (relationship, year, month), the unique keys the database declares.
 */
module AttendanceModel {
  import opened Calendar
  import opened Common
  import opened PayrollPeriodMachine

  type RelationshipId = int
  type Instant = int // milliseconds since the epoch
  type Key = string  // client idempotency key

  const MS_PER_MINUTE := 60_000

  // ---------------------------------------------------------------- rows

  datatype EntryKind = ClockIn | ClockOut | BreakStart | BreakEnd

  datatype EntryStatus =
    | EntryPendingSync
    | EntryRecorded
    | EntryPendingApproval
    | EntryApproved
    | EntryDisputed
    | EntryCorrected
    | EntryRejected

  datatype TimeEntry = TimeEntry(kind: EntryKind, status: EntryStatus, declaredAt: Instant, key: Key)

  datatype CorrectionStatus = CorrectionPending | CorrectionApproved | CorrectionRejected

  datatype Correction = Correction(
    status: CorrectionStatus,
    proposedIn: Option<Instant>,
    proposedOut: Option<Instant>,
    createdAt: Instant)

  datatype DayStatus = DayOpen | DayPendingApproval | DayApproved | DayDisputed | DayLocked

  datatype DayKey = DayKey(rel: RelationshipId, date: Date)

  datatype MonthKey = MonthKey(rel: RelationshipId, year: int, month: int)

  datatype WorkDay = WorkDay(
    status: DayStatus,
    realMinutes: int,
    computableMinutes: int,
    approvedMinutes: Option<int>,
    breakMinutes: int,
    approvedAt: Option<Instant>,
    period: Option<MonthKey>,
    version: int,
    entries: seq<TimeEntry>,
    corrections: seq<Correction>)

  datatype Period = Period(
    status: PeriodStatus,
    attendanceApprovedAt: Option<Instant>,
    currentVersionNumber: int,
    version: int)

  datatype SnapshotDay = SnapshotDay(
    day: DayKey,
    version: int,
    approvedMinutes: int,
    approvedIn: Option<Instant>,
    approvedOut: Option<Instant>,
    approvedAt: Option<Instant>)

  datatype Snapshot = Snapshot(days: seq<SnapshotDay>, approvedDays: int, approvedMinutes: int)

  /** A payroll version with what its calculation was fed. */
  datatype PayrollVersion = PayrollVersion(number: int, isCurrent: bool, normalMinutes: int)

  datatype Database = Database(
    days: map<DayKey, WorkDay>,
    periods: map<MonthKey, Period>,
    snapshots: map<MonthKey, Snapshot>,
    versions: map<MonthKey, seq<PayrollVersion>>)

  datatype ErrorCode =
    | NotFound
    | Forbidden
    | VersionConflict
    | RelationshipNotActive
    | PeriodAttendanceClosed
    | AttendanceAlreadyOpen
    | AttendanceAlreadyClosed
    | AttendanceNotOpen
    | NoClockInFound
    | InvalidClockOutTime
    | CannotApproveDisputed
    | CannotApproveNonPending
    | CannotApproveIncomplete
    | PendingCorrectionExists
    | CorrectionAlreadyPending
    | InvalidProposedTimes
    | CorrectionNotPending
    | IncompleteCorrection
    | PeriodNotFinished
    | PeriodNotReady
    | EmptyPeriod
    | PeriodDataIntegrity
    | PeriodNotReadyForCalculation
    | PeriodWithoutSnapshot
    | CalculationBlocked
    | PeriodConcurrentlyModified
    | ActiveEntryIndexViolated
    | KeyIndexViolated
    | OpenDayIndexViolated

  // ---------------------------------------------------------------- queries

  function MonthOf(k: DayKey): MonthKey {
    MonthKey(k.rel, k.date.year, k.date.month)
  }

  predicate AttendanceClosed(p: Period) {
    p.status == ReadyForCalculation || p.attendanceApprovedAt.Some?
  }

  predicate MonthClosed(db: Database, m: MonthKey) {
    m in db.periods && AttendanceClosed(db.periods[m])
  }

  /** Some entry of the relationship already carries this idempotency key. */
  predicate KeyUsed(db: Database, rel: RelationshipId, key: Key) {
    exists k :: k in db.days && k.rel == rel && HasKey(db.days[k].entries, key)
  }

  predicate HasKey(entries: seq<TimeEntry>, key: Key) {
    exists i :: 0 <= i < |entries| && entries[i].key == key
  }

  predicate OpenDayExists(db: Database, rel: RelationshipId) {
    exists k :: k in db.days && k.rel == rel && db.days[k].status == DayOpen
  }

  predicate IsActive(e: TimeEntry, kind: EntryKind) {
    e.kind == kind && e.status != EntryCorrected
  }

  /** The first non-CORRECTED entry of a kind, the look-up every operation uses. */
  function FindActive(entries: seq<TimeEntry>, kind: EntryKind): Option<TimeEntry> {
    if entries == [] then None
    else if IsActive(entries[0], kind) then Some(entries[0])
    else FindActive(entries[1..], kind)
  }

  predicate HasActive(entries: seq<TimeEntry>, kind: EntryKind) {
    exists i :: 0 <= i < |entries| && IsActive(entries[i], kind)
  }

  predicate HasKind(entries: seq<TimeEntry>, kind: EntryKind) {
    exists i :: 0 <= i < |entries| && entries[i].kind == kind
  }

  predicate HasPending(corrections: seq<Correction>) {
    exists i :: 0 <= i < |corrections| && corrections[i].status == CorrectionPending
  }

  /** Whole minutes between two instants, never negative: Math.max(0, Math.floor(ms / 60000)). */
  function MinutesBetween(from: Instant, to: Instant): int {
    Max(0, (to - from) / MS_PER_MINUTE)
  }

  /** Bulk status change over a day's entries. */
  function Restatus(entries: seq<TimeEntry>, from: set<EntryStatus>, to: EntryStatus): (r: seq<TimeEntry>)
    ensures |r| == |entries|
    ensures forall i :: 0 <= i < |entries| ==>
              r[i] == if entries[i].status in from then entries[i].(status := to) else entries[i]
  {
    seq(|entries|, i requires 0 <= i < |entries| =>
      if entries[i].status in from then entries[i].(status := to) else entries[i])
  }

  const ARCHIVABLE := {EntryRecorded, EntryPendingApproval, EntryApproved, EntryDisputed}
  const APPROVABLE := {EntryRecorded, EntryPendingApproval}

  // ---------------------------------------------------------------- month queries

  /** The month's work days up to a day number, in date order. */
  function DayKeysUpTo(days: map<DayKey, WorkDay>, m: MonthKey, n: nat): seq<DayKey> {
    if n == 0 then []
    else
      var k := DayKey(m.rel, Date(m.year, m.month, n));
      DayKeysUpTo(days, m, n - 1) + (if k in days then [k] else [])
  }

  /** Every work day of the month, ordered by date. */
  function MonthKeys(db: Database, m: MonthKey): (r: seq<DayKey>)
    ensures forall k :: k in r <==> k in db.days && MonthOf(k) == m && 1 <= k.date.day <= DaysInMonth(m.year, m.month)
  {
    KeysAreRows(db.days, m, DaysInMonth(m.year, m.month));
    DayKeysUpTo(db.days, m, DaysInMonth(m.year, m.month))
  }

  /** The month's keys whose day has a status. */
  function WithStatus(db: Database, keys: seq<DayKey>, s: DayStatus): (r: seq<DayKey>)
    requires forall k :: k in keys ==> k in db.days
    ensures forall k :: k in r <==> k in keys && db.days[k].status == s
  {
    if keys == [] then []
    else
      var rest := WithStatus(db, keys[1..], s);
      if db.days[keys[0]].status == s then [keys[0]] + rest else rest
  }

  function ApprovedKeys(db: Database, m: MonthKey): (r: seq<DayKey>)
    ensures forall k :: k in r <==> k in MonthKeys(db, m) && db.days[k].status == DayApproved
  {
    WithStatus(db, MonthKeys(db, m), DayApproved)
  }

  function ApprovedMinutesOf(db: Database, keys: seq<DayKey>): int
    requires forall k :: k in keys ==> k in db.days
  {
    if keys == [] then 0
    else
      (match db.days[keys[0]].approvedMinutes
       case None => 0
       case Some(v) => v) + ApprovedMinutesOf(db, keys[1..])
  }

  function TimeOf(e: Option<TimeEntry>): Option<Instant> {
    match e
    case None => None
    case Some(entry) => Some(entry.declaredAt)
  }

  function SnapshotDayOf(db: Database, k: DayKey): SnapshotDay
    requires k in db.days
  {
    var d := db.days[k];
    SnapshotDay(k, d.version, if d.approvedMinutes.Some? then d.approvedMinutes.value else 0,
                TimeOf(FindActive(d.entries, ClockIn)), TimeOf(FindActive(d.entries, ClockOut)), d.approvedAt)
  }

  function SnapshotDays(db: Database, keys: seq<DayKey>): (r: seq<SnapshotDay>)
    requires forall k :: k in keys ==> k in db.days
    ensures |r| == |keys|
    ensures forall i :: 0 <= i < |keys| ==> r[i] == SnapshotDayOf(db, keys[i])
  {
    seq(|keys|, i requires 0 <= i < |keys| => SnapshotDayOf(db, keys[i]))
  }

  /** The snapshot the close would build from the live rows of the month. */
  function BuildSnapshot(db: Database, m: MonthKey): Snapshot {
    var approved := ApprovedKeys(db, m);
    Snapshot(SnapshotDays(db, approved), |approved|, ApprovedMinutesOf(db, approved))
  }

  lemma {:induction false} KeysAreRows(days: map<DayKey, WorkDay>, m: MonthKey, n: nat)
    ensures forall k :: k in DayKeysUpTo(days, m, n) <==>
                        k in days && k.rel == m.rel && k.date.year == m.year && k.date.month == m.month &&
                        1 <= k.date.day <= n
  {
    if n > 0 {
      KeysAreRows(days, m, n - 1);
    }
  }

  // ---------------------------------------------------------------- calls, pre-reads and requests

  datatype Actor = Actor(isWorker: bool, isEmployer: bool)

  datatype Call =
    | ClockInCall(rel: RelationshipId, relationshipActive: bool, key: Key, localDate: Date)
    | ClockOutCall(day: DayKey, relationshipActive: bool, key: Key)
    | ApproveCall(day: DayKey, expectedVersion: int)
    | RequestCorrectionCall(day: DayKey, expectedVersion: int, proposedIn: Instant, proposedOut: Instant)
    | ApproveCorrectionCall(day: DayKey, correction: nat, expectedVersion: int, keyIn: Key, keyOut: Key)
    | RejectCorrectionCall(day: DayKey, correction: nat, expectedVersion: int)
    | CloseCall(month: MonthKey, expectedVersion: int, today: Date)
    | CalculateCall(month: MonthKey, blocked: bool)

  /** A local copy of a work day, possibly stale by the time its transaction runs. */
  datatype PreRead = PreRead(day: DayKey, row: WorkDay, periodClosed: bool)

  /** What a request carries from its pre-read into its transaction. */
  datatype Request =
    | ClockInRequest(rel: RelationshipId, key: Key, date: Date, at: Instant)
    | ClockOutRequest(pre: PreRead, key: Key, at: Instant, realMinutes: int, computableMinutes: int)
    | ApproveRequest(pre: PreRead, expectedVersion: int, minutes: int)
    | CorrectionRequest(pre: PreRead, expectedVersion: int, proposedIn: Instant, proposedOut: Instant)
    | ApproveCorrectionRequest(pre: PreRead, expectedVersion: int, correction: nat, keyIn: Key, keyOut: Key)
    | RejectCorrectionRequest(pre: PreRead, expectedVersion: int, correction: nat, target: DayStatus)
    | CloseRequest(month: MonthKey, expectedVersion: int)
    | CalculateRequest(month: MonthKey, seen: Period, normalMinutes: int)

  /** How the phase before the transaction ends. */
  datatype Began = Refused(error: ErrorCode) | Answered | Started(request: Request)

  /** How a transaction ends; `Returned` answers with an existing row and writes nothing. */
  datatype Outcome = Committed(db: Database) | Returned | Thrown(error: ErrorCode)

  function After(db: Database, o: Outcome): Database {
    match o
    case Committed(db') => db'
    case Returned => db
    case Thrown(_) => db
  }

  // ---------------------------------------------------------------- the pre-read phase

  function ReadDay(db: Database, day: DayKey): PreRead
    requires day in db.days
  {
    var row := db.days[day];
    PreRead(day, row, row.period.Some? && MonthClosed(db, row.period.value))
  }

  function Begin(db: Database, actor: Actor, call: Call, now: Instant): Began {
    match call
    case ClockInCall(rel, active, key, localDate) =>
      if !actor.isWorker && !actor.isEmployer then Refused(NotFound)
      else if !actor.isWorker then Refused(Forbidden)
      else if !active then Refused(RelationshipNotActive)
      else if KeyUsed(db, rel, key) then Answered
      else Started(ClockInRequest(rel, key, localDate, now))
    case ClockOutCall(day, active, key) =>
      if day !in db.days then Refused(NotFound)
      else if !actor.isWorker && !actor.isEmployer then Refused(NotFound)
      else if !actor.isWorker then Refused(Forbidden)
      else if !active then Refused(RelationshipNotActive)
      else BeginClockOut(ReadDay(db, day), key, now)
    case ApproveCall(day, expected) =>
      if day !in db.days then Refused(NotFound)
      else if !actor.isWorker && !actor.isEmployer then Refused(NotFound)
      else if !actor.isEmployer then Refused(Forbidden)
      else BeginApprove(ReadDay(db, day), expected)
    case RequestCorrectionCall(day, expected, proposedIn, proposedOut) =>
      if day !in db.days then Refused(NotFound)
      else if !actor.isWorker && !actor.isEmployer then Refused(NotFound)
      else BeginRequestCorrection(ReadDay(db, day), expected, proposedIn, proposedOut)
    case ApproveCorrectionCall(day, correction, expected, keyIn, keyOut) =>
      if day !in db.days then Refused(NotFound)
      else if !actor.isWorker && !actor.isEmployer then Refused(NotFound)
      else if !actor.isEmployer then Refused(Forbidden)
      else BeginApproveCorrection(ReadDay(db, day), expected, correction, keyIn, keyOut)
    case RejectCorrectionCall(day, correction, expected) =>
      if day !in db.days then Refused(NotFound)
      else if !actor.isWorker && !actor.isEmployer then Refused(NotFound)
      else if !actor.isEmployer then Refused(Forbidden)
      else BeginRejectCorrection(ReadDay(db, day), expected, correction)
    case CloseCall(month, expected, today) =>
      if month !in db.periods then Refused(NotFound)
      else if !actor.isWorker && !actor.isEmployer then Refused(NotFound)
      else if !actor.isEmployer then Refused(Forbidden)
      else if db.periods[month].version != expected then Refused(VersionConflict)
      else if AttendanceClosed(db.periods[month]) then Answered
      else if !CanCloseMonth(month, today) then Refused(PeriodNotFinished)
      else Started(CloseRequest(month, expected))
    case CalculateCall(month, blocked) =>
      if month !in db.periods || !actor.isEmployer then Refused(NotFound)
      else if db.periods[month].status != ReadyForCalculation then Refused(PeriodNotReadyForCalculation)
      else if month !in db.snapshots then Refused(PeriodWithoutSnapshot)
      else if blocked then Refused(CalculationBlocked)
      else Started(CalculateRequest(month, db.periods[month], db.snapshots[month].approvedMinutes))
  }

  /** canCloseMonthlyAttendancePeriod: today's date in the household's time zone lies in a later month. */
  predicate CanCloseMonth(m: MonthKey, today: Date) {
    today.year > m.year || (today.year == m.year && today.month > m.month)
  }

  function BeginClockOut(pre: PreRead, key: Key, now: Instant): Began {
    var row := pre.row;
    if exists i :: 0 <= i < |row.entries| && row.entries[i].kind == ClockOut && row.entries[i].key == key then Answered
    else if row.status != DayOpen then Refused(AttendanceNotOpen)
    else if pre.periodClosed then Refused(PeriodAttendanceClosed)
    else
      match FindActive(row.entries, ClockIn)
      case None => Refused(NoClockInFound)
      case Some(clockIn) =>
        if now < clockIn.declaredAt then Refused(InvalidClockOutTime)
        else
          var worked := MinutesBetween(clockIn.declaredAt, now);
          Started(ClockOutRequest(pre, key, now, worked, Max(0, worked - row.breakMinutes)))
  }

  function BeginApprove(pre: PreRead, expected: int): Began {
    var row := pre.row;
    if row.version != expected then Refused(VersionConflict)
    else if pre.periodClosed then Refused(PeriodAttendanceClosed)
    else if row.status == DayApproved then Answered
    else if row.status == DayDisputed then Refused(CannotApproveDisputed)
    else if row.status != DayPendingApproval then Refused(CannotApproveNonPending)
    else if HasPending(row.corrections) then Refused(PendingCorrectionExists)
    else
      match (FindActive(row.entries, ClockIn), FindActive(row.entries, ClockOut))
      case (Some(clockIn), Some(clockOut)) =>
        Started(ApproveRequest(pre, expected, MinutesBetween(clockIn.declaredAt, clockOut.declaredAt)))
      case _ => Refused(CannotApproveIncomplete)
  }

  function BeginRequestCorrection(pre: PreRead, expected: int, proposedIn: Instant, proposedOut: Instant): Began {
    if pre.row.version != expected then Refused(VersionConflict)
    else if pre.periodClosed then Refused(PeriodAttendanceClosed)
    else if HasPending(pre.row.corrections) then Refused(CorrectionAlreadyPending)
    else if proposedOut <= proposedIn then Refused(InvalidProposedTimes)
    else Started(CorrectionRequest(pre, expected, proposedIn, proposedOut))
  }

  function BeginApproveCorrection(pre: PreRead, expected: int, correction: nat, keyIn: Key, keyOut: Key): Began {
    if pre.row.version != expected then Refused(VersionConflict)
    else if pre.periodClosed then Refused(PeriodAttendanceClosed)
    else if correction >= |pre.row.corrections| then Refused(NotFound)
    else if pre.row.corrections[correction].status != CorrectionPending then Refused(CorrectionNotPending)
    else if pre.row.corrections[correction].proposedIn.None? || pre.row.corrections[correction].proposedOut.None? then
      Refused(IncompleteCorrection)
    else Started(ApproveCorrectionRequest(pre, expected, correction, keyIn, keyOut))
  }

  function BeginRejectCorrection(pre: PreRead, expected: int, correction: nat): Began {
    if pre.row.version != expected then Refused(VersionConflict)
    else if pre.periodClosed then Refused(PeriodAttendanceClosed)
    else if correction >= |pre.row.corrections| then Refused(NotFound)
    else if pre.row.corrections[correction].status != CorrectionPending then Refused(CorrectionNotPending)
    else
      Started(RejectCorrectionRequest(pre, expected, correction,
                                      if HasKind(pre.row.entries, ClockOut) then DayPendingApproval else DayOpen))
  }

  // ---------------------------------------------------------------- the transactions

  /** Insert an entry under a day, as the two partial unique indexes and the key index allow. */
  function InsertEntry(db: Database, day: DayKey, e: TimeEntry): Outcome
    requires day in db.days
  {
    if KeyUsed(db, day.rel, e.key) then Thrown(KeyIndexViolated)
    else if e.status != EntryCorrected && HasActive(db.days[day].entries, e.kind) && e.kind in {ClockIn, ClockOut} then
      Thrown(ActiveEntryIndexViolated)
    else Committed(PutDay(db, day, db.days[day].(entries := db.days[day].entries + [e])))
  }

  function PutDay(db: Database, day: DayKey, row: WorkDay): Database {
    db.(days := db.days[day := row])
  }

  function NewDay(at: Instant, key: Key): WorkDay {
    WorkDay(DayOpen, 0, 0, None, 0, None, None, 0, [TimeEntry(ClockIn, EntryRecorded, at, key)], [])
  }

  function CommitClockIn(db: Database, rel: RelationshipId, key: Key, date: Date, at: Instant): Outcome {
    var day := DayKey(rel, date);
    if KeyUsed(db, rel, key) then Returned
    else if MonthClosed(db, MonthOf(day)) then Thrown(PeriodAttendanceClosed)
    else if OpenDayExists(db, rel) then Thrown(AttendanceAlreadyOpen)
    else if day in db.days then
      Thrown(if db.days[day].status != DayOpen then AttendanceAlreadyClosed else AttendanceAlreadyOpen)
    else Committed(PutDay(db, day, NewDay(at, key)))
  }

  function CommitClockOut(db: Database, pre: PreRead, key: Key, at: Instant, worked: int, computable: int): Outcome {
    if MonthClosed(db, MonthOf(pre.day)) || pre.periodClosed then Thrown(PeriodAttendanceClosed)
    else if KeyUsed(db, pre.day.rel, key) then Returned
    else if pre.day !in db.days || db.days[pre.day].status != DayOpen then Thrown(AttendanceNotOpen)
    else
      var row := db.days[pre.day];
      var moved := row.(status := DayPendingApproval, realMinutes := worked, computableMinutes := computable,
                        version := row.version + 1);
      InsertEntry(PutDay(db, pre.day, moved), pre.day, TimeEntry(ClockOut, EntryRecorded, at, key))
  }

  /** A complete row once it is approved. */
  function ApprovedRow(row: WorkDay, minutes: int, now: Instant): WorkDay {
    row.(status := DayApproved, approvedMinutes := Some(minutes), approvedAt := Some(now), version := row.version + 1,
         entries := Restatus(row.entries, APPROVABLE, EntryApproved))
  }

  function CommitApprove(db: Database, pre: PreRead, expected: int, minutes: int, now: Instant): Outcome {
    if MonthClosed(db, MonthOf(pre.day)) || pre.periodClosed then Thrown(PeriodAttendanceClosed)
    else if pre.day !in db.days || db.days[pre.day].status != DayPendingApproval ||
            db.days[pre.day].version != expected then Thrown(VersionConflict)
    else
      Committed(PutDay(db, pre.day, ApprovedRow(db.days[pre.day], minutes, now)))
  }

  function CommitRequestCorrection(db: Database, pre: PreRead, expected: int, proposedIn: Instant,
                                   proposedOut: Instant, now: Instant): Outcome {
    if MonthClosed(db, MonthOf(pre.day)) || pre.periodClosed then Thrown(PeriodAttendanceClosed)
    else if pre.day !in db.days || db.days[pre.day].version != expected then Thrown(VersionConflict)
    else
      var row := db.days[pre.day];
      var c := Correction(CorrectionPending, Some(proposedIn), Some(proposedOut), now);
      Committed(PutDay(db, pre.day,
                       row.(status := DayDisputed, version := row.version + 1, corrections := row.corrections + [c])))
  }

  /** Close one correction of a row. */
  function Resolve(corrections: seq<Correction>, c: nat, s: CorrectionStatus): seq<Correction> {
    if c < |corrections| then corrections[c := corrections[c].(status := s)] else corrections
  }

  /** A disputed row once its correction is approved, before the corrected entries are inserted. */
  function CorrectedRow(row: WorkDay, c: nat, worked: int, breakMinutes: int, now: Instant): WorkDay {
    row.(status := DayApproved, realMinutes := worked, computableMinutes := Max(0, worked - breakMinutes),
         approvedMinutes := Some(worked), approvedAt := Some(now), version := row.version + 1,
         corrections := Resolve(row.corrections, c, CorrectionApproved),
         entries := Restatus(row.entries, ARCHIVABLE, EntryCorrected))
  }

  function CommitApproveCorrection(db: Database, pre: PreRead, expected: int, c: nat, keyIn: Key, keyOut: Key,
                                   now: Instant): Outcome
    requires c < |pre.row.corrections|
    requires pre.row.corrections[c].proposedIn.Some? && pre.row.corrections[c].proposedOut.Some?
  {
    var proposedIn := pre.row.corrections[c].proposedIn.value;
    var proposedOut := pre.row.corrections[c].proposedOut.value;
    var worked := MinutesBetween(proposedIn, proposedOut);
    if MonthClosed(db, MonthOf(pre.day)) || pre.periodClosed then Thrown(PeriodAttendanceClosed)
    else if pre.day !in db.days || db.days[pre.day].status != DayDisputed || db.days[pre.day].version != expected then
      Thrown(VersionConflict)
    else
      var moved := CorrectedRow(db.days[pre.day], c, worked, pre.row.breakMinutes, now);
      var first := InsertEntry(PutDay(db, pre.day, moved), pre.day,
                               TimeEntry(ClockIn, EntryApproved, proposedIn, keyIn));
      if !first.Committed? then first
      else InsertEntry(first.db, pre.day, TimeEntry(ClockOut, EntryApproved, proposedOut, keyOut))
  }

  /** A disputed row once its correction is rejected. */
  function RejectedRow(row: WorkDay, c: nat, target: DayStatus): WorkDay {
    row.(status := target, version := row.version + 1, corrections := Resolve(row.corrections, c, CorrectionRejected))
  }

  function CommitRejectCorrection(db: Database, pre: PreRead, expected: int, c: nat, target: DayStatus): Outcome {
    if MonthClosed(db, MonthOf(pre.day)) || pre.periodClosed then Thrown(PeriodAttendanceClosed)
    else if pre.day !in db.days || db.days[pre.day].status != DayDisputed || db.days[pre.day].version != expected then
      Thrown(VersionConflict)
    else if target == DayOpen && OpenDayExists(db, pre.day.rel) then Thrown(OpenDayIndexViolated)
    else
      Committed(PutDay(db, pre.day, RejectedRow(db.days[pre.day], c, target)))
  }

  /** Some day of the month still blocks the close. */
  predicate Unsettled(db: Database, m: MonthKey) {
    exists k :: k in MonthKeys(db, m) &&
                (db.days[k].status in {DayOpen, DayPendingApproval, DayDisputed} || HasPending(db.days[k].corrections))
  }

  predicate BadMinutes(db: Database, keys: seq<DayKey>)
    requires forall k :: k in keys ==> k in db.days
  {
    exists k :: k in keys && (db.days[k].approvedMinutes.None? || db.days[k].approvedMinutes.value < 0)
  }

  /** Link the approved days of the month to its period. */
  function Link(days: map<DayKey, WorkDay>, approved: seq<DayKey>, m: MonthKey): map<DayKey, WorkDay> {
    map k | k in days :: if k in approved then days[k].(period := Some(m)) else days[k]
  }

  function CommitClose(db: Database, m: MonthKey, expected: int, now: Instant): Outcome {
    if m !in db.periods then Thrown(NotFound)
    else if db.periods[m].version != expected then Thrown(VersionConflict)
    else if AttendanceClosed(db.periods[m]) then Returned
    else if Unsettled(db, m) then Thrown(PeriodNotReady)
    else
      var approved := ApprovedKeys(db, m);
      if approved == [] then Thrown(EmptyPeriod)
      else if BadMinutes(db, approved) then Thrown(PeriodDataIntegrity)
      else if !BeforeClose(db.periods[m].status) then Thrown(VersionConflict)
      else if m in db.snapshots then Thrown(PeriodConcurrentlyModified)
      else
        var p := db.periods[m];
        Committed(db.(periods := db.periods[m := p.(status := ReadyForCalculation, attendanceApprovedAt := Some(now),
                                                    version := p.version + 1)],
                      days := Link(db.days, approved, m),
                      snapshots := db.snapshots[m := BuildSnapshot(db, m)]))
  }

  function VersionsOf(db: Database, m: MonthKey): seq<PayrollVersion> {
    if m in db.versions then db.versions[m] else []
  }

  /** Every version of the period stops being the current one. */
  function Retire(vs: seq<PayrollVersion>): (r: seq<PayrollVersion>)
    ensures |r| == |vs|
    ensures forall i :: 0 <= i < |vs| ==> r[i] == vs[i].(isCurrent := false)
  {
    seq(|vs|, i requires 0 <= i < |vs| => vs[i].(isCurrent := false))
  }

  function CommitCalculate(db: Database, m: MonthKey, pre: Period, normalMinutes: int): Outcome {
    var number := pre.currentVersionNumber + 1;
    var vs := VersionsOf(db, m);
    if exists i :: 0 <= i < |vs| && vs[i].number == number then Thrown(KeyIndexViolated)
    else if m !in db.periods || db.periods[m].version != pre.version ||
            db.periods[m].status != ReadyForCalculation then Thrown(PeriodConcurrentlyModified)
    else
      var p := db.periods[m];
      Committed(db.(periods := db.periods[m := p.(status := Calculated, currentVersionNumber := number,
                                                  version := p.version + 1)],
                    versions := db.versions[m := Retire(vs) + [PayrollVersion(number, true, normalMinutes)]]))
  }

  /** What a request of this shape can rely on: its pre-read phase has seen a complete correction. */
  predicate WellFormed(r: Request) {
    r.ApproveCorrectionRequest? ==>
      r.correction < |r.pre.row.corrections| &&
      r.pre.row.corrections[r.correction].proposedIn.Some? && r.pre.row.corrections[r.correction].proposedOut.Some?
  }

  function Commit(db: Database, r: Request, now: Instant): Outcome
    requires WellFormed(r)
  {
    match r
    case ClockInRequest(rel, key, date, at) => CommitClockIn(db, rel, key, date, at)
    case ClockOutRequest(pre, key, at, worked, computable) => CommitClockOut(db, pre, key, at, worked, computable)
    case ApproveRequest(pre, expected, minutes) => CommitApprove(db, pre, expected, minutes, now)
    case CorrectionRequest(pre, expected, i, o) => CommitRequestCorrection(db, pre, expected, i, o, now)
    case ApproveCorrectionRequest(pre, expected, c, keyIn, keyOut) =>
      CommitApproveCorrection(db, pre, expected, c, keyIn, keyOut, now)
    case RejectCorrectionRequest(pre, expected, c, target) => CommitRejectCorrection(db, pre, expected, c, target)
    case CloseRequest(m, expected) => CommitClose(db, m, expected, now)
    case CalculateRequest(m, pre, normalMinutes) => CommitCalculate(db, m, pre, normalMinutes)
  }

  /** getOrCreate: an absent monthly period is created open. */
  function GetOrCreate(db: Database, m: MonthKey): Database {
    if m in db.periods then db
    else db.(periods := db.periods[m := Period(Open, None, 0, 0)])
  }
}
