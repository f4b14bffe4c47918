/**
 * Who may start each call of the attendance services and when, and what a call that nothing interferes with does: stated
 * on statuses, versions, times and keys, and proved of the calls and transactions in every sound state.
 */
module AttendanceCalls {
  import opened Calendar
  import opened Common
  import opened StateMachine
  import opened PayrollPeriodMachine
  import opened AttendanceModel
  import opened AttendanceDay
  import opened AttendanceProtocol

  // ---------------------------------------------------------------- who may start a call

  /** The day's own link leads to a closed period. */
  predicate LinkedToClosed(db: Database, row: WorkDay) {
    row.period.Some? && MonthClosed(db, row.period.value)
  }

  /** A day of that version whose period is not closed, for an actor with a right to it. */
  predicate Addressed(db: Database, day: DayKey, version: int, allowed: bool) {
    allowed && day in db.days && db.days[day].version == version && !LinkedToClosed(db, db.days[day])
  }

  /** The correction is the day's pending one. */
  predicate IsPending(d: WorkDay, c: nat) {
    d.status == DayDisputed && c + 1 == |d.corrections|
  }

  /** Nobody of the relationship has used the key. */
  ghost predicate KeyIsNew(db: Database, rel: RelationshipId, key: Key) {
    forall k, i :: k in db.days && k.rel == rel && 0 <= i < |db.days[k].entries| ==> db.days[k].entries[i].key != key
  }

  /** Every day of the month is before today. */
  ghost predicate IsOver(m: MonthKey, today: Date) {
    forall day :: 1 <= day <= DaysInMonth(m.year, m.month) ==>
                    AtMost(Date(m.year, m.month, day), today) && Date(m.year, m.month, day) != today
  }

  lemma OverExactly(m: MonthKey, today: Date)
    requires ValidDate(today)
    ensures IsOver(m, today) <==> CanCloseMonth(m, today)
  {
    if IsOver(m, today) {
      var last := Date(m.year, m.month, DaysInMonth(m.year, m.month));
      assert AtMost(last, today) && last != today;
    }
  }

  ghost predicate MayStart(db: Database, actor: Actor, call: Call, now: Instant)
    requires forall k :: k in db.days ==> EntriesOk(db.days[k].entries)
  {
    match call
    case ClockInCall(rel, active, key, _) => actor.isWorker && active && KeyIsNew(db, rel, key)
    case ClockOutCall(day, active, key) =>
      && actor.isWorker && active && day in db.days && db.days[day].status == DayOpen
      && !LinkedToClosed(db, db.days[day]) && InTime(db.days[day]) <= now
    case ApproveCall(day, version) =>
      Addressed(db, day, version, actor.isEmployer) && db.days[day].status == DayPendingApproval
    case RequestCorrectionCall(day, version, proposedIn, proposedOut) =>
      Addressed(db, day, version, actor.isWorker || actor.isEmployer) && db.days[day].status != DayDisputed && proposedIn < proposedOut
    case ApproveCorrectionCall(day, c, version, _, _) => Addressed(db, day, version, actor.isEmployer) && IsPending(db.days[day], c)
    case RejectCorrectionCall(day, c, version) => Addressed(db, day, version, actor.isEmployer) && IsPending(db.days[day], c)
    case CloseCall(m, version, today) =>
      && actor.isEmployer && IsOver(m, today) && m in db.periods && db.periods[m].version == version
      && !MonthClosed(db, m)
    case CalculateCall(m, blocked) =>
      actor.isEmployer && !blocked && m in db.periods && db.periods[m].status == ReadyForCalculation
  }

  lemma DaysAreWellFormed(db: Database, clock: Instant)
    requires DbOk(db, clock)
    ensures forall k :: k in db.days ==> EntriesOk(db.days[k].entries)
  {
    forall k | k in db.days
      ensures EntriesOk(db.days[k].entries)
    {
      DayOfDb(db, k, clock);
    }
  }

  lemma NewKeys(db: Database, rel: RelationshipId, key: Key)
    ensures KeyIsNew(db, rel, key) <==> !KeyUsed(db, rel, key)
  {
    if KeyUsed(db, rel, key) {
      var k :| k in db.days && k.rel == rel && HasKey(db.days[k].entries, key);
      var i :| 0 <= i < |db.days[k].entries| && db.days[k].entries[i].key == key;
    } else {
      forall k, i | k in db.days && k.rel == rel && 0 <= i < |db.days[k].entries|
        ensures db.days[k].entries[i].key != key
      {
        assert !HasKey(db.days[k].entries, key);
      }
    }
  }

  /** What the look-ups of a pre-read answer for a sound day. */
  lemma PreReadOfDay(d: WorkDay, clock: Instant)
    requires DayOk(d, clock)
    ensures FindActive(d.entries, ClockIn).Some? && FindActive(d.entries, ClockIn).value.declaredAt == InTime(d)
    ensures FindActive(d.entries, ClockOut).Some? <==> Complete(d)
    ensures Complete(d) ==> FindActive(d.entries, ClockOut).value.declaredAt == OutTime(d)
    ensures HasKind(d.entries, ClockOut) <==> Complete(d)
    ensures d.status == DayOpen ==> forall i :: 0 <= i < |d.entries| ==> d.entries[i].kind == ClockIn
    ensures HasPending(d.corrections) <==> d.status == DayDisputed
    ensures forall c :: 0 <= c < |d.corrections| ==> Proposes(d.corrections[c])
    ensures forall c: nat :: (c < |d.corrections| && d.corrections[c].status == CorrectionPending) <==> IsPending(d, c)
    ensures d.status in {DayPendingApproval, DayApproved} ==> Complete(d)
    ensures d.status in {DayOpen, DayPendingApproval, DayApproved, DayDisputed}
  {
    FindLive(d.entries);
    DisputedIffOnePending(d, clock);
    hide FindActive;
    hide HasKind;
    hide LastApproved;
  }

  lemma BeginDayCalls(db: Database, pre: PreRead, clock: Instant)
    requires DayOk(pre.row, clock)
    ensures forall key, now :: BeginClockOut(pre, key, now).Started? <==>
              pre.row.status == DayOpen && !pre.periodClosed && InTime(pre.row) <= now
    ensures forall v :: BeginApprove(pre, v).Started? <==>
              pre.row.version == v && !pre.periodClosed && pre.row.status == DayPendingApproval
    ensures forall v, i, o :: BeginRequestCorrection(pre, v, i, o).Started? <==>
              pre.row.version == v && !pre.periodClosed && pre.row.status != DayDisputed && i < o
    ensures forall v, c, ki, ko :: BeginApproveCorrection(pre, v, c, ki, ko).Started? <==>
              pre.row.version == v && !pre.periodClosed && IsPending(pre.row, c)
    ensures forall v, c :: BeginRejectCorrection(pre, v, c).Started? <==>
              pre.row.version == v && !pre.periodClosed && IsPending(pre.row, c)
  {
    PreReadOfDay(pre.row, clock);
    hide DayOk;
    hide FindActive;
    hide HasPending;
    hide HasKind;
    hide IsPending;
    hide InTime;
  }

  lemma ReadyHasSnapshot(db: Database, m: MonthKey, now: Instant)
    requires DbOk(db, now) && m in db.periods && db.periods[m].status == ReadyForCalculation
    ensures m in db.snapshots
  {
    PeriodOfDb(db, m, now);
    hide DbOk;
    hide Frozen;
    hide VersionsOk;
  }

  lemma ReadDayIs(db: Database, day: DayKey)
    requires day in db.days
    ensures ReadDay(db, day) == PreRead(day, db.days[day], LinkedToClosed(db, db.days[day]))
  {
    hide MonthClosed;
  }

  lemma BeginsOnDays(db: Database, actor: Actor, call: Call, now: Instant)
    requires DbOk(db, now) && !call.ClockInCall? && !call.CloseCall? && !call.CalculateCall?
    ensures forall k :: k in db.days ==> EntriesOk(db.days[k].entries)
    ensures Begin(db, actor, call, now).Started? <==> MayStart(db, actor, call, now)
  {
    hide DbOk;
    hide KeyUsed;
    hide KeyIsNew;
    hide EntriesOk;
    hide DayOk;
    hide LinkedToClosed;
    hide BeginClockOut;
    hide BeginApprove;
    hide BeginRequestCorrection;
    hide BeginApproveCorrection;
    hide BeginRejectCorrection;
    hide IsPending;
    hide InTime;
    hide ReadDay;
    DaysAreWellFormed(db, now);
    if call.day in db.days {
      DayOfDb(db, call.day, now);
      ReadDayIs(db, call.day);
      BeginDayCalls(db, ReadDay(db, call.day), now);
    }
  }

  /** A call starts exactly when its actor may start it: on every sound state. */
  lemma BeginsExactly(db: Database, actor: Actor, call: Call, now: Instant)
    requires DbOk(db, now) && (call.CloseCall? ==> ValidDate(call.today))
    ensures forall k :: k in db.days ==> EntriesOk(db.days[k].entries)
    ensures Begin(db, actor, call, now).Started? <==> MayStart(db, actor, call, now)
  {
    hide IsOver;
    hide CanCloseMonth;
    hide DbOk;
    hide DaysOk;
    hide KeyUsed;
    hide KeyIsNew;
    hide EntriesOk;
    hide Addressed;
    hide LinkedToClosed;
    hide BeginClockOut;
    hide BeginApprove;
    hide BeginRequestCorrection;
    hide BeginApproveCorrection;
    hide BeginRejectCorrection;
    hide IsPending;
    hide InTime;
    hide ReadDay;
    DaysAreWellFormed(db, now);
    match call
    case ClockInCall(rel, _, key, _) => NewKeys(db, rel, key);
    case CloseCall(m, _, today) => OverExactly(m, today);
    case CalculateCall(m, _) =>
      if m in db.periods && db.periods[m].status == ReadyForCalculation {
        ReadyHasSnapshot(db, m, now);
      }
    case _ => BeginsOnDays(db, actor, call, now);
  }

  // ---------------------------------------------------------------- when a request commits, and what it writes

  /** Whole minutes between two instants, rounded down, and none backwards. */
  predicate WholeMinutes(m: int, from: Instant, to: Instant) {
    if to < from then m == 0 else 60_000 * m <= to - from < 60_000 * (m + 1)
  }

  /** The month's days: all of them approved, and there is one. */
  ghost predicate Settled(db: Database, m: MonthKey) {
    && (forall k :: k in db.days && MonthOf(k) == m ==> db.days[k].status == DayApproved)
    && (exists k :: k in db.days && MonthOf(k) == m)
  }

  predicate Standing(db: Database, day: DayKey, version: int, status: DayStatus) {
    day in db.days && db.days[day].version == version && db.days[day].status == status && !MonthClosed(db, MonthOf(day))
  }

  /** When the transaction of a started call goes through; `read` is the database that its pre-read saw. */
  ghost predicate CanFinish(read: Database, db: Database, call: Call)
    requires forall k :: k in db.days ==> EntriesOk(db.days[k].entries)
  {
    match call
    case ClockInCall(rel, _, key, date) =>
      && KeyIsNew(db, rel, key) && !MonthClosed(db, MonthOf(DayKey(rel, date)))
      && DayKey(rel, date) !in db.days
      && (forall k :: k in db.days && k.rel == rel ==> db.days[k].status != DayOpen)
    case ClockOutCall(day, _, key) =>
      && KeyIsNew(db, day.rel, key) && !MonthClosed(db, MonthOf(day))
      && day in db.days && db.days[day].status == DayOpen
    case ApproveCall(day, version) => Standing(db, day, version, DayPendingApproval)
    case RequestCorrectionCall(day, version, _, _) =>
      day in db.days && db.days[day].version == version && !MonthClosed(db, MonthOf(day))
    case ApproveCorrectionCall(day, _, version, keyIn, keyOut) =>
      && Standing(db, day, version, DayDisputed)
      && keyIn != keyOut && KeyIsNew(db, day.rel, keyIn) && KeyIsNew(db, day.rel, keyOut)
    case RejectCorrectionCall(day, _, version) =>
      && Standing(db, day, version, DayDisputed)
      && (Complete(db.days[day]) || forall k :: k in db.days && k.rel == day.rel ==> db.days[k].status != DayOpen)
    case CloseCall(m, version, _) =>
      m in db.periods && db.periods[m].version == version && !MonthClosed(db, m) && Settled(db, m)
    case CalculateCall(m, _) =>
      && m in read.periods && m in db.periods && db.periods[m].version == read.periods[m].version
      && db.periods[m].status == ReadyForCalculation
  }

  /** The entries of a row after their statuses were rewritten. */
  predicate Restamped(a: seq<TimeEntry>, b: seq<TimeEntry>, from: set<EntryStatus>, to: EntryStatus) {
    && |a| == |b|
    && forall i :: 0 <= i < |a| ==> b[i] == TimeEntry(a[i].kind, if a[i].status in from then to else a[i].status, a[i].declaredAt, a[i].key)
  }

  /** Only this day's row is written. */
  predicate OnlyDay(db: Database, db': Database, day: DayKey) {
    day in db'.days && db' == db.(days := db.days[day := db'.days[day]])
  }

  predicate ClosesMonth(db: Database, m: MonthKey, now: Instant, db': Database) {
    && m in db.periods && m in db'.snapshots && db'.versions == db.versions
    && db'.periods == db.periods[m := db.periods[m].(status := ReadyForCalculation, attendanceApprovedAt := Some(now),
                                                     version := db.periods[m].version + 1)]
    && db'.snapshots == db.snapshots[m := db'.snapshots[m]]
    && db'.days.Keys == db.days.Keys
    && forall k :: k in db.days ==>
         db'.days[k] == if MonthOf(k) == m then db.days[k].(period := Some(m)) else db.days[k]
  }

  ghost predicate StoresVersion(db: Database, m: MonthKey, db': Database) {
    && m in db.periods && m in db.snapshots
    && db'.days == db.days && db'.snapshots == db.snapshots
    && var n := |VersionsOf(db, m)|;
       && db'.periods == db.periods[m := db.periods[m].(status := Calculated, currentVersionNumber := n + 1,
                                                        version := db.periods[m].version + 1)]
       && |VersionsOf(db', m)| == n + 1
       && VersionsOf(db', m)[n] == PayrollVersion(n + 1, true, db.snapshots[m].approvedMinutes)
       && (forall i :: 0 <= i < n ==> VersionsOf(db', m)[i] == VersionsOf(db, m)[i].(isCurrent := false))
       && (forall x :: x != m ==> VersionsOf(db', x) == VersionsOf(db, x))
  }

  /** What the commit of a call makes of the database it finds; `at` is the time of the pre-read. */
  ghost predicate Does(db: Database, call: Call, at: Instant, now: Instant, db': Database)
    requires forall k :: k in db.days ==> EntriesOk(db.days[k].entries)
  {
    match call
    case ClockInCall(rel, _, key, date) =>
      var day := DayKey(rel, date);
      && OnlyDay(db, db', day)
      && db'.days[day] == WorkDay(DayOpen, 0, 0, None, 0, None, None, 0, [TimeEntry(ClockIn, EntryRecorded, at, key)], [])
    case ClockOutCall(day, _, key) =>
      && OnlyDay(db, db', day) && day in db.days
      && var a, b := db.days[day], db'.days[day];
         && WholeMinutes(b.realMinutes, InTime(a), at) && b.computableMinutes == Max(0, b.realMinutes - a.breakMinutes)
         && b == a.(status := DayPendingApproval, realMinutes := b.realMinutes, computableMinutes := b.computableMinutes,
                    version := a.version + 1, entries := a.entries + [TimeEntry(ClockOut, EntryRecorded, at, key)])
    case ApproveCall(day, _) =>
      && OnlyDay(db, db', day) && day in db.days && Complete(db.days[day])
      && var a, b := db.days[day], db'.days[day];
         && b.approvedMinutes.Some? && WholeMinutes(b.approvedMinutes.value, InTime(a), OutTime(a))
         && Restamped(a.entries, b.entries, {EntryRecorded, EntryPendingApproval}, EntryApproved)
         && b == a.(status := DayApproved, approvedMinutes := b.approvedMinutes, approvedAt := Some(now),
                    version := a.version + 1, entries := b.entries)
    case RequestCorrectionCall(day, _, proposedIn, proposedOut) =>
      && OnlyDay(db, db', day) && day in db.days
      && var a := db.days[day];
         db'.days[day] == a.(status := DayDisputed, version := a.version + 1,
                             corrections := a.corrections + [Correction(CorrectionPending, Some(proposedIn), Some(proposedOut), now)])
    case ApproveCorrectionCall(day, c, _, keyIn, keyOut) =>
      && OnlyDay(db, db', day) && day in db.days && c < |db.days[day].corrections| && Proposes(db.days[day].corrections[c])
      && var a, b, n := db.days[day], db'.days[day], |db.days[day].entries|;
         var proposedIn, proposedOut := a.corrections[c].proposedIn.value, a.corrections[c].proposedOut.value;
         && WholeMinutes(b.realMinutes, proposedIn, proposedOut)
         && |b.entries| == n + 2
         && (forall i :: 0 <= i < n ==> b.entries[i] == TimeEntry(a.entries[i].kind, EntryCorrected, a.entries[i].declaredAt, a.entries[i].key))
         && b.entries[n] == TimeEntry(ClockIn, EntryApproved, proposedIn, keyIn)
         && b.entries[n + 1] == TimeEntry(ClockOut, EntryApproved, proposedOut, keyOut)
         && b == a.(status := DayApproved, realMinutes := b.realMinutes, computableMinutes := Max(0, b.realMinutes - a.breakMinutes),
                    approvedMinutes := Some(b.realMinutes), approvedAt := Some(now), version := a.version + 1,
                    entries := b.entries, corrections := a.corrections[c := a.corrections[c].(status := CorrectionApproved)])
    case RejectCorrectionCall(day, c, _) =>
      && OnlyDay(db, db', day) && day in db.days && c < |db.days[day].corrections|
      && var a := db.days[day];
         db'.days[day] == a.(status := if Complete(a) then DayPendingApproval else DayOpen, version := a.version + 1,
                             corrections := a.corrections[c := a.corrections[c].(status := CorrectionRejected)])
    case CloseCall(m, _, _) => ClosesMonth(db, m, now, db')
    case CalculateCall(m, _) => StoresVersion(db, m, db')
  }

  lemma WholeMinutesAre(from: Instant, to: Instant)
    ensures WholeMinutes(MinutesBetween(from, to), from, to)
  {
  }

  lemma OpenDays(db: Database, rel: RelationshipId)
    ensures OpenDayExists(db, rel) <==> !(forall k :: k in db.days && k.rel == rel ==> db.days[k].status != DayOpen)
  {
  }

  lemma ClockInCommits(db: Database, call: Call, at: Instant, now: Instant)
    requires DbOk(db, now) && call.ClockInCall?
    ensures forall k :: k in db.days ==> EntriesOk(db.days[k].entries)
    ensures var o := CommitClockIn(db, call.rel, call.key, call.localDate, at);
            && (o.Committed? <==> CanFinish(db, db, call))
            && (o.Committed? ==> Does(db, call, at, now, o.db))
  {
    hide DbOk;
    hide EntriesOk;
    hide KeyIsNew;
    hide KeyUsed;
    hide OpenDayExists;
    hide MonthClosed;
    DaysAreWellFormed(db, now);
    NewKeys(db, call.rel, call.key);
    OpenDays(db, call.rel);
  }

  /** What the compare-and-sets prove of a stale pre-read. */
  lemma SeenOpen(pre: PreRead, db: Database, now: Instant)
    requires DbOk(db, now) && Seen(db, pre, now) && pre.row.status == DayOpen && db.days[pre.day].status == DayOpen
    ensures EntriesOk(pre.row.entries) && EntriesOk(db.days[pre.day].entries) && InTime(pre.row) == InTime(db.days[pre.day])
    ensures pre.row.breakMinutes == db.days[pre.day].breakMinutes && !HasActive(db.days[pre.day].entries, ClockOut)
  {
    DayOfDb(db, pre.day, now);
    hide DbOk;
    hide LastApproved;
    assert EntryEvolves(pre.row.entries[0], db.days[pre.day].entries[0]);
  }

  lemma ClockOutCommits(db: Database, r: Request, active: bool, now: Instant)
    requires DbOk(db, now) && r.ClockOutRequest? && RequestOk(db, r, now) && !r.pre.periodClosed
    ensures forall k :: k in db.days ==> EntriesOk(db.days[k].entries)
    ensures var call, o := ClockOutCall(r.pre.day, active, r.key), CommitClockOut(db, r.pre, r.key, r.at, r.realMinutes, r.computableMinutes);
            && (o.Committed? <==> CanFinish(db, db, call))
            && (o.Committed? ==> Does(db, call, r.at, now, o.db))
  {
    hide DbOk;
    hide EntriesOk;
    hide DayOk;
    hide Evolves;
    hide KeyIsNew;
    hide KeyUsed;
    hide HasActive;
    hide WholeMinutes;
    hide MinutesBetween;
    hide InTime;
    hide MonthClosed;
    DaysAreWellFormed(db, now);
    NewKeys(db, r.pre.day.rel, r.key);
    var day := r.pre.day;
    if db.days[day].status == DayOpen {
      SeenOpen(r.pre, db, now);
      var row := db.days[day];
      var moved := row.(status := DayPendingApproval, realMinutes := r.realMinutes, computableMinutes := r.computableMinutes,
                        version := row.version + 1);
      SameKeysUsed(db, day, moved, r.key);
      WholeMinutesAre(InTime(row), r.at);
    }
  }

  /** A row with the same content has the same times, corrections and status. */
  lemma SameRow(a: WorkDay, b: WorkDay)
    requires SameContent(a, b) && EntriesOk(a.entries)
    ensures EntriesOk(b.entries) && InTime(a) == InTime(b) && a.entries == b.entries && a.corrections == b.corrections
    ensures a.status == b.status && a.breakMinutes == b.breakMinutes
  {
    hide EntriesOk;
  }

  lemma SameContents(a: WorkDay, b: WorkDay)
    requires SameContent(a, b)
    ensures a.entries == b.entries && a.corrections == b.corrections && a.status == b.status && a.breakMinutes == b.breakMinutes
  {
  }

  lemma ApprovedEntries(es: seq<TimeEntry>)
    ensures Restamped(es, Restatus(es, APPROVABLE, EntryApproved), {EntryRecorded, EntryPendingApproval}, EntryApproved)
  {
  }

  lemma ApproveCommits(db: Database, r: Request, now: Instant)
    requires DbOk(db, now) && r.ApproveRequest? && RequestOk(db, r, now) && !r.pre.periodClosed
    ensures forall k :: k in db.days ==> EntriesOk(db.days[k].entries)
    ensures var call, o := ApproveCall(r.pre.day, r.expectedVersion), CommitApprove(db, r.pre, r.expectedVersion, r.minutes, now);
            && (o.Committed? <==> CanFinish(db, db, call))
            && (o.Committed? ==> Does(db, call, now, now, o.db))
  {
    hide DbOk;
    hide EntriesOk;
    hide CorrectionsOk;
    hide EffectiveOk;
    hide MinutesOk;
    hide Evolves;
    hide WholeMinutes;
    hide MinutesBetween;
    hide InTime;
    hide MonthClosed;
    hide KeyIsNew;
    DaysAreWellFormed(db, now);
    if db.days[r.pre.day].version == r.expectedVersion {
      StillCurrent(db, r.pre, now);
      SameRow(r.pre.row, db.days[r.pre.day]);
      WholeMinutesAre(InTime(r.pre.row), OutTime(r.pre.row));
      ApprovedEntries(db.days[r.pre.day].entries);
      hide Restatus;
    }
  }

  lemma RequestCorrectionCommits(db: Database, r: Request, now: Instant)
    requires DbOk(db, now) && r.CorrectionRequest? && RequestOk(db, r, now) && !r.pre.periodClosed
    ensures forall k :: k in db.days ==> EntriesOk(db.days[k].entries)
    ensures var call, o := RequestCorrectionCall(r.pre.day, r.expectedVersion, r.proposedIn, r.proposedOut),
                           CommitRequestCorrection(db, r.pre, r.expectedVersion, r.proposedIn, r.proposedOut, now);
            && (o.Committed? <==> CanFinish(db, db, call))
            && (o.Committed? ==> Does(db, call, now, now, o.db))
  {
    hide DbOk;
    hide EntriesOk;
    hide DayOk;
    hide Evolves;
    hide MonthClosed;
    hide KeyIsNew;
    hide InTime;
    hide OutTime;
    DaysAreWellFormed(db, now);
  }

  lemma ArchivedEntries(es: seq<TimeEntry>)
    requires EntriesOk(es)
    ensures var archived := Restatus(es, ARCHIVABLE, EntryCorrected);
            && |archived| == |es|
            && (forall i :: 0 <= i < |es| ==> archived[i] == TimeEntry(es[i].kind, EntryCorrected, es[i].declaredAt, es[i].key))
            && !HasActive(archived, ClockIn) && !HasActive(archived, ClockOut)
  {
  }

  lemma ApproveCorrectionCommits(db: Database, r: Request, now: Instant)
    requires DbOk(db, now) && r.ApproveCorrectionRequest? && RequestOk(db, r, now) && !r.pre.periodClosed
    ensures WellFormed(r) && forall k :: k in db.days ==> EntriesOk(db.days[k].entries)
    ensures var call, o := ApproveCorrectionCall(r.pre.day, r.correction, r.expectedVersion, r.keyIn, r.keyOut),
                           CommitApproveCorrection(db, r.pre, r.expectedVersion, r.correction, r.keyIn, r.keyOut, now);
            && (o.Committed? <==> CanFinish(db, db, call))
            && (o.Committed? ==> Does(db, call, now, now, o.db))
  {
    hide DbOk;
    hide EntriesOk;
    hide DayOk;
    hide Evolves;
    hide HasActive;
    hide KeyIsNew;
    hide KeyUsed;
    hide WholeMinutes;
    hide MinutesBetween;
    hide Restatus;
    hide InsertEntry;
    DaysAreWellFormed(db, now);
    var day, c := r.pre.day, r.correction;
    CorrectionsPropose(r.pre.row, c, now);
    NewKeys(db, day.rel, r.keyIn);
    NewKeys(db, day.rel, r.keyOut);
    var row := db.days[day];
    if row.version == r.expectedVersion && row.status == DayDisputed {
      StillCurrent(db, r.pre, now);
      ArchivedEntries(row.entries);
      var i, o := r.pre.row.corrections[c].proposedIn.value, r.pre.row.corrections[c].proposedOut.value;
      WholeMinutesAre(i, o);
      InsertTwo(db, day, CorrectedRow(row, c, MinutesBetween(i, o), r.pre.row.breakMinutes, now),
                TimeEntry(ClockIn, EntryApproved, i, r.keyIn), TimeEntry(ClockOut, EntryApproved, o, r.keyOut));
    }
  }

  lemma RejectCorrectionCommits(db: Database, r: Request, now: Instant)
    requires DbOk(db, now) && r.RejectCorrectionRequest? && RequestOk(db, r, now) && !r.pre.periodClosed
    ensures forall k :: k in db.days ==> EntriesOk(db.days[k].entries)
    ensures var call, o := RejectCorrectionCall(r.pre.day, r.correction, r.expectedVersion),
                           CommitRejectCorrection(db, r.pre, r.expectedVersion, r.correction, r.target);
            && (o.Committed? <==> CanFinish(db, db, call))
            && (o.Committed? ==> Does(db, call, now, now, o.db))
  {
    hide DbOk;
    hide EntriesOk;
    hide DayOk;
    hide Evolves;
    hide HasKind;
    hide OpenDayExists;
    hide MonthClosed;
    hide KeyIsNew;
    DaysAreWellFormed(db, now);
    OpenDays(db, r.pre.day.rel);
    if db.days[r.pre.day].version == r.expectedVersion {
      StillCurrent(db, r.pre, now);
      DayOfDb(db, r.pre.day, now);
      SameContents(r.pre.row, db.days[r.pre.day]);
      FindLive(db.days[r.pre.day].entries);
    }
  }

  /** The close finds every day settled with sound minutes exactly when every day is approved. */
  lemma SettledExactly(db: Database, m: MonthKey, now: Instant)
    requires DbOk(db, now)
    ensures Settled(db, m) <==> !Unsettled(db, m) && ApprovedKeys(db, m) != [] && !BadMinutes(db, ApprovedKeys(db, m))
    ensures Settled(db, m) ==> forall k :: k in ApprovedKeys(db, m) <==> k in db.days && MonthOf(k) == m
  {
    hide *;
    forall k | k in db.days
      ensures k in MonthKeys(db, m) <==> MonthOf(k) == m
      ensures HasPending(db.days[k].corrections) <==> db.days[k].status == DayDisputed
      ensures db.days[k].status in {DayOpen, DayPendingApproval, DayApproved, DayDisputed}
      ensures db.days[k].status == DayApproved ==> db.days[k].approvedMinutes.Some? && db.days[k].approvedMinutes.value >= 0
    {
      DayOfDb(db, k, now);
      PreReadOfDay(db.days[k], now);
      if db.days[k].status == DayApproved {
        ApprovedDay(db.days[k], now);
      }
      KeyOfMonth(db, k, m);
    }
    SettledKeys(db, m);
  }

  lemma ApprovedDay(d: WorkDay, now: Instant)
    requires DayOk(d, now) && d.status == DayApproved
    ensures d.approvedMinutes.Some? && d.approvedMinutes.value >= 0
  {
    hide LastApproved;
  }

  lemma KeyOfMonth(db: Database, k: DayKey, m: MonthKey)
    requires k in db.days && ValidDate(k.date)
    ensures k in MonthKeys(db, m) <==> MonthOf(k) == m
  {
  }

  lemma SettledKeys(db: Database, m: MonthKey)
    requires forall k | k in db.days :: k in MonthKeys(db, m) <==> MonthOf(k) == m
    requires forall k | k in db.days :: HasPending(db.days[k].corrections) <==> db.days[k].status == DayDisputed
    requires forall k | k in db.days :: db.days[k].status in {DayOpen, DayPendingApproval, DayApproved, DayDisputed}
    requires forall k | k in db.days :: db.days[k].status == DayApproved ==>
                                          db.days[k].approvedMinutes.Some? && db.days[k].approvedMinutes.value >= 0
    ensures Settled(db, m) <==> !Unsettled(db, m) && ApprovedKeys(db, m) != [] && !BadMinutes(db, ApprovedKeys(db, m))
    ensures Settled(db, m) ==> forall k :: k in ApprovedKeys(db, m) <==> k in db.days && MonthOf(k) == m
  {
    hide MonthKeys;
    hide HasPending;
    hide WithStatus;
    var keys := ApprovedKeys(db, m);
    hide ApprovedKeys;
    if Settled(db, m) {
      var k :| k in db.days && MonthOf(k) == m;
      assert k in keys;
    }
    if keys != [] {
      assert keys[0] in keys;
    }
  }

  lemma LinkedDays(days: map<DayKey, WorkDay>, approved: seq<DayKey>, m: MonthKey)
    requires forall k :: k in approved <==> k in days && MonthOf(k) == m
    ensures Link(days, approved, m).Keys == days.Keys
    ensures forall k :: k in days ==>
              Link(days, approved, m)[k] == if MonthOf(k) == m then days[k].(period := Some(m)) else days[k]
  {
  }

  lemma CloseCommits(db: Database, m: MonthKey, version: int, now: Instant)
    requires DbOk(db, now)
    ensures forall k :: k in db.days ==> EntriesOk(db.days[k].entries)
    ensures forall today ::
              var call, o := CloseCall(m, version, today), CommitClose(db, m, version, now);
              && (o.Committed? <==> CanFinish(db, db, call))
              && (o.Committed? ==> Does(db, call, now, now, o.db))
  {
    hide DbOk;
    hide EntriesOk;
    hide Settled;
    hide Unsettled;
    hide BadMinutes;
    hide ApprovedKeys;
    hide BuildSnapshot;
    hide Link;
    hide Frozen;
    hide VersionsOk;
    hide KeyIsNew;
    DaysAreWellFormed(db, now);
    SettledExactly(db, m, now);
    if m in db.periods {
      PeriodOfDb(db, m, now);
      if Settled(db, m) {
        LinkedDays(db.days, ApprovedKeys(db, m), m);
      }
    }
  }

  lemma CalculateFits(db: Database, r: Request, now: Instant)
    requires DbOk(db, now) && r.CalculateRequest? && RequestOk(db, r, now)
    ensures r.month in db.periods && r.month in db.snapshots && r.normalMinutes == db.snapshots[r.month].approvedMinutes
    ensures CommitCalculate(db, r.month, r.seen, r.normalMinutes).Committed? <==>
            db.periods[r.month].version == r.seen.version && db.periods[r.month].status == ReadyForCalculation
    ensures db.periods[r.month].version == r.seen.version ==> |VersionsOf(db, r.month)| == r.seen.currentVersionNumber
  {
    PeriodOfDb(db, r.month, now);
    hide DbOk;
    hide Frozen;
  }

  lemma CalculateCommits(read: Database, db: Database, r: Request, blocked: bool, now: Instant)
    requires DbOk(db, now) && r.CalculateRequest? && RequestOk(db, r, now) && r.month in read.periods && r.seen == read.periods[r.month]
    ensures forall k :: k in db.days ==> EntriesOk(db.days[k].entries)
    ensures var call, o := CalculateCall(r.month, blocked), CommitCalculate(db, r.month, r.seen, r.normalMinutes);
            && (o.Committed? <==> CanFinish(read, db, call))
            && (o.Committed? ==> Does(db, call, now, now, o.db))
  {
    hide DbOk;
    hide EntriesOk;
    hide Frozen;
    hide BuildSnapshot;
    hide KeyIsNew;
    hide Settled;
    DaysAreWellFormed(db, now);
    PeriodOfDb(db, r.month, now);
    CalculateFits(db, r, now);
    if CommitCalculate(db, r.month, r.seen, r.normalMinutes).Committed? {
      CalculateWrites(db, r.month, r.seen, r.normalMinutes);
      hide CommitCalculate;
    }
  }

  // ---------------------------------------------------------------- any request, stale or not

  /** A request as its call made it, with the pre-read phase's findings. */
  ghost predicate Made(read: Database, actor: Actor, call: Call, at: Instant, r: Request) {
    Begin(read, actor, call, at) == Started(r)
  }

  /** What a started request carries. */
  lemma Carries(read: Database, actor: Actor, call: Call, at: Instant, r: Request)
    requires Made(read, actor, call, at, r)
    ensures call.ClockInCall? ==> r == ClockInRequest(call.rel, call.key, call.localDate, at)
    ensures call.ClockOutCall? ==> r.ClockOutRequest? && r.key == call.key && r.at == at
    ensures call.ApproveCall? ==> r.ApproveRequest? && r.expectedVersion == call.expectedVersion
    ensures call.RequestCorrectionCall? ==>
              r.CorrectionRequest? && r == CorrectionRequest(r.pre, call.expectedVersion, call.proposedIn, call.proposedOut)
    ensures call.ApproveCorrectionCall? ==>
              r.ApproveCorrectionRequest? &&
              r == ApproveCorrectionRequest(r.pre, call.expectedVersion, call.correction, call.keyIn, call.keyOut)
    ensures call.RejectCorrectionCall? ==>
              r.RejectCorrectionRequest? && r.expectedVersion == call.expectedVersion && r.correction == call.correction
    ensures !call.ClockInCall? && !call.CloseCall? && !call.CalculateCall? ==> r.pre.day == call.day && !r.pre.periodClosed
    ensures call.CloseCall? ==> r == CloseRequest(call.month, call.expectedVersion)
    ensures call.CalculateCall? ==>
              r.CalculateRequest? && r.month == call.month && call.month in read.periods && r.seen == read.periods[call.month]
  {
    hide KeyUsed;
    hide FindActive;
    hide HasKind;
    hide HasPending;
  }

  /**
   * However stale the pre-read: the transaction goes through exactly when the rows it looks at are as the call expects
   * them, and what it writes is stated row by row.
   */
  lemma CommitsExactly(read: Database, actor: Actor, call: Call, at: Instant, r: Request, db: Database, now: Instant)
    requires Made(read, actor, call, at, r) && DbOk(db, now) && RequestOk(db, r, now)
    ensures WellFormed(r) && forall k :: k in db.days ==> EntriesOk(db.days[k].entries)
    ensures Commit(db, r, now).Committed? <==> CanFinish(read, db, call)
    ensures Commit(db, r, now).Committed? ==> Does(db, call, at, now, Commit(db, r, now).db)
  {
    hide DbOk;
    hide RequestOk;
    hide Made;
    hide CanFinish;
    hide Does;
    hide CommitClockIn;
    hide CommitClockOut;
    hide CommitApprove;
    hide CommitRequestCorrection;
    hide CommitApproveCorrection;
    hide CommitRejectCorrection;
    hide CommitClose;
    hide CommitCalculate;
    Carries(read, actor, call, at, r);
    DaysAreWellFormed(db, now);
    if !call.CalculateCall? {
      ReadMattersToCalculations(read, db, call);
    }
    if !call.ClockInCall? && !call.ClockOutCall? {
      StartMattersToClocks(db, call, at, now);
    }
    match call
    case ClockInCall(_, _, _, _) => ClockInCommits(db, call, at, now);
    case ClockOutCall(_, active, _) => ClockOutCommits(db, r, active, now);
    case ApproveCall(_, _) => ApproveCommits(db, r, now);
    case RequestCorrectionCall(_, _, _, _) => RequestCorrectionCommits(db, r, now);
    case ApproveCorrectionCall(_, _, _, _, _) => ApproveCorrectionCommits(db, r, now);
    case RejectCorrectionCall(_, _, _) => RejectCorrectionCommits(db, r, now);
    case CloseCall(m, version, _) => CloseCommits(db, m, version, now);
    case CalculateCall(_, blocked) => CalculateCommits(read, db, r, blocked, now);
  }

  lemma ReadMattersToCalculations(read: Database, db: Database, call: Call)
    requires !call.CalculateCall? && forall k :: k in db.days ==> EntriesOk(db.days[k].entries)
    ensures CanFinish(read, db, call) == CanFinish(db, db, call)
  {
    hide EntriesOk;
    hide KeyIsNew;
    hide Settled;
  }

  lemma StartMattersToClocks(db: Database, call: Call, at: Instant, now: Instant)
    requires !call.ClockInCall? && !call.ClockOutCall? && forall k :: k in db.days ==> EntriesOk(db.days[k].entries)
    ensures forall db' :: Does(db, call, at, now, db') == Does(db, call, now, now, db')
  {
    hide EntriesOk;
    hide OnlyDay;
    hide Restamped;
    hide WholeMinutes;
    hide ClosesMonth;
    hide StoresVersion;
    hide InTime;
    hide OutTime;
    hide Proposes;
  }

  /** A call with nothing in between goes through exactly when its actor may start it and its rows are ready. */
  lemma FreshCallsExactly(s: System, actor: Actor, call: Call)
    requires Inv(s) && (call.ClockInCall? ==> ValidDate(call.localDate)) && (call.CloseCall? ==> ValidDate(call.today))
    ensures forall k :: k in s.db.days ==> EntriesOk(s.db.days[k].entries)
    ensures var b := Begin(s.db, actor, call, s.clock);
            && (b.Started? ==> WellFormed(b.request))
            && (b.Started? && Commit(s.db, b.request, s.clock).Committed? <==>
                MayStart(s.db, actor, call, s.clock) && CanFinish(s.db, s.db, call))
            && (b.Started? && Commit(s.db, b.request, s.clock).Committed? ==>
                  Does(s.db, call, s.clock, s.clock, Commit(s.db, b.request, s.clock).db))
  {
    hide *;
    InvIs(s);
    BeginsExactly(s.db, actor, call, s.clock);
    BeginGivesSoundRequest(s.db, actor, call, s.clock);
    var b := Begin(s.db, actor, call, s.clock);
    if b.Started? {
      assert Made(s.db, actor, call, s.clock, b.request) by { MadeIs(s.db, actor, call, s.clock, b.request); }
      CommitsExactly(s.db, actor, call, s.clock, b.request, s.db, s.clock);
    }
  }

  lemma MadeIs(read: Database, actor: Actor, call: Call, at: Instant, r: Request)
    ensures Made(read, actor, call, at, r) <==> Begin(read, actor, call, at) == Started(r)
  {
    hide Begin;
  }

  lemma InvIs(s: System)
    requires Inv(s)
    ensures DbOk(s.db, s.clock) && forall r :: r in s.inFlight ==> RequestOk(s.db, r, s.clock)
  {
    hide DbOk;
    hide RequestOk;
  }

  // ---------------------------------------------------------------- whole runs

  lemma StepOf(run: seq<System>, steps: seq<Step>, k: nat)
    requires IsRun(run, steps)
    ensures |run| == |steps| + 1 && run[0].inFlight == multiset{}
    ensures k < |steps| ==> Next(run[k], steps[k], run[k + 1])
  {
    hide Next;
  }

  lemma NewRequests(s: System, step: Step, s': System, r: Request)
    requires Next(s, step, s') && r in s'.inFlight && r !in s.inFlight
    ensures step.BeginStep? && Made(s.db, step.actor, step.call, s.clock, r)
    ensures step.call.CloseCall? ==> ValidDate(step.call.today)
  {
    hide Begin;
    hide Commit;
    hide GetOrCreate;
  }

  /** Behind every request in flight there is the call that made it, which its actor was allowed to start. */
  lemma {:induction false} RequestsAreAuthorized(run: seq<System>, steps: seq<Step>, n: nat, r: Request) returns (b: nat)
    requires IsRun(run, steps) && n < |run| && r in run[n].inFlight
    ensures |run| == |steps| + 1 && b < n && steps[b].BeginStep?
    ensures forall k :: k in run[b].db.days ==> EntriesOk(run[b].db.days[k].entries)
    ensures Made(run[b].db, steps[b].actor, steps[b].call, run[b].clock, r)
    ensures MayStart(run[b].db, steps[b].actor, steps[b].call, run[b].clock)
    decreases n
  {
    hide *;
    StepOf(run, steps, 0);
    StepOf(run, steps, n - 1);
    if r in run[n - 1].inFlight {
      b := RequestsAreAuthorized(run, steps, n - 1, r);
    } else {
      b := n - 1;
      NewRequests(run[b], steps[b], run[n], r);
      RunKeeps(run, steps, b, b);
      InvIs(run[b]);
      BeginsExactly(run[b].db, steps[b].actor, steps[b].call, run[b].clock);
      MadeIs(run[b].db, steps[b].actor, steps[b].call, run[b].clock, r);
    }
  }

  lemma CommitHappens(s: System, step: Step, s': System)
    requires Next(s, step, s') && step.CommitStep?
    ensures step.request in s.inFlight && WellFormed(step.request) && s'.clock == s.clock
    ensures s'.db == After(s.db, Commit(s.db, step.request, s.clock))
  {
    hide Commit;
  }

  lemma AfterIs(db: Database, o: Outcome)
    ensures After(db, o) == if o.Committed? then o.db else db
  {
  }

  /**
   * Every transaction of every run: there is an earlier call behind it whose actor was allowed to start it on the rows of
   * that moment, it changes the tables exactly when these are ready for it, and then does what the call stands for.
   */
  lemma CommitsAreAuthorized(run: seq<System>, steps: seq<Step>, n: nat) returns (b: nat)
    requires IsRun(run, steps) && n < |steps| && steps[n].CommitStep?
    ensures |run| == |steps| + 1 && b < n && steps[b].BeginStep?
    ensures forall k :: k in run[b].db.days ==> EntriesOk(run[b].db.days[k].entries)
    ensures forall k :: k in run[n].db.days ==> EntriesOk(run[n].db.days[k].entries)
    ensures MayStart(run[b].db, steps[b].actor, steps[b].call, run[b].clock)
    ensures if CanFinish(run[b].db, run[n].db, steps[b].call)
            then Does(run[n].db, steps[b].call, run[b].clock, run[n].clock, run[n + 1].db)
            else run[n + 1].db == run[n].db
  {
    hide *;
    StepOf(run, steps, n);
    CommitHappens(run[n], steps[n], run[n + 1]);
    var r := steps[n].request;
    b := RequestsAreAuthorized(run, steps, n, r);
    RunKeeps(run, steps, n, n);
    InvIs(run[n]);
    CommitsExactly(run[b].db, steps[b].actor, steps[b].call, run[b].clock, r, run[n].db, run[n].clock);
    AfterIs(run[n].db, Commit(run[n].db, r, run[n].clock));
  }

  /** Nothing but a committed close ever closes a month. */
  lemma OpenStays(s: System, step: Step, s': System, m: MonthKey)
    requires Inv(s) && Next(s, step, s') && !step.CommitStep? && MonthClosed(s'.db, m)
    ensures MonthClosed(s.db, m)
  {
    InvIs(s);
    hide Inv;
    hide DbOk;
    hide RequestOk;
    hide Begin;
    hide HasArc;
    hide OwnArc;
    match step
    case MovePeriodStep(x, target, bump) => MoveKeepsOpen(s, x, target);
    case _ =>
  }

  lemma MoveKeepsOpen(s: System, m: MonthKey, target: PeriodStatus)
    requires DbOk(s.db, s.clock) && m in s.db.periods
    requires HasArc(PERIOD_TRANSITIONS, s.db.periods[m].status, target) && !OwnArc(s.db.periods[m].status, target)
    ensures !AttendanceClosed(s.db.periods[m]) ==> target != ReadyForCalculation
  {
    PeriodOfDb(s.db, m, s.clock);
    CloseIsAOneWayDoor(s.db.periods[m].status, target);
    hide DbOk;
    hide HasArc;
    hide Frozen;
    hide VersionsOk;
  }

  lemma OnlyClosesClose(db: Database, call: Call, at: Instant, now: Instant, db': Database, m: MonthKey)
    requires forall k :: k in db.days ==> EntriesOk(db.days[k].entries)
    requires Does(db, call, at, now, db') && !MonthClosed(db, m) && MonthClosed(db', m)
    requires call.CalculateCall? ==> call.month in db.periods && db.periods[call.month].status == ReadyForCalculation
    ensures call.CloseCall? && call.month == m
  {
    hide EntriesOk;
    hide Restamped;
    hide WholeMinutes;
    hide InTime;
    hide OutTime;
    hide Proposes;
  }

  /**
   * A month that becomes closed was closed by the employer: the step commits a close of it that the employer started, when
   * the month was over and at the version of that moment, which still is the version; and every day was approved.
   */
  lemma MonthsAreClosedByTheEmployer(run: seq<System>, steps: seq<Step>, n: nat, m: MonthKey) returns (b: nat)
    requires IsRun(run, steps) && n < |steps| && n + 1 < |run|
    requires !MonthClosed(run[n].db, m) && MonthClosed(run[n + 1].db, m)
    ensures b < n && steps[n].CommitStep? && steps[b].BeginStep? && steps[b].call.CloseCall?
    ensures var call := steps[b].call;
            && call.month == m && IsOver(m, call.today) && steps[b].actor.isEmployer
            && m in run[b].db.periods && run[b].db.periods[m].version == call.expectedVersion
            && m in run[n].db.periods && run[n].db.periods[m].version == call.expectedVersion
            && Settled(run[n].db, m)
  {
    hide *;
    StepOf(run, steps, n);
    RunKeeps(run, steps, n, n);
    if !steps[n].CommitStep? {
      OpenStays(run[n], steps[n], run[n + 1], m);
    }
    b := CommitsAreAuthorized(run, steps, n);
    var call := steps[b].call;
    FinishOf(run[b].db, run[n].db, steps[b].actor, call, run[b].clock);
    OnlyClosesClose(run[n].db, call, run[b].clock, run[n].clock, run[n + 1].db, m);
  }

  lemma FinishOf(read: Database, db: Database, actor: Actor, call: Call, at: Instant)
    requires forall k :: k in read.days ==> EntriesOk(read.days[k].entries)
    requires forall k :: k in db.days ==> EntriesOk(db.days[k].entries)
    requires MayStart(read, actor, call, at) && CanFinish(read, db, call)
    ensures call.CalculateCall? ==> call.month in db.periods && db.periods[call.month].status == ReadyForCalculation
    ensures call.CloseCall? ==>
              && IsOver(call.month, call.today) && actor.isEmployer
              && call.month in read.periods && read.periods[call.month].version == call.expectedVersion
              && call.month in db.periods && db.periods[call.month].version == call.expectedVersion
              && Settled(db, call.month)
  {
    hide EntriesOk;
    hide IsOver;
    hide KeyIsNew;
    hide Settled;
  }

  /** Conversely, the employer's call on a month that is over, open, settled and not empty closes it. */
  lemma SettledMonthsClose(s: System, actor: Actor, m: MonthKey, today: Date)
    requires Inv(s) && ValidDate(today) && IsOver(m, today) && actor.isEmployer && m in s.db.periods && !MonthClosed(s.db, m) && Settled(s.db, m)
    ensures var call := CloseCall(m, s.db.periods[m].version, today);
            && Begin(s.db, actor, call, s.clock).Started?
            && var r := Begin(s.db, actor, call, s.clock).request;
               && WellFormed(r) && Commit(s.db, r, s.clock).Committed?
               && MonthClosed(Commit(s.db, r, s.clock).db, m) && ClosesMonth(s.db, m, s.clock, Commit(s.db, r, s.clock).db)
  {
    hide Inv;
    hide IsOver;
    hide Begin;
    hide Commit;
    hide Settled;
    hide KeyIsNew;
    hide EntriesOk;
    hide WellFormed;
    hide Addressed;
    hide Standing;
    var call := CloseCall(m, s.db.periods[m].version, today);
    FreshCallsExactly(s, actor, call);
  }
}
