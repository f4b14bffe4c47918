/**
 * The attendance services as they write: tables held in fields, each transaction a sequence of statements that is
 * rolled back when it throws. Every method is proved against the transaction function it carries out.
 */
module AttendanceStore {
  import opened Calendar
  import opened Common
  import opened PayrollPeriodMachine
  import opened AttendanceModel

  /** How a transaction answers its caller. */
  datatype Answer = Written | Existing | Failed(error: ErrorCode)

  function AnswerOf(o: Outcome): Answer {
    match o
    case Committed(_) => Written
    case Returned => Existing
    case Thrown(e) => Failed(e)
  }

  lemma BlankDayUsesNoKey(db: Database, day: DayKey, blank: WorkDay, key: Key)
    requires !KeyUsed(db, day.rel, key) && blank.entries == []
    ensures !KeyUsed(PutDay(db, day, blank), day.rel, key)
  {
    forall k | k in PutDay(db, day, blank).days && k.rel == day.rel
      ensures !HasKey(PutDay(db, day, blank).days[k].entries, key)
    {
      assert k == day || !HasKey(db.days[k].entries, key);
    }
  }

  class Store {
    var days: map<DayKey, WorkDay>
    var periods: map<MonthKey, Period>
    var snapshots: map<MonthKey, Snapshot>
    var versions: map<MonthKey, seq<PayrollVersion>>

    constructor ()
      ensures Model() == Database(map[], map[], map[], map[])
    {
      days, periods, snapshots, versions := map[], map[], map[], map[];
    }

    /** The abstract value of the tables. */
    function Model(): Database
      reads this
    {
      Database(days, periods, snapshots, versions)
    }

    method Rollback(before: Database)
      modifies this
      ensures Model() == before
    {
      days, periods, snapshots, versions := before.days, before.periods, before.snapshots, before.versions;
    }

    /** Insert one time entry under a day; the unique indexes may refuse it. */
    method InsertTimeEntry(day: DayKey, e: TimeEntry) returns (answer: Answer)
      requires day in days
      modifies this`days
      ensures answer == AnswerOf(InsertEntry(old(Model()), day, e))
      ensures Model() == After(old(Model()), InsertEntry(old(Model()), day, e))
    {
      if KeyUsed(Model(), day.rel, e.key) {
        return Failed(KeyIndexViolated);
      }
      if e.status != EntryCorrected && HasActive(days[day].entries, e.kind) && e.kind in {ClockIn, ClockOut} {
        return Failed(ActiveEntryIndexViolated);
      }
      days := days[day := days[day].(entries := days[day].entries + [e])];
      return Written;
    }

    /** The transaction of `clockIn`. */
    method RunClockIn(rel: RelationshipId, key: Key, date: Date, at: Instant) returns (answer: Answer)
      modifies this
      ensures answer == AnswerOf(CommitClockIn(old(Model()), rel, key, date, at))
      ensures Model() == After(old(Model()), CommitClockIn(old(Model()), rel, key, date, at))
    {
      var day := DayKey(rel, date);
      if KeyUsed(Model(), rel, key) {
        return Existing;
      }
      if MonthClosed(Model(), MonthOf(day)) {
        return Failed(PeriodAttendanceClosed);
      }
      if OpenDayExists(Model(), rel) {
        return Failed(AttendanceAlreadyOpen);
      }
      if day in days {
        if days[day].status != DayOpen {
          return Failed(AttendanceAlreadyClosed);
        }
        return Failed(AttendanceAlreadyOpen);
      }
      var blank := WorkDay(DayOpen, 0, 0, None, 0, None, None, 0, [], []);
      BlankDayUsesNoKey(Model(), day, blank, key);
      days := days[day := blank];
      // the unique indexes cannot refuse this row: the key and the day were just found free
      var inserted := InsertTimeEntry(day, TimeEntry(ClockIn, EntryRecorded, at, key));
      assert inserted == Written;
      assert days[day].entries == [TimeEntry(ClockIn, EntryRecorded, at, key)];
      assert days == old(days)[day := NewDay(at, key)];
      return inserted;
    }

    /** The transaction of `clockOut`: the compare-and-set looks at the status only. */
    method RunClockOut(pre: PreRead, key: Key, at: Instant, worked: int, computable: int) returns (answer: Answer)
      modifies this
      ensures answer == AnswerOf(CommitClockOut(old(Model()), pre, key, at, worked, computable))
      ensures Model() == After(old(Model()), CommitClockOut(old(Model()), pre, key, at, worked, computable))
    {
      var before := Model();
      if MonthClosed(Model(), MonthOf(pre.day)) || pre.periodClosed {
        return Failed(PeriodAttendanceClosed);
      }
      if KeyUsed(Model(), pre.day.rel, key) {
        return Existing;
      }
      if pre.day !in days || days[pre.day].status != DayOpen {
        return Failed(AttendanceNotOpen);
      }
      var row := days[pre.day];
      days := days[pre.day := row.(status := DayPendingApproval, realMinutes := worked,
                                   computableMinutes := computable, version := row.version + 1)];
      var inserted := InsertTimeEntry(pre.day, TimeEntry(ClockOut, EntryRecorded, at, key));
      if inserted != Written {
        Rollback(before);
        return inserted;
      }
      return Written;
    }

    /** The transaction of `approve`. */
    method RunApprove(pre: PreRead, expected: int, minutes: int, now: Instant) returns (answer: Answer)
      modifies this
      ensures answer == AnswerOf(CommitApprove(old(Model()), pre, expected, minutes, now))
      ensures Model() == After(old(Model()), CommitApprove(old(Model()), pre, expected, minutes, now))
    {
      if MonthClosed(Model(), MonthOf(pre.day)) || pre.periodClosed {
        return Failed(PeriodAttendanceClosed);
      }
      if pre.day !in days || days[pre.day].status != DayPendingApproval || days[pre.day].version != expected {
        return Failed(VersionConflict);
      }
      var row := days[pre.day];
      days := days[pre.day := row.(status := DayApproved, approvedMinutes := Some(minutes), approvedAt := Some(now),
                                   version := row.version + 1)];
      days := days[pre.day := days[pre.day].(entries := Restatus(days[pre.day].entries, APPROVABLE, EntryApproved))];
      return Written;
    }

    /** The transaction of `requestCorrection`. */
    method RunRequestCorrection(pre: PreRead, expected: int, proposedIn: Instant, proposedOut: Instant, now: Instant)
      returns (answer: Answer)
      modifies this
      ensures answer == AnswerOf(CommitRequestCorrection(old(Model()), pre, expected, proposedIn, proposedOut, now))
      ensures Model() == After(old(Model()), CommitRequestCorrection(old(Model()), pre, expected, proposedIn, proposedOut, now))
    {
      if MonthClosed(Model(), MonthOf(pre.day)) || pre.periodClosed {
        return Failed(PeriodAttendanceClosed);
      }
      if pre.day !in days || days[pre.day].version != expected {
        return Failed(VersionConflict);
      }
      days := days[pre.day := days[pre.day].(status := DayDisputed, version := days[pre.day].version + 1)];
      var c := Correction(CorrectionPending, Some(proposedIn), Some(proposedOut), now);
      days := days[pre.day := days[pre.day].(corrections := days[pre.day].corrections + [c])];
      return Written;
    }

    /** The three updates that turn a disputed day into an approved one with an archived history. */
    method ResolveDay(day: DayKey, c: nat, worked: int, breakMinutes: int, now: Instant)
      requires day in days
      modifies this`days
      ensures Model() == PutDay(old(Model()), day, CorrectedRow(old(days)[day], c, worked, breakMinutes, now))
    {
      var row := days[day];
      days := days[day := row.(status := DayApproved, realMinutes := worked,
                               computableMinutes := Max(0, worked - breakMinutes), approvedMinutes := Some(worked),
                               approvedAt := Some(now), version := row.version + 1)];
      days := days[day := days[day].(corrections := Resolve(days[day].corrections, c, CorrectionApproved))];
      days := days[day := days[day].(entries := Restatus(days[day].entries, ARCHIVABLE, EntryCorrected))];
    }

    /** The transaction of `approveCorrection`: resolve, archive the old entries, insert the corrected pair. */
    method RunApproveCorrection(pre: PreRead, expected: int, c: nat, keyIn: Key, keyOut: Key, now: Instant)
      returns (answer: Answer)
      requires c < |pre.row.corrections|
      requires pre.row.corrections[c].proposedIn.Some? && pre.row.corrections[c].proposedOut.Some?
      modifies this
      ensures answer == AnswerOf(CommitApproveCorrection(old(Model()), pre, expected, c, keyIn, keyOut, now))
      ensures Model() == After(old(Model()), CommitApproveCorrection(old(Model()), pre, expected, c, keyIn, keyOut, now))
    {
      var before := Model();
      var proposedIn := pre.row.corrections[c].proposedIn.value;
      var proposedOut := pre.row.corrections[c].proposedOut.value;
      var worked := MinutesBetween(proposedIn, proposedOut);
      if MonthClosed(Model(), MonthOf(pre.day)) || pre.periodClosed {
        return Failed(PeriodAttendanceClosed);
      }
      if pre.day !in days || days[pre.day].status != DayDisputed || days[pre.day].version != expected {
        return Failed(VersionConflict);
      }
      ResolveDay(pre.day, c, worked, pre.row.breakMinutes, now);
      var first := InsertTimeEntry(pre.day, TimeEntry(ClockIn, EntryApproved, proposedIn, keyIn));
      if first != Written {
        Rollback(before);
        return first;
      }
      var second := InsertTimeEntry(pre.day, TimeEntry(ClockOut, EntryApproved, proposedOut, keyOut));
      if second != Written {
        Rollback(before);
        return second;
      }
      return Written;
    }

    /** The transaction of `rejectCorrection`; the partial index on open days may refuse the reopening. */
    method RunRejectCorrection(pre: PreRead, expected: int, c: nat, target: DayStatus) returns (answer: Answer)
      modifies this
      ensures answer == AnswerOf(CommitRejectCorrection(old(Model()), pre, expected, c, target))
      ensures Model() == After(old(Model()), CommitRejectCorrection(old(Model()), pre, expected, c, target))
    {
      if MonthClosed(Model(), MonthOf(pre.day)) || pre.periodClosed {
        return Failed(PeriodAttendanceClosed);
      }
      if pre.day !in days || days[pre.day].status != DayDisputed || days[pre.day].version != expected {
        return Failed(VersionConflict);
      }
      if target == DayOpen && OpenDayExists(Model(), pre.day.rel) {
        return Failed(OpenDayIndexViolated);
      }
      days := days[pre.day := days[pre.day].(status := target, version := days[pre.day].version + 1)];
      days := days[pre.day := days[pre.day].(corrections := Resolve(days[pre.day].corrections, c, CorrectionRejected))];
      return Written;
    }

    /** The integrity pass of the close over the approved days. */
    method FindBadMinutes(keys: seq<DayKey>) returns (bad: bool)
      requires forall k :: k in keys ==> k in days
      ensures bad <==> BadMinutes(Model(), keys)
    {
      var i := 0;
      while i < |keys|
        invariant 0 <= i <= |keys|
        invariant forall k :: k in keys[..i] ==> days[k].approvedMinutes.Some? && days[k].approvedMinutes.value >= 0
      {
        var day := days[keys[i]];
        if day.approvedMinutes.None? || day.approvedMinutes.value < 0 {
          assert keys[i] in keys;
          return true;
        }
        i := i + 1;
      }
      assert keys[..i] == keys;
      return false;
    }

    /** The transaction of `closeAttendance`. */
    method RunClose(m: MonthKey, expected: int, now: Instant) returns (answer: Answer)
      modifies this
      ensures answer == AnswerOf(CommitClose(old(Model()), m, expected, now))
      ensures Model() == After(old(Model()), CommitClose(old(Model()), m, expected, now))
    {
      hide ApprovedKeys;
      hide BuildSnapshot;
      hide Unsettled;
      hide BadMinutes;
      hide Link;
      if m !in periods {
        return Failed(NotFound);
      }
      var current := periods[m];
      if current.version != expected {
        return Failed(VersionConflict);
      }
      if AttendanceClosed(current) {
        return Existing;
      }
      if Unsettled(Model(), m) {
        return Failed(PeriodNotReady);
      }
      var approved := ApprovedKeys(Model(), m);
      if approved == [] {
        return Failed(EmptyPeriod);
      }
      var bad := FindBadMinutes(approved);
      if bad {
        return Failed(PeriodDataIntegrity);
      }
      var snapshot := BuildSnapshot(Model(), m);
      if !BeforeClose(current.status) {
        return Failed(VersionConflict);
      }
      if m in snapshots {
        return Failed(PeriodConcurrentlyModified);
      }
      periods := periods[m := current.(status := ReadyForCalculation, attendanceApprovedAt := Some(now),
                                       version := current.version + 1)];
      days := Link(days, approved, m);
      snapshots := snapshots[m := snapshot];
      return Written;
    }

    /** The transaction of `persist`: retire the current version, insert the next, then move the period. */
    method RunCalculate(m: MonthKey, seen: Period, normalMinutes: int) returns (answer: Answer)
      modifies this
      ensures answer == AnswerOf(CommitCalculate(old(Model()), m, seen, normalMinutes))
      ensures Model() == After(old(Model()), CommitCalculate(old(Model()), m, seen, normalMinutes))
    {
      var before := Model();
      var number := seen.currentVersionNumber + 1;
      var retired := Retire(VersionsOf(Model(), m));
      versions := versions[m := retired];
      if exists i :: 0 <= i < |retired| && retired[i].number == number {
        Rollback(before);
        return Failed(KeyIndexViolated);
      }
      versions := versions[m := retired + [PayrollVersion(number, true, normalMinutes)]];
      if m !in periods || periods[m].version != seen.version || periods[m].status != ReadyForCalculation {
        Rollback(before);
        return Failed(PeriodConcurrentlyModified);
      }
      periods := periods[m := periods[m].(status := Calculated, currentVersionNumber := number,
                                          version := periods[m].version + 1)];
      return Written;
    }

    /** `getOrCreate`. */
    method RunGetOrCreate(m: MonthKey) returns (period: Period)
      modifies this`periods
      ensures Model() == GetOrCreate(old(Model()), m)
      ensures m in periods && period == periods[m]
      ensures period == if m in old(periods) then old(periods)[m] else Period(Open, None, 0, 0)
      ensures periods == old(periods)[m := period]
    {
      if m !in periods {
        periods := periods[m := Period(Open, None, 0, 0)];
      }
      return periods[m];
    }
  }
}
