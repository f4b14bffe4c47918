/** Runs from the empty database that reach the states in which the attendance service falls short. */
module AttendanceRuns {
  import opened Calendar
  import opened Common
  import opened AttendanceModel
  import opened AttendanceDay
  import opened AttendanceProtocol

  ghost predicate Reachable(s: System) {
    exists run, steps :: IsRun(run, steps) && run[|steps|] == s
  }

  lemma StepReaches(s: System, step: Step, s': System)
    requires Reachable(s) && Next(s, step, s')
    ensures Reachable(s')
  {
    var run, steps :| IsRun(run, steps) && run[|steps|] == s;
    hide Next;
    var run', steps' := run + [s'], steps + [step];
    forall i | 0 <= i < |steps'|
      ensures Next(run'[i], steps'[i], run'[i + 1])
    {
      assert i < |steps| ==> Next(run[i], steps[i], run[i + 1]);
    }
    assert IsRun(run', steps') && run'[|steps'|] == s';
  }

  /** What holds in every state of every run holds in a reachable state. */
  lemma ReachableIsSound(s: System)
    requires Reachable(s)
    ensures Inv(s)
  {
    var run, steps :| IsRun(run, steps) && run[|steps|] == s;
    RunKeeps(run, steps, |steps|, |steps|);
  }

  /** No period yet, and nothing in flight. */
  function Quiet(days: map<DayKey, WorkDay>, clock: Instant): System {
    System(Database(days, map[], map[], map[]), clock, multiset{})
  }

  lemma EmptyReaches(clock: Instant)
    ensures Reachable(Quiet(map[], clock))
  {
    var run, steps: seq<Step> := [Quiet(map[], clock)], [];
    assert IsRun(run, steps) && run[|steps|] == Quiet(map[], clock);
  }

  const BOTH := Actor(true, true)

  lemma BeginReaches(s: System, call: Call, r: Request)
    requires Reachable(s) && Begin(s.db, BOTH, call, s.clock) == Started(r)
    requires (call.ClockInCall? ==> ValidDate(call.localDate)) && (call.CloseCall? ==> ValidDate(call.today))
    ensures Reachable(s.(inFlight := s.inFlight + multiset{r}))
  {
    hide Begin;
    hide Reachable;
    StepReaches(s, BeginStep(BOTH, call), s.(inFlight := s.inFlight + multiset{r}));
  }

  /** One call from its pre-read to its commit, with nothing in between. */
  lemma CallReaches(s: System, call: Call, r: Request, db': Database)
    requires Reachable(s) && s.inFlight == multiset{} && Begin(s.db, BOTH, call, s.clock) == Started(r)
    requires (call.ClockInCall? ==> ValidDate(call.localDate)) && (call.CloseCall? ==> ValidDate(call.today))
    requires WellFormed(r) && Commit(s.db, r, s.clock) == Committed(db')
    ensures Reachable(s.(db := db'))
  {
    BeginReaches(s, call, r);
    hide Begin;
    hide Commit;
    hide Reachable;
    var s1 := s.(inFlight := multiset{r});
    assert s.inFlight + multiset{r} == multiset{r};
    assert multiset{r} - multiset{r} == multiset{};
    StepReaches(s1, CommitStep(r), s.(db := db'));
  }

  lemma ClockInReaches(days: map<DayKey, WorkDay>, clock: Instant, day: DayKey, key: Key)
    requires Reachable(Quiet(days, clock)) && ValidDate(day.date) && day !in days
    requires forall k :: k in days && k.rel == day.rel ==> days[k].status != DayOpen && !HasKey(days[k].entries, key)
    ensures Reachable(Quiet(days[day := NewDay(clock, key)], clock))
  {
    hide Reachable;
    var s := Quiet(days, clock);
    CallReaches(s, ClockInCall(day.rel, true, key, day.date), ClockInRequest(day.rel, key, day.date, clock),
                PutDay(s.db, day, NewDay(clock, key)));
  }

  function Asked(row: WorkDay, proposedIn: Instant, proposedOut: Instant, now: Instant): WorkDay {
    row.(status := DayDisputed, version := row.version + 1,
         corrections := row.corrections + [Correction(CorrectionPending, Some(proposedIn), Some(proposedOut), now)])
  }

  lemma RequestReaches(days: map<DayKey, WorkDay>, clock: Instant, day: DayKey, proposedIn: Instant, proposedOut: Instant)
    requires Reachable(Quiet(days, clock)) && day in days && days[day].period.None?
    requires !HasPending(days[day].corrections) && proposedIn < proposedOut
    ensures Reachable(Quiet(days[day := Asked(days[day], proposedIn, proposedOut, clock)], clock))
  {
    hide Reachable;
    var s, row := Quiet(days, clock), days[day];
    CallReaches(s, RequestCorrectionCall(day, row.version, proposedIn, proposedOut),
                CorrectionRequest(ReadDay(s.db, day), row.version, proposedIn, proposedOut),
                PutDay(s.db, day, Asked(row, proposedIn, proposedOut, clock)));
  }

  /** A disputed row after its correction `c` was approved. */
  function Corrected(row: WorkDay, c: nat, keyIn: Key, keyOut: Key, now: Instant): WorkDay
    requires c < |row.corrections| && row.corrections[c].proposedIn.Some? && row.corrections[c].proposedOut.Some?
  {
    var i, o := row.corrections[c].proposedIn.value, row.corrections[c].proposedOut.value;
    var moved := CorrectedRow(row, c, MinutesBetween(i, o), row.breakMinutes, now);
    moved.(entries := moved.entries + [TimeEntry(ClockIn, EntryApproved, i, keyIn)] + [TimeEntry(ClockOut, EntryApproved, o, keyOut)])
  }

  /** The call that approves a correction, and what its transaction does to the table. */
  lemma ApproveCorrectionCommits(s: System, day: DayKey, c: nat, keyIn: Key, keyOut: Key)
    requires s.db.periods == map[] && day in s.db.days
    requires EntriesOk(s.db.days[day].entries) && s.db.days[day].period.None? && s.db.days[day].status == DayDisputed
    requires var cs := s.db.days[day].corrections; c < |cs| && cs[c].status == CorrectionPending && Proposes(cs[c])
    requires keyIn != keyOut && !KeyUsed(s.db, day.rel, keyIn) && !KeyUsed(s.db, day.rel, keyOut)
    ensures var r := ApproveCorrectionRequest(ReadDay(s.db, day), s.db.days[day].version, c, keyIn, keyOut);
            && WellFormed(r)
            && Begin(s.db, BOTH, ApproveCorrectionCall(day, c, s.db.days[day].version, keyIn, keyOut), s.clock) == Started(r)
            && Commit(s.db, r, s.clock) == Committed(PutDay(s.db, day, Corrected(s.db.days[day], c, keyIn, keyOut, s.clock)))
  {
    hide KeyUsed;
    var row := s.db.days[day];
    var i, o := row.corrections[c].proposedIn.value, row.corrections[c].proposedOut.value;
    var moved := CorrectedRow(row, c, MinutesBetween(i, o), row.breakMinutes, s.clock);
    assert !HasActive(moved.entries, ClockIn) && !HasActive(moved.entries, ClockOut);
    InsertTwo(s.db, day, moved, TimeEntry(ClockIn, EntryApproved, i, keyIn), TimeEntry(ClockOut, EntryApproved, o, keyOut));
    hide InsertEntry;
    hide CorrectedRow;
    hide PutDay;
    hide EntriesOk;
    hide HasActive;
  }

  lemma ApproveCorrectionReaches(days: map<DayKey, WorkDay>, clock: Instant, day: DayKey, c: nat, keyIn: Key, keyOut: Key)
    requires Reachable(Quiet(days, clock)) && day in days && days[day].period.None? && days[day].status == DayDisputed
    requires c < |days[day].corrections| && days[day].corrections[c].status == CorrectionPending && Proposes(days[day].corrections[c])
    requires keyIn != keyOut
    requires forall k :: k in days && k.rel == day.rel ==> !HasKey(days[k].entries, keyIn) && !HasKey(days[k].entries, keyOut)
    ensures Reachable(Quiet(days[day := Corrected(days[day], c, keyIn, keyOut, clock)], clock))
  {
    hide Reachable;
    hide HasKey;
    var s, row := Quiet(days, clock), days[day];
    ReachableIsSound(s);
    assert EntriesOk(row.entries) by {
      hide EntriesOk;
      DayOfDb(s.db, day, clock);
    }
    hide Inv;
    hide EntriesOk;
    ApproveCorrectionCommits(s, day, c, keyIn, keyOut);
    hide Begin;
    hide Commit;
    hide Corrected;
    hide WellFormed;
    CallReaches(s, ApproveCorrectionCall(day, c, row.version, keyIn, keyOut),
                ApproveCorrectionRequest(ReadDay(s.db, day), row.version, c, keyIn, keyOut),
                PutDay(s.db, day, Corrected(row, c, keyIn, keyOut, clock)));
  }

  // ---------------------------------------------------------------- the two runs

  /** A correction of the only day, requested and approved at once. */
  lemma CorrectOnce(row: WorkDay, day: DayKey, clock: Instant, keyIn: Key, keyOut: Key, proposal: (Instant, Instant))
    returns (row': WorkDay)
    requires Reachable(Quiet(map[day := row], clock)) && row.period.None? && row.status != DayDisputed
    requires proposal.0 < proposal.1 && keyIn != keyOut && !HasKey(row.entries, keyIn) && !HasKey(row.entries, keyOut)
    ensures Reachable(Quiet(map[day := row'], clock)) && row'.period.None? && row'.status != DayDisputed
    ensures row'.corrections == row.corrections + [Correction(CorrectionApproved, Some(proposal.0), Some(proposal.1), clock)]
    ensures forall key :: HasKey(row'.entries, key) <==> HasKey(row.entries, key) || key == keyIn || key == keyOut
  {
    hide *;
    var days, c := map[day := row], |row.corrections|;
    var asked := Asked(row, proposal.0, proposal.1, clock);
    AskedIs(row, proposal.0, proposal.1, clock);
    row' := Corrected(asked, c, keyIn, keyOut, clock);
    NothingPending(row, day, clock);
    RequestReaches(days, clock, day, proposal.0, proposal.1);
    assert days[day := asked] == map[day := asked];
    ApproveCorrectionReaches(map[day := asked], clock, day, c, keyIn, keyOut);
    assert map[day := asked][day := row'] == map[day := row'];
    CorrectedIs(asked, c, keyIn, keyOut, clock);
    assert asked.corrections[c := asked.corrections[c].(status := CorrectionApproved)] ==
           row.corrections + [Correction(CorrectionApproved, Some(proposal.0), Some(proposal.1), clock)];
  }

  lemma NothingPending(row: WorkDay, day: DayKey, clock: Instant)
    requires Reachable(Quiet(map[day := row], clock)) && row.status != DayDisputed
    ensures !HasPending(row.corrections)
  {
    ReachableIsSound(Quiet(map[day := row], clock));
    hide Reachable;
    hide DayOk;
    DayOfDb(Quiet(map[day := row], clock).db, day, clock);
    DisputedIffOnePending(row, clock);
  }

  lemma AskedIs(row: WorkDay, proposedIn: Instant, proposedOut: Instant, now: Instant)
    requires proposedIn < proposedOut
    ensures var asked := Asked(row, proposedIn, proposedOut, now);
            && asked.entries == row.entries && asked.period == row.period && asked.status == DayDisputed
            && asked.corrections == row.corrections + [Correction(CorrectionPending, Some(proposedIn), Some(proposedOut), now)]
            && Proposes(asked.corrections[|row.corrections|])
  {
  }

  lemma CorrectedIs(row: WorkDay, c: nat, keyIn: Key, keyOut: Key, now: Instant)
    requires c < |row.corrections| && Proposes(row.corrections[c])
    ensures row.corrections[c].proposedIn.Some? && row.corrections[c].proposedOut.Some?
    ensures var row' := Corrected(row, c, keyIn, keyOut, now);
            && row'.period == row.period && row'.status == DayApproved
            && row'.corrections == row.corrections[c := row.corrections[c].(status := CorrectionApproved)]
            && forall key :: HasKey(row'.entries, key) <==> HasKey(row.entries, key) || key == keyIn || key == keyOut
  {
    var archived := Restatus(row.entries, ARCHIVABLE, EntryCorrected);
    var eIn := TimeEntry(ClockIn, EntryApproved, row.corrections[c].proposedIn.value, keyIn);
    var eOut := TimeEntry(ClockOut, EntryApproved, row.corrections[c].proposedOut.value, keyOut);
    forall key
      ensures HasKey(archived + [eIn] + [eOut], key) <==> HasKey(row.entries, key) || key == keyIn || key == keyOut
    {
      HasKeyAppend(archived, eIn, key);
      HasKeyAppend(archived + [eIn], eOut, key);
      assert HasKey(archived, key) <==> HasKey(row.entries, key);
    }
  }

  predicate FiveKeys(keys: seq<Key>) {
    |keys| == 5 && forall i, j :: 0 <= i < j < 5 ==> keys[i] != keys[j]
  }

  /**
   * Two corrections of one day, each requested and approved, all within one millisecond: a run ends in a state where the
   * database may answer the older one, and the view then shows times that are not those of the live entries. It takes
   * no more than two different proposals.
   */
  lemma TiedStampsMislead(day: DayKey, clock: Instant, keys: seq<Key>, first: (Instant, Instant), second: (Instant, Instant))
    returns (s: System, newest: Option<Correction>)
    requires ValidDate(day.date) && FiveKeys(keys) && first.0 < first.1 && second.0 < second.1 && first != second
    ensures Reachable(s) && s.clock == clock && day in s.db.days
    ensures NewestApproved(s.db.days[day].corrections, newest) && !ViewAgrees(s.db.days[day], newest)
  {
    hide Reachable;
    hide Corrected;
    var row0 := NewDay(clock, keys[0]);
    EmptyReaches(clock);
    ClockInReaches(map[], clock, day, keys[0]);
    assert forall key :: HasKey(row0.entries, key) ==> key == row0.entries[0].key;
    hide HasKey;
    var row2 := CorrectOnce(row0, day, clock, keys[1], keys[2], first);
    var row4 := CorrectOnce(row2, day, clock, keys[3], keys[4], second);
    s := Quiet(map[day := row4], clock);
    newest := TiedRow(s, day, row2.corrections[0], row4.corrections[1]);
  }

  lemma TiedRow(s: System, day: DayKey, older: Correction, newer: Correction) returns (newest: Option<Correction>)
    requires Reachable(s) && day in s.db.days && s.db.days[day].corrections == [older, newer]
    requires older.status == CorrectionApproved && newer.status == CorrectionApproved && older.createdAt == newer.createdAt
    requires (older.proposedIn, older.proposedOut) != (newer.proposedIn, newer.proposedOut)
    ensures NewestApproved(s.db.days[day].corrections, newest) && !ViewAgrees(s.db.days[day], newest)
  {
    var d := s.db.days[day];
    ReachableIsSound(s);
    DayOfDb(s.db, day, s.clock);
    ViewAgreesWithEntries(d, s.clock);
    hide Reachable;
    hide Inv;
    hide DayOk;
    hide ViewAgrees;
    assert LastApproved(d.corrections) == 1;
    assert d.corrections[0] == older && !TiesAgree(d.corrections);
    newest :| NewestApproved(d.corrections, newest) && !ViewAgrees(d, newest);
  }

  /**
   * A day is clocked in and disputed, the next one is clocked in, and the dispute is rejected: every check of the
   * service passes, and the index on open days refuses a row that would have been the second open one.
   */
  lemma IndexRefusesARejection(rel: RelationshipId, d1: Date, d2: Date, clock: Instant, key1: Key, key2: Key)
    returns (s: System, r: Request)
    requires ValidDate(d1) && ValidDate(d2) && d1 != d2 && key1 != key2
    ensures Reachable(s) && r in s.inFlight && r.RejectCorrectionRequest? && r.pre.day in s.db.days
    ensures Commit(s.db, r, s.clock) == Thrown(OpenDayIndexViolated)
    ensures !OneOpenDay(s.db.days[r.pre.day := RejectedRow(s.db.days[r.pre.day], r.correction, r.target)])
  {
    var day1, day2 := DayKey(rel, d1), DayKey(rel, d2);
    var row1 := Asked(NewDay(clock, key1), clock, clock + 1, clock);
    EmptyReaches(clock);
    ClockInReaches(map[], clock, day1, key1);
    RequestReaches(map[day1 := NewDay(clock, key1)], clock, day1, clock, clock + 1);
    assert map[day1 := NewDay(clock, key1)][day1 := row1] == map[day1 := row1];
    ClockInReaches(map[day1 := row1], clock, day2, key2);
    var days := map[day1 := row1][day2 := NewDay(clock, key2)];
    var quiet := Quiet(days, clock);
    r := RejectCorrectionRequest(ReadDay(quiet.db, day1), 1, 0, DayOpen);
    BeginReaches(quiet, RejectCorrectionCall(day1, 0, 1), r);
    s := quiet.(inFlight := quiet.inFlight + multiset{r});
    var after := days[day1 := RejectedRow(row1, 0, DayOpen)];
    assert after[day1].status == DayOpen && after[day2].status == DayOpen;
  }
}
