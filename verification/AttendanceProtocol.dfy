/**
 * The attendance and month-close protocol: a database, a clock and a bag of requests, each holding its
 * own pre-read, interleaved in any order. One inductive invariant and what it gives over whole runs.
 */
module AttendanceProtocol {
  import opened Calendar
  import opened Common
  import opened StateMachine
  import opened PayrollPeriodMachine
  import opened AttendanceModel
  import opened AttendanceDay

  datatype System = System(db: Database, clock: Instant, inFlight: multiset<Request>)

  datatype Step =
    | Tick(to: Instant)
    | BeginStep(actor: Actor, call: Call)
    | CommitStep(request: Request)
    | DropStep(request: Request) // crash, timeout or lost connection before the transaction
    | OpenPeriodStep(month: MonthKey)
    | MovePeriodStep(month: MonthKey, target: PeriodStatus, bump: bool)

  /** The arcs the two services write themselves. */
  predicate OwnArc(source: PeriodStatus, target: PeriodStatus) {
    (BeforeClose(source) && target == ReadyForCalculation) || (source == ReadyForCalculation && target == Calculated)
  }

  ghost predicate Next(s: System, step: Step, s': System) {
    match step
    case Tick(to) =>
      s.clock <= to && s' == s.(clock := to)
    case BeginStep(actor, call) =>
      && (call.ClockInCall? ==> ValidDate(call.localDate)) && (call.CloseCall? ==> ValidDate(call.today))
      && (match Begin(s.db, actor, call, s.clock)
          case Started(r) => s' == s.(inFlight := s.inFlight + multiset{r})
          case Answered => s' == s
          case Refused(_) => s' == s)
    case CommitStep(r) =>
      && r in s.inFlight && WellFormed(r)
      && s' == s.(db := After(s.db, Commit(s.db, r, s.clock)), inFlight := s.inFlight - multiset{r})
    case DropStep(r) =>
      r in s.inFlight && s' == s.(inFlight := s.inFlight - multiset{r})
    case OpenPeriodStep(m) =>
      s' == s.(db := GetOrCreate(s.db, m))
    case MovePeriodStep(m, target, bump) =>
      // every other arc of the period table, by code this model does not contain, with or without a version bump
      && m in s.db.periods
      && HasArc(PERIOD_TRANSITIONS, s.db.periods[m].status, target) && !OwnArc(s.db.periods[m].status, target)
      && s' == s.(db := MovePeriod(s.db, m, target, bump))
  }

  function MovePeriod(db: Database, m: MonthKey, target: PeriodStatus, bump: bool): Database
    requires m in db.periods
  {
    var p := db.periods[m];
    db.(periods := db.periods[m := p.(status := target, version := p.version + (if bump then 1 else 0))])
  }

  ghost predicate Init(s: System) {
    s.db == Database(map[], map[], map[], map[]) && s.inFlight == multiset{}
  }

  ghost predicate IsRun(run: seq<System>, steps: seq<Step>) {
    && |run| == |steps| + 1
    && Init(run[0])
    && forall i :: 0 <= i < |steps| ==> Next(run[i], steps[i], run[i + 1])
  }

  // ---------------------------------------------------------------- the invariant

  /** No two entries of a relationship share an idempotency key. */
  ghost predicate KeysUnique(days: map<DayKey, WorkDay>) {
    forall k1, k2 {:trigger SeparateKeys(days, k1, k2)} |
      k1 in days && k2 in days && k1.rel == k2.rel :: SeparateKeys(days, k1, k2)
  }

  ghost predicate SeparateKeys(days: map<DayKey, WorkDay>, k1: DayKey, k2: DayKey)
    requires k1 in days && k2 in days
  {
    forall i, j |
      0 <= i < |days[k1].entries| && 0 <= j < |days[k2].entries| &&
      days[k1].entries[i].key == days[k2].entries[j].key :: k1 == k2 && i == j
  }

  ghost predicate OneOpenDay(days: map<DayKey, WorkDay>) {
    forall k1, k2 |
      k1 in days && k2 in days && k1.rel == k2.rel &&
      days[k1].status == DayOpen && days[k2].status == DayOpen :: k1 == k2
  }

  ghost predicate DaysOk(days: map<DayKey, WorkDay>, clock: Instant) {
    forall k :: k in days ==> ValidDate(k.date) && DayOk(days[k], clock)
  }

  /** The month is closed: every live day is approved and linked, and the snapshot is what they give now. */
  ghost predicate Frozen(db: Database, m: MonthKey) {
    && m in db.snapshots
    && (forall k :: k in db.days && MonthOf(k) == m ==> db.days[k].status == DayApproved && db.days[k].period == Some(m))
    && db.snapshots[m] == BuildSnapshot(db, m)
    && db.snapshots[m].days != []
  }

  /** Version numbers are exactly 1..n, and only the last version is current. */
  ghost predicate VersionsOk(db: Database, m: MonthKey)
    requires m in db.periods
  {
    var vs := VersionsOf(db, m);
    && |vs| == db.periods[m].currentVersionNumber
    && (forall i :: 0 <= i < |vs| ==> vs[i].number == i + 1 && (vs[i].isCurrent <==> i == |vs| - 1))
    && (vs != [] ==> m in db.snapshots)
    && (forall i :: 0 <= i < |vs| ==> vs[i].normalMinutes == db.snapshots[m].approvedMinutes)
  }

  ghost predicate PeriodOk(db: Database, m: MonthKey)
    requires m in db.periods
  {
    var p := db.periods[m];
    && (p.attendanceApprovedAt.Some? <==> !BeforeClose(p.status))
    && (m in db.snapshots <==> !BeforeClose(p.status))
    && (m in db.snapshots ==> Frozen(db, m))
    && VersionsOk(db, m)
  }

  ghost predicate PeriodsOk(db: Database) {
    && (forall m :: m in db.periods ==> PeriodOk(db, m))
    && (forall m :: m in db.snapshots || m in db.versions ==> m in db.periods)
  }

  ghost predicate DbOk(db: Database, clock: Instant) {
    DaysOk(db.days, clock) && KeysUnique(db.days) && OneOpenDay(db.days) && PeriodsOk(db)
  }

  /** A pre-read is some earlier state of a day that still exists. */
  ghost predicate Seen(db: Database, pre: PreRead, clock: Instant) {
    pre.day in db.days && DayOk(pre.row, clock) && Evolves(pre.row, db.days[pre.day])
  }

  ghost predicate PeriodEvolves(a: Period, b: Period) {
    && a.version <= b.version
    && (a.version == b.version ==> a.currentVersionNumber == b.currentVersionNumber)
    && (a.attendanceApprovedAt.Some? ==> b.attendanceApprovedAt == a.attendanceApprovedAt)
  }

  ghost predicate RequestOk(db: Database, r: Request, clock: Instant) {
    match r
    case ClockInRequest(rel, key, date, at) => ValidDate(date)
    case ClockOutRequest(pre, key, at, worked, computable) =>
      && Seen(db, pre, clock) && pre.row.status == DayOpen && InTime(pre.row) <= at
      && worked == MinutesBetween(InTime(pre.row), at) && computable == Max(0, worked - pre.row.breakMinutes)
    case ApproveRequest(pre, expected, minutes) =>
      && Seen(db, pre, clock) && pre.row.version == expected && pre.row.status == DayPendingApproval
      && minutes == MinutesBetween(InTime(pre.row), OutTime(pre.row))
    case CorrectionRequest(pre, expected, proposedIn, proposedOut) =>
      && Seen(db, pre, clock) && pre.row.version == expected && !HasPending(pre.row.corrections)
      && proposedIn < proposedOut
    case ApproveCorrectionRequest(pre, expected, c, keyIn, keyOut) =>
      && Seen(db, pre, clock) && pre.row.version == expected
      && c < |pre.row.corrections| && pre.row.corrections[c].status == CorrectionPending
    case RejectCorrectionRequest(pre, expected, c, target) =>
      && Seen(db, pre, clock) && pre.row.version == expected
      && c < |pre.row.corrections| && pre.row.corrections[c].status == CorrectionPending
      && target == if HasKind(pre.row.entries, ClockOut) then DayPendingApproval else DayOpen
    case CloseRequest(m, expected) => true
    case CalculateRequest(m, seen, normalMinutes) =>
      && m in db.periods && PeriodEvolves(seen, db.periods[m])
      && m in db.snapshots && normalMinutes == db.snapshots[m].approvedMinutes
  }

  ghost predicate Inv(s: System) {
    DbOk(s.db, s.clock) && forall r :: r in s.inFlight ==> RequestOk(s.db, r, s.clock)
  }

  // ---------------------------------------------------------------- what no step undoes

  predicate SameMonthRows(days: map<DayKey, WorkDay>, days': map<DayKey, WorkDay>, m: MonthKey) {
    && (forall k :: k in days && MonthOf(k) == m ==> k in days' && days'[k] == days[k])
    && (forall k :: k in days' && MonthOf(k) == m ==> k in days)
  }

  /** Version rows keep their number and content; only the current flag of older ones goes away. */
  ghost predicate VersionsEvolve(a: seq<PayrollVersion>, b: seq<PayrollVersion>) {
    |a| <= |b| && forall i :: 0 <= i < |a| ==> b[i].number == a[i].number && b[i].normalMinutes == a[i].normalMinutes
  }

  /** `db'` is a later state of `db`. */
  ghost predicate Later(db: Database, db': Database) {
    && (forall k :: k in db.days ==> k in db'.days && Evolves(db.days[k], db'.days[k]))
    && (forall m :: m in db.periods ==> m in db'.periods && PeriodEvolves(db.periods[m], db'.periods[m]))
    && (forall m :: m in db.snapshots ==> m in db'.snapshots && db'.snapshots[m] == db.snapshots[m])
    && (forall m :: m in db.snapshots ==> SameMonthRows(db.days, db'.days, m))
    && (forall m :: VersionsEvolve(VersionsOf(db, m), VersionsOf(db', m)))
  }

  lemma LaterIsReflexive(db: Database)
    ensures Later(db, db)
  {
  }

  lemma LaterIsTransitive(a: Database, b: Database, c: Database)
    requires Later(a, b) && Later(b, c)
    ensures Later(a, c)
  {
    hide Evolves;
    hide VersionsOf;
    forall k | k in a.days
      ensures k in c.days && Evolves(a.days[k], c.days[k])
    {
      EvolvesIsTransitive(a.days[k], b.days[k], c.days[k]);
    }
    forall m
      ensures VersionsEvolve(VersionsOf(a, m), VersionsOf(c, m))
    {
      assert VersionsEvolve(VersionsOf(a, m), VersionsOf(b, m)) && VersionsEvolve(VersionsOf(b, m), VersionsOf(c, m));
    }
  }

  lemma RequestSurvives(db: Database, db': Database, r: Request, clock: Instant, clock': Instant)
    requires RequestOk(db, r, clock) && Later(db, db') && clock <= clock'
    ensures RequestOk(db', r, clock')
  {
    if r.ClockOutRequest? || r.ApproveRequest? || r.CorrectionRequest? ||
       r.ApproveCorrectionRequest? || r.RejectCorrectionRequest? {
      EvolvesIsTransitive(r.pre.row, db.days[r.pre.day], db'.days[r.pre.day]);
      LaterClockKeeps(r.pre.row, clock, clock');
    }
  }

  // ---------------------------------------------------------------- the snapshot depends on its month only

  lemma {:induction false} KeysFrame(a: map<DayKey, WorkDay>, b: map<DayKey, WorkDay>, m: MonthKey, n: nat)
    requires forall k :: MonthOf(k) == m ==> (k in a <==> k in b)
    ensures DayKeysUpTo(a, m, n) == DayKeysUpTo(b, m, n)
  {
    if n > 0 {
      KeysFrame(a, b, m, n - 1);
      assert MonthOf(DayKey(m.rel, Date(m.year, m.month, n))) == m;
    }
  }

  lemma {:induction false} RowsFrame(a: Database, b: Database, keys: seq<DayKey>, s: DayStatus)
    requires forall k :: k in keys ==> k in a.days && k in b.days && SameContent(a.days[k], b.days[k])
    ensures WithStatus(a, keys, s) == WithStatus(b, keys, s)
    ensures ApprovedMinutesOf(a, keys) == ApprovedMinutesOf(b, keys)
  {
    if keys != [] {
      RowsFrame(a, b, keys[1..], s);
      assert SameContent(a.days[keys[0]], b.days[keys[0]]);
    }
  }

  lemma SnapshotFrame(a: Database, b: Database, m: MonthKey)
    requires forall k :: MonthOf(k) == m ==> (k in a.days <==> k in b.days)
    requires forall k :: k in a.days && MonthOf(k) == m ==> SameContent(a.days[k], b.days[k])
    ensures BuildSnapshot(a, m) == BuildSnapshot(b, m)
  {
    var n := DaysInMonth(m.year, m.month);
    KeysFrame(a.days, b.days, m, n);
    var keys := MonthKeys(a, m);
    forall k | k in keys
      ensures k in a.days && k in b.days && SameContent(a.days[k], b.days[k])
    {
      assert MonthOf(k) == m;
    }
    RowsFrame(a, b, keys, DayApproved);
    var approved := WithStatus(a, keys, DayApproved);
    RowsFrame(a, b, approved, DayApproved);
    forall i | 0 <= i < |approved|
      ensures SnapshotDayOf(a, approved[i]) == SnapshotDayOf(b, approved[i])
    {
      assert approved[i] in approved;
    }
  }

  /** A closed month stays frozen when its rows and its snapshot stay. */
  lemma FrozenFrame(a: Database, b: Database, m: MonthKey)
    requires Frozen(a, m) && SameMonthRows(a.days, b.days, m)
    requires m in b.snapshots && b.snapshots[m] == a.snapshots[m]
    ensures Frozen(b, m)
  {
    hide BuildSnapshot;
    assert BuildSnapshot(a, m) == BuildSnapshot(b, m) by {
      forall k | MonthOf(k) == m
        ensures k in a.days <==> k in b.days
      {
      }
      SnapshotFrame(a, b, m);
    }
  }

  /** A period is sound in `b` when everything its soundness reads is as in `a`. */
  lemma PeriodFrame(a: Database, b: Database, m: MonthKey)
    requires m in a.periods && PeriodOk(a, m)
    requires m in b.periods && VersionsOf(b, m) == VersionsOf(a, m)
    requires b.periods[m].currentVersionNumber == a.periods[m].currentVersionNumber
    requires b.periods[m].attendanceApprovedAt == a.periods[m].attendanceApprovedAt
    requires BeforeClose(b.periods[m].status) <==> BeforeClose(a.periods[m].status)
    requires m in a.snapshots <==> m in b.snapshots
    requires m in a.snapshots ==> a.snapshots[m] == b.snapshots[m] && SameMonthRows(a.days, b.days, m)
    ensures PeriodOk(b, m)
  {
    hide BuildSnapshot;
    if m in a.snapshots {
      FrozenFrame(a, b, m);
    }
  }

  /** The two databases agree on every month but one. */
  ghost predicate OnlyMonth(a: Database, b: Database, m: MonthKey) {
    && (forall x :: x != m ==> (x in a.periods <==> x in b.periods))
    && (forall x :: x != m && x in a.periods ==> a.periods[x] == b.periods[x])
    && (forall x :: x != m ==> (x in a.snapshots <==> x in b.snapshots))
    && (forall x :: x != m && x in a.snapshots ==> a.snapshots[x] == b.snapshots[x])
    && (forall x :: x != m ==> (x in a.versions <==> x in b.versions))
    && (forall x :: x != m && x in a.versions ==> a.versions[x] == b.versions[x])
    && (forall x :: x != m ==> SameMonthRows(a.days, b.days, x))
  }

  lemma OnePeriodChanges(a: Database, b: Database, m: MonthKey)
    requires PeriodsOk(a) && OnlyMonth(a, b, m) && m in b.periods && PeriodOk(b, m)
    ensures PeriodsOk(b)
  {
    hide PeriodOk;
    forall x | x in b.periods
      ensures PeriodOk(b, x)
    {
      if x != m {
        PeriodFrame(a, b, x);
      }
    }
  }

  lemma OneMonthLater(a: Database, b: Database, m: MonthKey)
    requires OnlyMonth(a, b, m)
    requires forall k :: k in a.days ==> k in b.days && Evolves(a.days[k], b.days[k])
    requires m in a.periods ==> m in b.periods && PeriodEvolves(a.periods[m], b.periods[m])
    requires m in a.snapshots ==> m in b.snapshots && a.snapshots[m] == b.snapshots[m] && SameMonthRows(a.days, b.days, m)
    requires VersionsEvolve(VersionsOf(a, m), VersionsOf(b, m))
    ensures Later(a, b)
  {
    hide Evolves;
    hide SameMonthRows;
    forall x
      ensures VersionsEvolve(VersionsOf(a, x), VersionsOf(b, x))
    {
      assert x != m ==> VersionsOf(a, x) == VersionsOf(b, x);
    }
  }

  // ---------------------------------------------------------------- writing one day

  /** The new row reuses the old row's keys in place and appends keys nobody in the relationship has. */
  ghost predicate KeysExtend(db: Database, day: DayKey, row: WorkDay) {
    var before := if day in db.days then |db.days[day].entries| else 0;
    && before <= |row.entries|
    && (forall i :: 0 <= i < before ==> row.entries[i].key == db.days[day].entries[i].key)
    && (forall i :: before <= i < |row.entries| ==> !KeyUsed(db, day.rel, row.entries[i].key))
    && (forall i, j :: before <= i < j < |row.entries| ==> row.entries[i].key != row.entries[j].key)
  }

  lemma PutDayKeepsKeys(db: Database, day: DayKey, row: WorkDay)
    requires KeysUnique(db.days) && KeysExtend(db, day, row)
    ensures KeysUnique(db.days[day := row])
  {
    var db' := PutDay(db, day, row);
    forall k1, k2 | k1 in db'.days && k2 in db'.days && k1.rel == k2.rel
      ensures SeparateKeys(db'.days, k1, k2)
    {
      if k1 in db.days && k2 in db.days {
        assert SeparateKeys(db.days, k1, k2);
      }
      forall i, j |
        0 <= i < |db'.days[k1].entries| && 0 <= j < |db'.days[k2].entries| &&
        db'.days[k1].entries[i].key == db'.days[k2].entries[j].key
        ensures k1 == k2 && i == j
      {
        NoClash(db, day, row, k1, i, k2, j);
        NoClash(db, day, row, k2, j, k1, i);
      }
    }
  }

  /** An appended key clashes with no key of another position. */
  lemma NoClash(db: Database, day: DayKey, row: WorkDay, k1: DayKey, i: nat, k2: DayKey, j: nat)
    requires KeysExtend(db, day, row) && k1.rel == k2.rel
    requires var days := db.days[day := row];
             k1 in days && k2 in days && i < |days[k1].entries| && j < |days[k2].entries| &&
             days[k1].entries[i].key == days[k2].entries[j].key
    ensures k1 == day && (day in db.days ==> i >= |db.days[day].entries|) ==> k2 == day && i == j
  {
    if k1 == day && (day in db.days ==> i >= |db.days[day].entries|) {
      assert !KeyUsed(db, day.rel, row.entries[i].key);
      if k2 in db.days && j < |db.days[k2].entries| {
        assert HasKey(db.days[k2].entries, db.days[k2].entries[j].key);
      }
    }
  }

  lemma PutDayKeepsPeriods(db: Database, day: DayKey, row: WorkDay)
    requires PeriodsOk(db) && MonthOf(day) !in db.snapshots
    ensures PeriodsOk(PutDay(db, day, row))
    ensures forall m :: m in db.snapshots ==> SameMonthRows(db.days, PutDay(db, day, row).days, m)
  {
    hide PeriodOk;
    var db' := PutDay(db, day, row);
    forall m | m in db'.periods
      ensures PeriodOk(db', m)
    {
      PeriodFrame(db, db', m);
    }
  }

  lemma PutDayKeepsDays(days: map<DayKey, WorkDay>, day: DayKey, row: WorkDay, clock: Instant)
    requires DaysOk(days, clock) && OneOpenDay(days) && ValidDate(day.date) && DayOk(row, clock)
    requires row.status == DayOpen ==> forall k :: k in days && k.rel == day.rel && k != day ==> days[k].status != DayOpen
    ensures DaysOk(days[day := row], clock) && OneOpenDay(days[day := row])
  {
    hide DayOk;
  }

  lemma PutDayIsLater(db: Database, day: DayKey, row: WorkDay)
    requires day in db.days ==> Evolves(db.days[day], row)
    requires forall m :: m in db.snapshots ==> SameMonthRows(db.days, PutDay(db, day, row).days, m)
    ensures Later(db, PutDay(db, day, row))
  {
    hide Evolves;
    hide SameMonthRows;
    hide VersionsEvolve;
    assert Later(db, db) by { LaterIsReflexive(db); }
  }

  lemma OpenMonthHasNoSnapshot(db: Database, m: MonthKey, clock: Instant)
    requires DbOk(db, clock) && !MonthClosed(db, m)
    ensures m !in db.snapshots
  {
    hide Frozen;
    hide VersionsOk;
    assert m in db.periods ==> PeriodOk(db, m);
  }

  lemma PartsOfDb(db: Database, clock: Instant)
    ensures DbOk(db, clock) <==> DaysOk(db.days, clock) && KeysUnique(db.days) && OneOpenDay(db.days) && PeriodsOk(db)
  {
  }

  lemma PutDayIs(db: Database, day: DayKey, row: WorkDay)
    ensures PutDay(db, day, row).days == db.days[day := row]
  {
  }

  /** The frame of every attendance transaction: one sound, evolved row in a month that is not closed. */
  lemma PutDayKeeps(db: Database, day: DayKey, row: WorkDay, clock: Instant)
    requires DbOk(db, clock) && !MonthClosed(db, MonthOf(day))
    requires ValidDate(day.date) && DayOk(row, clock) && KeysExtend(db, day, row)
    requires day in db.days ==> Evolves(db.days[day], row)
    requires row.status == DayOpen ==> forall k :: k in db.days && k.rel == day.rel && k != day ==> db.days[k].status != DayOpen
    ensures DbOk(PutDay(db, day, row), clock) && Later(db, PutDay(db, day, row))
  {
    hide *;
    PartsOfDb(db, clock);
    OpenMonthHasNoSnapshot(db, MonthOf(day), clock);
    PutDayKeepsDays(db.days, day, row, clock);
    PutDayKeepsKeys(db, day, row);
    PutDayKeepsPeriods(db, day, row);
    PutDayIsLater(db, day, row);
    PutDayIs(db, day, row);
    PartsOfDb(PutDay(db, day, row), clock);
  }

  // ---------------------------------------------------------------- every transaction keeps the invariant

  /** The version compare-and-set succeeds only when the pre-read is still the current content. */
  lemma StillCurrent(db: Database, pre: PreRead, clock: Instant)
    requires DbOk(db, clock) && Seen(db, pre, clock) && db.days[pre.day].version == pre.row.version
    ensures SameContent(pre.row, db.days[pre.day])
    ensures ValidDate(pre.day.date) && DayOk(db.days[pre.day], clock)
  {
  }

  lemma DayOfDb(db: Database, k: DayKey, clock: Instant)
    requires DbOk(db, clock) && k in db.days
    ensures ValidDate(k.date) && DayOk(db.days[k], clock) && EntriesOk(db.days[k].entries)
  {
  }

  lemma PeriodOfDb(db: Database, m: MonthKey, clock: Instant)
    requires DbOk(db, clock) && m in db.periods
    ensures PeriodOk(db, m)
  {
  }

  lemma SameDaysEvolve(days: map<DayKey, WorkDay>)
    ensures forall k :: k in days ==> Evolves(days[k], days[k])
    ensures forall m :: SameMonthRows(days, days, m)
  {
  }

  lemma CommitClockInKeeps(db: Database, rel: RelationshipId, key: Key, date: Date, at: Instant, clock: Instant)
    requires DbOk(db, clock) && ValidDate(date)
    ensures var db' := After(db, CommitClockIn(db, rel, key, date, at)); DbOk(db', clock) && Later(db, db')
  {
    hide KeysUnique;
    hide PeriodsOk;
    hide Later;
    LaterIsReflexive(db);
    if CommitClockIn(db, rel, key, date, at).Committed? {
      PutDayKeeps(db, DayKey(rel, date), NewDay(at, key), clock);
    }
  }

  lemma CommitClockOutKeeps(db: Database, r: Request, clock: Instant)
    requires DbOk(db, clock) && r.ClockOutRequest? && RequestOk(db, r, clock)
    ensures var db' := After(db, CommitClockOut(db, r.pre, r.key, r.at, r.realMinutes, r.computableMinutes)); DbOk(db', clock) && Later(db, db')
    ensures CommitClockOut(db, r.pre, r.key, r.at, r.realMinutes, r.computableMinutes) != Thrown(ActiveEntryIndexViolated)
  {
    hide DbOk;
    hide Later;
    hide DayOk;
    hide Evolves;
    LaterIsReflexive(db);
    var day := r.pre.day;
    var row := db.days[day];
    if row.status == DayOpen && !MonthClosed(db, MonthOf(day)) && !KeyUsed(db, day.rel, r.key) && !r.pre.periodClosed {
      DayOfDb(db, day, clock);
      ClockOutKeeps(r.pre.row, row, r.key, r.at, clock);
      var moved := row.(status := DayPendingApproval, realMinutes := r.realMinutes, computableMinutes := r.computableMinutes,
                        version := row.version + 1);
      var row' := moved.(entries := row.entries + [TimeEntry(ClockOut, EntryRecorded, r.at, r.key)]);
      SameKeysUsed(db, day, moved, r.key);
      assert PutDay(PutDay(db, day, moved), day, row') == PutDay(db, day, row');
      assert CommitClockOut(db, r.pre, r.key, r.at, r.realMinutes, r.computableMinutes) == Committed(PutDay(db, day, row'));
      PutDayKeeps(db, day, row', clock);
    }
  }

  /** Changing a row without touching its entries' keys does not change which keys are used. */
  lemma SameKeysUsed(db: Database, day: DayKey, row: WorkDay, key: Key)
    requires day in db.days && |row.entries| == |db.days[day].entries|
    requires forall i :: 0 <= i < |row.entries| ==> row.entries[i].key == db.days[day].entries[i].key
    ensures KeyUsed(PutDay(db, day, row), day.rel, key) <==> KeyUsed(db, day.rel, key)
  {
    var db' := PutDay(db, day, row);
    forall k | k in db.days
      ensures HasKey(db'.days[k].entries, key) <==> HasKey(db.days[k].entries, key)
    {
    }
  }

  lemma CommitApproveKeeps(db: Database, r: Request, clock: Instant)
    requires DbOk(db, clock) && r.ApproveRequest? && RequestOk(db, r, clock)
    ensures var db' := After(db, CommitApprove(db, r.pre, r.expectedVersion, r.minutes, clock)); DbOk(db', clock) && Later(db, db')
  {
    hide DbOk;
    hide Later;
    hide DayOk;
    hide Evolves;
    LaterIsReflexive(db);
    if CommitApprove(db, r.pre, r.expectedVersion, r.minutes, clock).Committed? {
      var row := db.days[r.pre.day];
      StillCurrent(db, r.pre, clock);
      ApproveKeeps(row, clock, clock);
      PutDayKeeps(db, r.pre.day, CommitApprove(db, r.pre, r.expectedVersion, r.minutes, clock).db.days[r.pre.day], clock);
    }
  }

  lemma CommitRequestCorrectionKeeps(db: Database, r: Request, clock: Instant)
    requires DbOk(db, clock) && r.CorrectionRequest? && RequestOk(db, r, clock)
    ensures var db' := After(db, CommitRequestCorrection(db, r.pre, r.expectedVersion, r.proposedIn, r.proposedOut, clock)); DbOk(db', clock) && Later(db, db')
  {
    hide DbOk;
    hide Later;
    hide DayOk;
    hide Evolves;
    LaterIsReflexive(db);
    if CommitRequestCorrection(db, r.pre, r.expectedVersion, r.proposedIn, r.proposedOut, clock).Committed? {
      var row := db.days[r.pre.day];
      StillCurrent(db, r.pre, clock);
      RequestKeeps(row, r.proposedIn, r.proposedOut, clock);
      PutDayKeeps(db, r.pre.day, CommitRequestCorrection(db, r.pre, r.expectedVersion, r.proposedIn, r.proposedOut, clock).db.days[r.pre.day], clock);
    }
  }

  lemma CommitApproveCorrectionKeeps(db: Database, r: Request, clock: Instant)
    requires DbOk(db, clock) && r.ApproveCorrectionRequest? && RequestOk(db, r, clock)
    ensures WellFormed(r)
    ensures var db' := After(db, CommitApproveCorrection(db, r.pre, r.expectedVersion, r.correction, r.keyIn, r.keyOut, clock)); DbOk(db', clock) && Later(db, db')
    ensures CommitApproveCorrection(db, r.pre, r.expectedVersion, r.correction, r.keyIn, r.keyOut, clock) != Thrown(ActiveEntryIndexViolated)
  {
    hide DbOk;
    hide Later;
    hide DayOk;
    hide Evolves;
    LaterIsReflexive(db);
    var day, c := r.pre.day, r.correction;
    var row := db.days[day];
    CorrectionsPropose(r.pre.row, c, clock);
    if row.version == r.expectedVersion && row.status == DayDisputed && !MonthClosed(db, MonthOf(day)) && !r.pre.periodClosed {
      StillCurrent(db, r.pre, clock);
      ApproveCorrectionKeeps(row, c, r.keyIn, r.keyOut, clock, clock);
      var proposal := row.corrections[c];
      var worked := MinutesBetween(proposal.proposedIn.value, proposal.proposedOut.value);
      var moved := row.(status := DayApproved, realMinutes := worked,
                        computableMinutes := Max(0, worked - row.breakMinutes),
                        approvedMinutes := Some(worked), approvedAt := Some(clock), version := row.version + 1,
                        corrections := Resolve(row.corrections, c, CorrectionApproved),
                        entries := Restatus(row.entries, ARCHIVABLE, EntryCorrected));
      var eIn := TimeEntry(ClockIn, EntryApproved, proposal.proposedIn.value, r.keyIn);
      var eOut := TimeEntry(ClockOut, EntryApproved, proposal.proposedOut.value, r.keyOut);
      InsertPairKeeps(db, day, moved, eIn, eOut, clock);
    }
  }

  /** Replacing the live pair: archive in place, then insert the two new entries. */
  lemma InsertPairKeeps(db: Database, day: DayKey, moved: WorkDay, eIn: TimeEntry, eOut: TimeEntry, clock: Instant)
    requires DbOk(db, clock) && day in db.days && !MonthClosed(db, MonthOf(day))
    requires |moved.entries| == |db.days[day].entries|
    requires forall i :: 0 <= i < |moved.entries| ==> moved.entries[i].key == db.days[day].entries[i].key
    requires !HasActive(moved.entries, ClockIn) && !HasActive(moved.entries, ClockOut)
    requires eIn.kind == ClockIn && eOut.kind == ClockOut
    requires var row := moved.(entries := moved.entries + [eIn] + [eOut]);
             DayOk(row, clock) && Evolves(db.days[day], row) && row.status != DayOpen
    ensures var first := InsertEntry(PutDay(db, day, moved), day, eIn);
            var o := if first.Committed? then InsertEntry(first.db, day, eOut) else first;
            && o != Thrown(ActiveEntryIndexViolated)
            && DbOk(After(db, o), clock) && Later(db, After(db, o))
  {
    hide DbOk;
    hide Later;
    hide DayOk;
    hide Evolves;
    hide InsertEntry;
    hide HasActive;
    LaterIsReflexive(db);
    DayOfDb(db, day, clock);
    InsertTwo(db, day, moved, eIn, eOut);
    var row := moved.(entries := moved.entries + [eIn] + [eOut]);
    if !KeyUsed(db, day.rel, eIn.key) && !KeyUsed(db, day.rel, eOut.key) && eIn.key != eOut.key {
      hide KeyUsed;
      PutDayKeeps(db, day, row, clock);
    }
  }

  /** The two inserts go through exactly when both keys are new and different. */
  lemma InsertTwo(db: Database, day: DayKey, moved: WorkDay, eIn: TimeEntry, eOut: TimeEntry)
    requires day in db.days && |moved.entries| == |db.days[day].entries|
    requires forall i :: 0 <= i < |moved.entries| ==> moved.entries[i].key == db.days[day].entries[i].key
    requires !HasActive(moved.entries, ClockIn) && !HasActive(moved.entries, ClockOut)
    requires eIn.kind == ClockIn && eOut.kind == ClockOut
    ensures var first := InsertEntry(PutDay(db, day, moved), day, eIn);
            var o := if first.Committed? then InsertEntry(first.db, day, eOut) else first;
            o == if KeyUsed(db, day.rel, eIn.key) || KeyUsed(db, day.rel, eOut.key) || eIn.key == eOut.key
                 then Thrown(KeyIndexViolated)
                 else Committed(PutDay(db, day, moved.(entries := moved.entries + [eIn] + [eOut])))
  {
    hide KeyUsed;
    hide HasActive;
    SameKeysUsed(db, day, moved, eIn.key);
    SameKeysUsed(db, day, moved, eOut.key);
    var mid := moved.(entries := moved.entries + [eIn]);
    var row := moved.(entries := moved.entries + [eIn] + [eOut]);
    assert PutDay(PutDay(db, day, moved), day, mid) == PutDay(db, day, mid);
    assert PutDay(PutDay(db, day, mid), day, row) == PutDay(db, day, row);
    if !KeyUsed(db, day.rel, eIn.key) {
      KeyUsedAfterAppend(db, day, moved, eIn, eOut.key);
    }
  }

  lemma KeyUsedAfterAppend(db: Database, day: DayKey, moved: WorkDay, e: TimeEntry, key: Key)
    requires day in db.days && |moved.entries| == |db.days[day].entries|
    requires forall i :: 0 <= i < |moved.entries| ==> moved.entries[i].key == db.days[day].entries[i].key
    ensures var mid := moved.(entries := moved.entries + [e]);
            (KeyUsed(PutDay(db, day, mid), day.rel, key) <==> KeyUsed(db, day.rel, key) || e.key == key) &&
            (HasActive(mid.entries, ClockOut) <==> HasActive(moved.entries, ClockOut) || IsActive(e, ClockOut))
  {
    var mid := moved.(entries := moved.entries + [e]);
    var db' := PutDay(db, day, mid);
    assert mid.entries[|moved.entries|] == e;
    HasKeyAppend(moved.entries, e, key);
    assert HasKey(moved.entries, key) <==> HasKey(db.days[day].entries, key);
    if KeyUsed(db, day.rel, key) {
      var k :| k in db.days && k.rel == day.rel && HasKey(db.days[k].entries, key);
      assert HasKey(db'.days[k].entries, key);
    }
    if e.key == key {
      assert HasKey(db'.days[day].entries, key);
    }
    if KeyUsed(db', day.rel, key) {
      var k :| k in db'.days && k.rel == day.rel && HasKey(db'.days[k].entries, key);
      assert k != day ==> HasKey(db.days[k].entries, key);
    }
    assert forall i :: 0 <= i < |moved.entries| ==> mid.entries[i] == moved.entries[i];
  }

  lemma HasKeyAppend(es: seq<TimeEntry>, e: TimeEntry, key: Key)
    ensures HasKey(es + [e], key) <==> HasKey(es, key) || e.key == key
  {
    if HasKey(es, key) {
      var i :| 0 <= i < |es| && es[i].key == key;
      assert (es + [e])[i].key == key;
    }
    assert (es + [e])[|es|] == e;
  }

  lemma CommitRejectCorrectionKeeps(db: Database, r: Request, clock: Instant)
    requires DbOk(db, clock) && r.RejectCorrectionRequest? && RequestOk(db, r, clock)
    ensures var db' := After(db, CommitRejectCorrection(db, r.pre, r.expectedVersion, r.correction, r.target)); DbOk(db', clock) && Later(db, db')
  {
    hide DbOk;
    hide Later;
    hide DayOk;
    hide Evolves;
    LaterIsReflexive(db);
    if CommitRejectCorrection(db, r.pre, r.expectedVersion, r.correction, r.target).Committed? {
      var row := db.days[r.pre.day];
      StillCurrent(db, r.pre, clock);
      RejectCorrectionKeeps(row, r.correction, clock);
      PutDayKeeps(db, r.pre.day, CommitRejectCorrection(db, r.pre, r.expectedVersion, r.correction, r.target).db.days[r.pre.day], clock);
    }
  }

  lemma CloseFoundAllApproved(db: Database, m: MonthKey, expected: int, clock: Instant)
    requires DbOk(db, clock) && CommitClose(db, m, expected, clock).Committed?
    ensures BeforeClose(db.periods[m].status)
    ensures forall k :: k in db.days && MonthOf(k) == m ==> db.days[k].status == DayApproved && k in ApprovedKeys(db, m)
  {
    hide DbOk;
    hide EntriesOk;
    hide CorrectionsOk;
    hide MinutesOk;
    hide EffectiveOk;
    hide BadMinutes;
    hide BuildSnapshot;
    hide Link;
    forall k | k in db.days && MonthOf(k) == m
      ensures k in ApprovedKeys(db, m) && db.days[k].status == DayApproved
    {
      DayOfDb(db, k, clock);
      assert k in MonthKeys(db, m);
    }
  }

  /** What a committed close writes. */
  lemma CloseWrites(db: Database, m: MonthKey, expected: int, clock: Instant)
    requires CommitClose(db, m, expected, clock).Committed?
    ensures m in db.periods && BeforeClose(db.periods[m].status) && m !in db.snapshots && ApprovedKeys(db, m) != []
    ensures var db', p := CommitClose(db, m, expected, clock).db, db.periods[m];
            && db'.days == Link(db.days, ApprovedKeys(db, m), m)
            && db'.snapshots == db.snapshots[m := BuildSnapshot(db, m)]
            && db'.versions == db.versions
            && db'.periods == db.periods[m := p.(status := ReadyForCalculation, attendanceApprovedAt := Some(clock), version := p.version + 1)]
  {
    hide Unsettled;
    hide BadMinutes;
    hide Link;
    hide BuildSnapshot;
  }

  lemma LinkMarks(days: map<DayKey, WorkDay>, approved: seq<DayKey>, m: MonthKey)
    requires forall k :: k in days && MonthOf(k) == m ==> days[k].status == DayApproved && k in approved
    ensures var days' := Link(days, approved, m);
            forall k :: k in days' && MonthOf(k) == m ==> days'[k].status == DayApproved && days'[k].period == Some(m)
  {
  }

  lemma SnapshotHasDays(db: Database, m: MonthKey)
    requires ApprovedKeys(db, m) != []
    ensures BuildSnapshot(db, m).days != []
  {
    hide ApprovedKeys;
    assert |SnapshotDays(db, ApprovedKeys(db, m))| > 0;
  }

  lemma LinkedSnapshot(db: Database, db': Database, m: MonthKey)
    requires db'.days == Link(db.days, ApprovedKeys(db, m), m)
    ensures BuildSnapshot(db', m) == BuildSnapshot(db, m)
  {
    LinkKeepsOthers(db, m);
    hide Link;
    hide SameContent;
    hide BuildSnapshot;
    SnapshotFrame(db', db, m);
  }

  lemma LinkedIsFrozen(db: Database, db': Database, m: MonthKey)
    requires forall k :: k in db.days && MonthOf(k) == m ==> db.days[k].status == DayApproved && k in ApprovedKeys(db, m)
    requires db'.days == Link(db.days, ApprovedKeys(db, m), m) && ApprovedKeys(db, m) != []
    requires db'.snapshots == db.snapshots[m := BuildSnapshot(db, m)]
    ensures Frozen(db', m)
  {
    LinkMarks(db.days, ApprovedKeys(db, m), m);
    SnapshotHasDays(db, m);
    LinkedSnapshot(db, db', m);
    hide BuildSnapshot;
    hide Link;
    hide ApprovedKeys;
  }

  lemma CloseFreezes(db: Database, m: MonthKey, expected: int, clock: Instant)
    requires DbOk(db, clock) && CommitClose(db, m, expected, clock).Committed?
    ensures Frozen(CommitClose(db, m, expected, clock).db, m)
  {
    hide *;
    CloseFoundAllApproved(db, m, expected, clock);
    CloseWrites(db, m, expected, clock);
    LinkedIsFrozen(db, CommitClose(db, m, expected, clock).db, m);
  }

  lemma CloseKeepsPeriod(db: Database, db': Database, m: MonthKey, expected: int, clock: Instant)
    requires DbOk(db, clock) && CommitClose(db, m, expected, clock) == Committed(db')
    ensures m in db'.periods && PeriodOk(db', m) && OnlyMonth(db, db', m)
  {
    hide DbOk;
    hide Frozen;
    hide BuildSnapshot;
    hide Link;
    CloseFreezes(db, m, expected, clock);
    CloseWrites(db, m, expected, clock);
    hide CommitClose;
    LinkKeepsOthers(db, m);
    hide SameContent;
    hide SameMonthRows;
    PeriodOfDb(db, m, clock);
  }

  lemma CloseKeepsDb(db: Database, db': Database, m: MonthKey, expected: int, clock: Instant)
    requires DbOk(db, clock) && CommitClose(db, m, expected, clock) == Committed(db')
    ensures DbOk(db', clock) && OnlyMonth(db, db', m) && forall k :: k in db.days ==> k in db'.days && Evolves(db.days[k], db'.days[k])
  {
    hide *;
    PartsOfDb(db, clock);
    CloseWrites(db, m, expected, clock);
    CloseKeepsPeriod(db, db', m, expected, clock);
    LinkKeepsOthers(db, m);
    assert forall k :: k in db'.days ==> SameContent(db.days[k], db'.days[k]) by {
      SameContentIsSymmetric();
    }
    LinkKeepsDays(db.days, db'.days, clock);
    OnePeriodChanges(db, db', m);
    PartsOfDb(db', clock);
  }

  lemma SameContentIsSymmetric()
    ensures forall a, b :: SameContent(a, b) <==> SameContent(b, a)
  {
  }

  lemma CommitCloseKeeps(db: Database, m: MonthKey, expected: int, clock: Instant)
    requires DbOk(db, clock)
    ensures var db' := After(db, CommitClose(db, m, expected, clock)); DbOk(db', clock) && Later(db, db')
  {
    hide DbOk;
    hide Evolves;
    hide Later;
    hide OnlyMonth;
    hide BuildSnapshot;
    hide Link;
    LaterIsReflexive(db);
    if CommitClose(db, m, expected, clock).Committed? {
      var db' := CommitClose(db, m, expected, clock).db;
      CloseWrites(db, m, expected, clock);
      CloseKeepsDb(db, db', m, expected, clock);
      hide CommitClose;
      OneMonthLater(db, db', m);
    }
  }

  lemma SameContentKeeps(a: WorkDay, b: WorkDay, clock: Instant)
    requires DayOk(a, clock) && SameContent(a, b)
    ensures DayOk(b, clock) && Evolves(a, b)
  {
  }

  lemma LinkKeepsDays(days: map<DayKey, WorkDay>, days': map<DayKey, WorkDay>, clock: Instant)
    requires DaysOk(days, clock) && KeysUnique(days) && OneOpenDay(days)
    requires forall k :: k in days' <==> k in days
    requires forall k :: k in days' ==> SameContent(days[k], days'[k])
    ensures DaysOk(days', clock) && KeysUnique(days') && OneOpenDay(days')
    ensures forall k :: k in days ==> Evolves(days[k], days'[k])
  {
    hide DayOk;
    hide Evolves;
    forall k | k in days'
      ensures ValidDate(k.date) && DayOk(days'[k], clock) && Evolves(days[k], days'[k])
    {
      SameContentKeeps(days[k], days'[k], clock);
    }
    forall k1, k2 | k1 in days' && k2 in days' && k1.rel == k2.rel
      ensures SeparateKeys(days', k1, k2)
    {
      assert SeparateKeys(days, k1, k2) && SameContent(days[k1], days'[k1]) && SameContent(days[k2], days'[k2]);
    }
  }

  /** Linking a month's days leaves every other month's rows alone. */
  lemma LinkKeepsOthers(db: Database, m: MonthKey)
    ensures var days := Link(db.days, ApprovedKeys(db, m), m);
            && (forall k :: k in days <==> k in db.days)
            && (forall k :: k in days ==> SameContent(days[k], db.days[k]))
            && (forall x :: x != m ==> SameMonthRows(db.days, days, x))
  {
    assert forall k :: k in ApprovedKeys(db, m) ==> MonthOf(k) == m;
  }

  /** What a committed calculation writes. */
  lemma CalculateWrites(db: Database, m: MonthKey, seen: Period, normalMinutes: int)
    requires CommitCalculate(db, m, seen, normalMinutes).Committed?
    ensures m in db.periods && db.periods[m].version == seen.version && db.periods[m].status == ReadyForCalculation
    ensures var db', p, number := CommitCalculate(db, m, seen, normalMinutes).db, db.periods[m], seen.currentVersionNumber + 1;
            && db'.days == db.days && db'.snapshots == db.snapshots
            && db'.periods == db.periods[m := p.(status := Calculated, currentVersionNumber := number, version := p.version + 1)]
            && db'.versions == db.versions[m := Retire(VersionsOf(db, m)) + [PayrollVersion(number, true, normalMinutes)]]
  {
  }

  lemma CalculateKeepsPeriod(db: Database, r: Request, clock: Instant)
    requires DbOk(db, clock) && r.CalculateRequest? && RequestOk(db, r, clock)
    requires CommitCalculate(db, r.month, r.seen, r.normalMinutes).Committed?
    ensures var db' := CommitCalculate(db, r.month, r.seen, r.normalMinutes).db;
            && r.month in db.periods && r.month in db'.periods && PeriodOk(db', r.month)
            && VersionsEvolve(VersionsOf(db, r.month), VersionsOf(db', r.month))
  {
    hide DaysOk;
    hide Frozen;
    hide SameMonthRows;
    var db' := CommitCalculate(db, r.month, r.seen, r.normalMinutes).db;
    CalculateWrites(db, r.month, r.seen, r.normalMinutes);
    hide CommitCalculate;
    PeriodOfDb(db, r.month, clock);
    hide DbOk;
    SameDaysEvolve(db.days);
    FrozenFrame(db, db', r.month);
  }

  lemma CommitCalculateKeeps(db: Database, r: Request, clock: Instant)
    requires DbOk(db, clock) && r.CalculateRequest? && RequestOk(db, r, clock)
    ensures var db' := After(db, CommitCalculate(db, r.month, r.seen, r.normalMinutes)); DbOk(db', clock) && Later(db, db')
  {
    hide RequestOk;
    hide KeysUnique;
    hide OneOpenDay;
    hide DaysOk;
    hide PeriodsOk;
    hide Later;
    hide Evolves;
    hide PeriodOk;
    hide VersionsOf;
    hide VersionsEvolve;
    hide SameMonthRows;
    hide CommitCalculate;
    LaterIsReflexive(db);
    var o := CommitCalculate(db, r.month, r.seen, r.normalMinutes);
    if o.Committed? {
      var m := r.month;
      CalculateWrites(db, m, r.seen, r.normalMinutes);
      CalculateKeepsPeriod(db, r, clock);
      SameDaysEvolve(db.days);
      OnePeriodChanges(db, o.db, m);
      OneMonthLater(db, o.db, m);
    }
  }

  lemma CommitKeeps(db: Database, r: Request, clock: Instant)
    requires DbOk(db, clock) && RequestOk(db, r, clock) && WellFormed(r)
    ensures var db' := After(db, Commit(db, r, clock)); DbOk(db', clock) && Later(db, db')
  {
    hide DbOk;
    hide Later;
    hide CommitClockIn;
    hide CommitClockOut;
    hide CommitApprove;
    hide CommitRequestCorrection;
    hide CommitApproveCorrection;
    hide CommitRejectCorrection;
    hide CommitClose;
    hide CommitCalculate;
    match r
    case ClockInRequest(rel, key, date, at) => CommitClockInKeeps(db, rel, key, date, at, clock);
    case ClockOutRequest(_, _, _, _, _) => CommitClockOutKeeps(db, r, clock);
    case ApproveRequest(_, _, _) => CommitApproveKeeps(db, r, clock);
    case CorrectionRequest(_, _, _, _) => CommitRequestCorrectionKeeps(db, r, clock);
    case ApproveCorrectionRequest(_, _, _, _, _) => CommitApproveCorrectionKeeps(db, r, clock);
    case RejectCorrectionRequest(_, _, _, _) => CommitRejectCorrectionKeeps(db, r, clock);
    case CloseRequest(m, expected) => CommitCloseKeeps(db, m, expected, clock);
    case CalculateRequest(_, _, _) => CommitCalculateKeeps(db, r, clock);
  }

  // ---------------------------------------------------------------- the other steps

  lemma ReadDaySeen(db: Database, day: DayKey, clock: Instant)
    requires DbOk(db, clock) && day in db.days
    ensures Seen(db, ReadDay(db, day), clock)
    ensures EntriesOk(db.days[day].entries)
  {
  }

  /** What the phase before each transaction has checked. */
  lemma BeginSound(db: Database, pre: PreRead, clock: Instant)
    requires Seen(db, pre, clock)
    ensures forall key :: var b := BeginClockOut(pre, key, clock);
                          b.Started? ==> RequestOk(db, b.request, clock) && WellFormed(b.request)
    ensures forall expected :: var b := BeginApprove(pre, expected);
                               b.Started? ==> RequestOk(db, b.request, clock) && WellFormed(b.request)
    ensures forall e, i, o :: var b := BeginRequestCorrection(pre, e, i, o);
                              b.Started? ==> RequestOk(db, b.request, clock) && WellFormed(b.request)
    ensures forall e, c, ki, ko :: var b := BeginApproveCorrection(pre, e, c, ki, ko);
                                   b.Started? ==> RequestOk(db, b.request, clock) && WellFormed(b.request)
    ensures forall e, c :: var b := BeginRejectCorrection(pre, e, c);
                           b.Started? ==> RequestOk(db, b.request, clock) && WellFormed(b.request)
  {
    FindLive(pre.row.entries);
    hide CorrectionsOk;
    hide EntriesOk;
    hide Evolves;
  }

  lemma BeginGivesSoundRequest(db: Database, actor: Actor, call: Call, clock: Instant)
    requires DbOk(db, clock) && (call.ClockInCall? ==> ValidDate(call.localDate))
    ensures var b := Begin(db, actor, call, clock); b.Started? ==> RequestOk(db, b.request, clock) && WellFormed(b.request)
  {
    hide DaysOk;
    hide KeysUnique;
    hide OneOpenDay;
    hide PeriodOk;
    hide Seen;
    hide BeginClockOut;
    hide BeginApprove;
    hide BeginRequestCorrection;
    hide BeginApproveCorrection;
    hide BeginRejectCorrection;
    if (call.ClockOutCall? || call.ApproveCall? || call.RequestCorrectionCall? || call.ApproveCorrectionCall? ||
        call.RejectCorrectionCall?) && call.day in db.days {
      ReadDaySeen(db, call.day, clock);
      BeginSound(db, ReadDay(db, call.day), clock);
    }
  }

  lemma GetOrCreateKeeps(db: Database, m: MonthKey, clock: Instant)
    requires DbOk(db, clock)
    ensures DbOk(GetOrCreate(db, m), clock) && Later(db, GetOrCreate(db, m))
  {
    hide KeysUnique;
    hide OneOpenDay;
    hide DaysOk;
    hide Frozen;
    hide Later;
    LaterIsReflexive(db);
    var db' := GetOrCreate(db, m);
    if m !in db.periods {
      OnePeriodChanges(db, db', m);
      SameDaysEvolve(db.days);
      OneMonthLater(db, db', m);
    }
  }

  lemma MovePeriodKeeps(db: Database, m: MonthKey, target: PeriodStatus, bump: bool, clock: Instant)
    requires DbOk(db, clock) && m in db.periods
    requires HasArc(PERIOD_TRANSITIONS, db.periods[m].status, target) && !OwnArc(db.periods[m].status, target)
    ensures DbOk(MovePeriod(db, m, target, bump), clock) && Later(db, MovePeriod(db, m, target, bump))
  {
    hide KeysUnique;
    hide OneOpenDay;
    hide DaysOk;
    hide PeriodsOk;
    hide Frozen;
    hide Later;
    hide HasArc;
    CloseIsAOneWayDoor(db.periods[m].status, target);
    var db' := MovePeriod(db, m, target, bump);
    PeriodOfDb(db, m, clock);
    PeriodFrame(db, db', m);
    OnePeriodChanges(db, db', m);
    SameDaysEvolve(db.days);
    OneMonthLater(db, db', m);
  }

  lemma TickKeeps(db: Database, clock: Instant, clock': Instant)
    requires DbOk(db, clock) && clock <= clock'
    ensures DbOk(db, clock')
  {
    forall k | k in db.days
      ensures DayOk(db.days[k], clock')
    {
      LaterClockKeeps(db.days[k], clock, clock');
    }
  }

  /** Every step of every interleaving keeps the invariant and undoes nothing. */
  lemma StepKeeps(s: System, step: Step, s': System)
    requires Inv(s) && Next(s, step, s')
    ensures Inv(s') && Later(s.db, s'.db)
  {
    LaterIsReflexive(s.db);
    match step {
      case Tick(to) => TickKeeps(s.db, s.clock, to);
      case BeginStep(actor, call) => BeginGivesSoundRequest(s.db, actor, call, s.clock);
      case CommitStep(r) => CommitKeeps(s.db, r, s.clock);
      case DropStep(r) =>
      case OpenPeriodStep(m) => GetOrCreateKeeps(s.db, m, s.clock);
      case MovePeriodStep(m, target, bump) => MovePeriodKeeps(s.db, m, target, bump, s.clock);
    }
    forall r | r in s'.inFlight
      ensures RequestOk(s'.db, r, s'.clock)
    {
      if r in s.inFlight {
        RequestSurvives(s.db, s'.db, r, s.clock, s'.clock);
      }
    }
  }

  // ---------------------------------------------------------------- whole runs

  /** Every reachable state satisfies the invariant, and every later state is a later state of it. */
  lemma {:induction false} RunKeeps(run: seq<System>, steps: seq<Step>, i: nat, j: nat)
    requires IsRun(run, steps) && i <= j < |run|
    ensures Inv(run[i]) && Inv(run[j]) && Later(run[i].db, run[j].db)
    decreases j
  {
    if j == 0 {
      LaterIsReflexive(run[0].db);
    } else if i == j {
      RunKeeps(run, steps, j - 1, j - 1);
      StepKeeps(run[j - 1], steps[j - 1], run[j]);
      LaterIsReflexive(run[j].db);
    } else {
      RunKeeps(run, steps, i, j - 1);
      StepKeeps(run[j - 1], steps[j - 1], run[j]);
      LaterIsTransitive(run[i].db, run[j - 1].db, run[j].db);
    }
  }
}
