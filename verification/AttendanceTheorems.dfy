/** What the attendance protocol promises in every reachable state and along every run. */
module AttendanceTheorems {
  import opened Calendar
  import opened Common
  import opened StateMachine
  import opened PayrollPeriodMachine
  import opened AttendanceModel
  import opened AttendanceDay
  import opened AttendanceProtocol

  // ---------------------------------------------------------------- the closed month

  /**
   * Once a month is closed it is frozen: at every later point of every interleaving it is still closed, no day
   * was added, removed or changed, all its days are approved, and the stored snapshot is exactly what
   * rebuilding it from the live rows gives (same days, versions, minutes, times and totals).
   */
  lemma ClosedMonthStaysFrozen(run: seq<System>, steps: seq<Step>, i: nat, j: nat, m: MonthKey)
    requires IsRun(run, steps) && i <= j < |run|
    requires MonthClosed(run[i].db, m)
    ensures MonthClosed(run[j].db, m)
    ensures SameMonthRows(run[i].db.days, run[j].db.days, m)
    ensures m in run[i].db.snapshots && m in run[j].db.snapshots && run[j].db.snapshots[m] == run[i].db.snapshots[m]
    ensures run[j].db.snapshots[m] == BuildSnapshot(run[j].db, m)
    ensures forall k :: k in run[j].db.days && MonthOf(k) == m ==> run[j].db.days[k].status == DayApproved
  {
    RunKeeps(run, steps, i, j);
    PeriodOfDb(run[i].db, m, run[i].clock);
    hide BuildSnapshot;
    hide DaysOk;
    assert m in run[j].db.periods && PeriodEvolves(run[i].db.periods[m], run[j].db.periods[m]);
    PeriodOfDb(run[j].db, m, run[j].clock);
  }

  lemma SnapshotOfDb(db: Database, clock: Instant, m: MonthKey)
    requires DbOk(db, clock) && m in db.snapshots
    ensures m in db.periods && db.snapshots[m] == BuildSnapshot(db, m)
    ensures forall k :: k in db.days && MonthOf(k) == m ==> db.days[k].status == DayApproved
  {
    hide BuildSnapshot;
    hide DaysOk;
  }

  /** What the snapshot says about a day is what its row and its live pair say now, whatever corrections it went through. */
  lemma SnapshotReadsLiveTimes(db: Database, clock: Instant, m: MonthKey, i: nat)
    requires DbOk(db, clock) && m in db.snapshots && i < |db.snapshots[m].days|
    ensures var s := db.snapshots[m].days[i];
            && s.day in db.days && MonthOf(s.day) == m
            && var d := db.days[s.day];
               && EntriesOk(d.entries) && Complete(d)
               && s.version == d.version && s.approvedAt == d.approvedAt
               && s.approvedIn == Some(InTime(d)) && s.approvedOut == Some(OutTime(d))
               && s.approvedMinutes == MinutesBetween(InTime(d), OutTime(d))
  {
    hide DbOk;
    hide FindActive;
    assert m in db.periods && db.snapshots[m] == BuildSnapshot(db, m) by {
      SnapshotOfDb(db, clock, m);
    }
    var keys := ApprovedKeys(db, m);
    assert keys[i] in keys;
    DayOfDb(db, keys[i], clock);
    FindLive(db.days[keys[i]].entries);
  }

  /** In date order, none after day `n`. */
  predicate Ascending(keys: seq<DayKey>, n: nat) {
    && (forall i :: 0 <= i < |keys| ==> keys[i].date.day <= n)
    && (forall i, j :: 0 <= i < j < |keys| ==> keys[i].date.day < keys[j].date.day)
  }

  lemma {:induction false} KeysAscend(days: map<DayKey, WorkDay>, m: MonthKey, n: nat)
    ensures Ascending(DayKeysUpTo(days, m, n), n)
  {
    if n > 0 {
      KeysAscend(days, m, n - 1);
    }
  }

  /** The month query is the table's rows of the date range, each once, in date order. */
  lemma MonthQueryIsTheRange(db: Database, clock: Instant, m: MonthKey)
    requires DbOk(db, clock)
    ensures var keys := MonthKeys(db, m);
            var (first, last) := PeriodDates(m.year, m.month);
            && (forall k :: k in keys <==> k in db.days && k.rel == m.rel && AtMost(first, k.date) && AtMost(k.date, last))
            && Ascending(keys, DaysInMonth(m.year, m.month))
  {
    var (first, last) := PeriodDates(m.year, m.month);
    KeysAscend(db.days, m, DaysInMonth(m.year, m.month));
    forall k | k in db.days && k.rel == m.rel
      ensures k in MonthKeys(db, m) <==> AtMost(first, k.date) && AtMost(k.date, last)
    {
      DayOfDb(db, k, clock);
      RangeIsTheMonth(k.date, m.year, m.month);
    }
  }

  // ---------------------------------------------------------------- single days

  /** The facts about one day that hold in every reachable state. */
  lemma ReachableDay(run: seq<System>, steps: seq<Step>, i: nat, k: DayKey)
    requires IsRun(run, steps) && i < |run| && k in run[i].db.days
    ensures var d := run[i].db.days[k];
            && EntriesOk(d.entries)
            && ActiveCount(d.entries, ClockIn) == 1
            && ActiveCount(d.entries, ClockOut) == (if Complete(d) then 1 else 0)
            && (d.status in {DayPendingApproval, DayApproved} ==> Complete(d))
            && (Complete(d) ==> d.realMinutes == MinutesBetween(InTime(d), OutTime(d)))
            && (d.status == DayApproved ==> d.approvedMinutes == Some(d.realMinutes))
            && PendingCount(d.corrections) == (if d.status == DayDisputed then 1 else 0)
            && (TiesAgree(d.corrections) ==>
                  forall newest :: NewestApproved(d.corrections, newest) ==> ViewAgrees(d, newest))
  {
    RunKeeps(run, steps, i, i);
    DayOfDb(run[i].db, k, run[i].clock);
    var d := run[i].db.days[k];
    OneLivePair(d.entries);
    DisputedIffOnePending(d, run[i].clock);
    ViewAgreesWithEntries(d, run[i].clock);
    if Complete(d) {
      DurationIsWorked(d, run[i].clock);
    }
  }

  /** At most one day of a relationship is open, thanks to the partial index on open days. */
  lemma ReachableOneOpenDay(run: seq<System>, steps: seq<Step>, i: nat, k1: DayKey, k2: DayKey)
    requires IsRun(run, steps) && i < |run|
    requires k1 in run[i].db.days && k2 in run[i].db.days && k1.rel == k2.rel
    requires run[i].db.days[k1].status == DayOpen && run[i].db.days[k2].status == DayOpen
    ensures k1 == k2
  {
    RunKeeps(run, steps, i, i);
  }

  /**
   * The index on open days is all that stands there. When the other checks of a rejection pass, writing its row leaves
   * at most one open day exactly when it does not reopen the day beside an open one; that is when the index refuses it.
   */
  lemma OnlyTheIndexKeepsOneOpenDay(db: Database, pre: PreRead, c: nat, target: DayStatus)
    requires OneOpenDay(db.days) && pre.day in db.days && db.days[pre.day].status == DayDisputed
    requires !pre.periodClosed && !MonthClosed(db, MonthOf(pre.day))
    ensures OneOpenDay(db.days[pre.day := RejectedRow(db.days[pre.day], c, target)]) <==>
            !(target == DayOpen && OpenDayExists(db, pre.day.rel))
    ensures CommitRejectCorrection(db, pre, db.days[pre.day].version, c, target) == Thrown(OpenDayIndexViolated) <==>
            target == DayOpen && OpenDayExists(db, pre.day.rel)
  {
    hide Resolve;
    var days := db.days[pre.day := RejectedRow(db.days[pre.day], c, target)];
    if target == DayOpen && OpenDayExists(db, pre.day.rel) {
      var open :| open in db.days && open.rel == pre.day.rel && db.days[open].status == DayOpen;
      assert days[pre.day].status == DayOpen && days[open].status == DayOpen && open != pre.day;
    }
  }

  /** A version check against a pre-read succeeds only while nothing about the day has changed since. */
  lemma VersionCheckProvesFreshness(run: seq<System>, steps: seq<Step>, i: nat, j: nat, k: DayKey)
    requires IsRun(run, steps) && i <= j < |run| && k in run[i].db.days
    ensures k in run[j].db.days
    ensures run[j].db.days[k].version == run[i].db.days[k].version ==>
              run[j].db.days[k].status == run[i].db.days[k].status &&
              run[j].db.days[k].entries == run[i].db.days[k].entries &&
              run[j].db.days[k].corrections == run[i].db.days[k].corrections
  {
    RunKeeps(run, steps, i, j);
    assert Evolves(run[i].db.days[k], run[j].db.days[k]);
  }

  // ---------------------------------------------------------------- exactly-once clocking

  /** Entries are never removed or re-dated, CORRECTED is absorbing, and a key belongs to one entry for ever. */
  lemma HistoryOnlyGrows(run: seq<System>, steps: seq<Step>, i: nat, j: nat, k: DayKey, e: nat)
    requires IsRun(run, steps) && i <= j < |run| && k in run[i].db.days && e < |run[i].db.days[k].entries|
    ensures k in run[j].db.days && e < |run[j].db.days[k].entries|
    ensures EntryEvolves(run[i].db.days[k].entries[e], run[j].db.days[k].entries[e])
    ensures forall k', e' | k' in run[j].db.days && k'.rel == k.rel && 0 <= e' < |run[j].db.days[k'].entries| &&
                            run[j].db.days[k'].entries[e'].key == run[i].db.days[k].entries[e].key ::
              k' == k && e' == e
  {
    RunKeeps(run, steps, i, j);
    var days := run[j].db.days;
    assert Evolves(run[i].db.days[k], days[k]);
    assert EntryEvolves(run[i].db.days[k].entries[e], days[k].entries[e]);
    forall k', e' | k' in days && k'.rel == k.rel && 0 <= e' < |days[k'].entries| &&
                    days[k'].entries[e'].key == run[i].db.days[k].entries[e].key
      ensures k' == k && e' == e
    {
      assert SeparateKeys(days, k', k);
    }
  }

  lemma KeyStaysUsed(run: seq<System>, steps: seq<Step>, i: nat, j: nat, rel: RelationshipId, key: Key)
    requires IsRun(run, steps) && i <= j < |run| && KeyUsed(run[i].db, rel, key)
    ensures KeyUsed(run[j].db, rel, key)
  {
    var k :| k in run[i].db.days && k.rel == rel && HasKey(run[i].db.days[k].entries, key);
    var e :| 0 <= e < |run[i].db.days[k].entries| && run[i].db.days[k].entries[e].key == key;
    HistoryOnlyGrows(run, steps, i, j, k, e);
    assert HasKey(run[j].db.days[k].entries, key);
  }

  /**
   * Replaying a clock-in that succeeded: a new call with its key starts no transaction, and a duplicate that was
   * already in flight commits nothing, in any later state.
   */
  lemma ClockInReplaysChangeNothing(run: seq<System>, steps: seq<Step>, i: nat, j: nat, r: Request, actor: Actor,
                                    active: bool, again: Date, at: Instant)
    requires IsRun(run, steps) && i < |steps| && i + 1 <= j < |run|
    requires r.ClockInRequest? && steps[i] == CommitStep(r) && Commit(run[i].db, r, run[i].clock).Committed?
    ensures !Begin(run[j].db, actor, ClockInCall(r.rel, active, r.key, again), at).Started?
    ensures CommitClockIn(run[j].db, r.rel, r.key, again, at) == Returned
  {
    var day := DayKey(r.rel, r.date);
    assert Next(run[i], steps[i], run[i + 1]);
    assert HasKey(run[i + 1].db.days[day].entries, r.key) by {
      assert run[i + 1].db.days[day].entries[0].key == r.key;
    }
    KeyStaysUsed(run, steps, i + 1, j, r.rel, r.key);
  }

  /** The same for a clock-out on its day. */
  lemma ClockOutReplaysChangeNothing(run: seq<System>, steps: seq<Step>, i: nat, j: nat, r: Request, actor: Actor,
                                     active: bool, stale: Request, now: Instant)
    requires IsRun(run, steps) && i < |steps| && i + 1 <= j < |run|
    requires r.ClockOutRequest? && steps[i] == CommitStep(r) && Commit(run[i].db, r, run[i].clock).Committed?
    requires stale.ClockOutRequest? && stale.pre.day == r.pre.day && stale.key == r.key
    ensures !Begin(run[j].db, actor, ClockOutCall(r.pre.day, active, r.key), now).Started?
    ensures !Commit(run[j].db, stale, now).Committed?
  {
    var day := r.pre.day;
    assert Next(run[i], steps[i], run[i + 1]);
    var n := |run[i].db.days[day].entries|;
    assert run[i + 1].db.days[day].entries[n] == TimeEntry(ClockOut, EntryRecorded, r.at, r.key);
    HistoryOnlyGrows(run, steps, i + 1, j, day, n);
    assert HasKey(run[j].db.days[day].entries, r.key);
    assert KeyUsed(run[j].db, day.rel, r.key);
  }

  // ---------------------------------------------------------------- period status and payroll versions

  /** The guard data of the period table, computed from the live rows. */
  ghost function LivePayload(db: Database, m: MonthKey): PeriodPayload {
    PeriodPayload(forall k :: k in db.days && MonthOf(k) == m ==> db.days[k].status == DayApproved,
                  false, false, VersionsOf(db, m) != [], false, false, false, "", 0)
  }

  /** The status that a committed close writes is an arc of the period table whose role and guard hold. */
  lemma CloseWritesAPermittedArc(db: Database, clock: Instant, m: MonthKey, expected: int)
    requires DbOk(db, clock) && CommitClose(db, m, expected, clock).Committed?
    ensures var db' := CommitClose(db, m, expected, clock).db;
            Permits(PERIOD_TRANSITIONS, db.periods[m].status, db'.periods[m].status,
                    Context(FamilyEmployer, LivePayload(db, m)))
  {
    hide *;
    CloseFoundAllApproved(db, m, expected, clock);
    CloseWrites(db, m, expected, clock);
    LiveGuard(db, m);
    CloseArc(db.periods[m].status, Context(FamilyEmployer, LivePayload(db, m)));
  }

  lemma LiveGuard(db: Database, m: MonthKey)
    ensures LivePayload(db, m).allAttendanceApproved <==>
            forall k :: k in db.days && MonthOf(k) == m ==> db.days[k].status == DayApproved
  {
  }

  /** The same for a committed calculation, whose guard asks for the calculation it has just stored. */
  lemma CalculateWritesAPermittedArc(db: Database, clock: Instant, r: Request)
    requires r.CalculateRequest? && Commit(db, r, clock).Committed?
    ensures var db' := Commit(db, r, clock).db;
            Permits(PERIOD_TRANSITIONS, db.periods[r.month].status, db'.periods[r.month].status,
                    Context(FamilyEmployer, LivePayload(db', r.month)))
  {
    CalculateArc(Context(FamilyEmployer, LivePayload(Commit(db, r, clock).db, r.month)));
  }

  /**
   * Payroll versions under stale concurrent calculations: numbered exactly 1..n, exactly one current once there is
   * one, it is the last, and an earlier version keeps its number and content for ever.
   */
  lemma VersionsAreAHistory(run: seq<System>, steps: seq<Step>, i: nat, j: nat, m: MonthKey)
    requires IsRun(run, steps) && i <= j < |run| && m in run[i].db.periods
    ensures m in run[j].db.periods
    ensures var vs, ws := VersionsOf(run[i].db, m), VersionsOf(run[j].db, m);
            && |vs| == run[i].db.periods[m].currentVersionNumber
            && (forall n :: 0 <= n < |vs| ==> vs[n].number == n + 1 && (vs[n].isCurrent <==> n == |vs| - 1))
            && |vs| <= |ws|
            && (forall n :: 0 <= n < |vs| ==> ws[n].number == vs[n].number && ws[n].normalMinutes == vs[n].normalMinutes)
  {
    RunKeeps(run, steps, i, j);
    PeriodOfDb(run[i].db, m, run[i].clock);
    assert VersionsEvolve(VersionsOf(run[i].db, m), VersionsOf(run[j].db, m));
  }

  // ---------------------------------------------------------------- the monthly summary

  datatype Summary = Summary(
    approvedDays: int,
    approvedMinutes: int,
    openDays: int,
    pendingApprovalDays: int,
    disputedDays: int,
    totalDays: int)

  /** Days in dispute: by status or by a correction still pending. */
  function DisputedCount(db: Database, keys: seq<DayKey>): nat
    requires forall k :: k in keys ==> k in db.days
  {
    if keys == [] then 0
    else
      var d := db.days[keys[0]];
      (if d.status == DayDisputed || HasPending(d.corrections) then 1 else 0) + DisputedCount(db, keys[1..])
  }

  /** computeAttendanceSummary: the month recomputed from its live rows. */
  function ComputeSummary(db: Database, m: MonthKey): Summary {
    var keys := MonthKeys(db, m);
    var approved := WithStatus(db, keys, DayApproved);
    Summary(|approved|, ApprovedMinutesOf(db, approved), |WithStatus(db, keys, DayOpen)|,
            |WithStatus(db, keys, DayPendingApproval)|, DisputedCount(db, keys), |keys|)
  }

  function CachedSummary(s: Snapshot): Summary {
    Summary(s.approvedDays, s.approvedMinutes, 0, 0, 0, s.approvedDays)
  }

  /** What the period views show: the snapshot's numbers when there is one, the live ones otherwise. */
  function ShownSummary(db: Database, m: MonthKey): Summary
    requires m in db.periods
  {
    if m in db.snapshots then CachedSummary(db.snapshots[m]) else ComputeSummary(db, m)
  }

  lemma {:induction false} StatusesPartition(db: Database, clock: Instant, keys: seq<DayKey>)
    requires DbOk(db, clock) && forall k :: k in keys ==> k in db.days
    ensures |WithStatus(db, keys, DayApproved)| + |WithStatus(db, keys, DayOpen)| +
            |WithStatus(db, keys, DayPendingApproval)| + DisputedCount(db, keys) == |keys|
  {
    if keys != [] {
      DayOfDb(db, keys[0], clock);
      DisputedIffOnePending(db.days[keys[0]], clock);
      StatusesPartition(db, clock, keys[1..]);
    }
  }

  /** No day of the month is counted twice or left out. */
  lemma SummaryPartitions(db: Database, clock: Instant, m: MonthKey)
    requires DbOk(db, clock)
    ensures var s := ComputeSummary(db, m);
            s.approvedDays + s.openDays + s.pendingApprovalDays + s.disputedDays == s.totalDays
  {
    StatusesPartition(db, clock, MonthKeys(db, m));
  }

  ghost function KeysWith(db: Database, keys: seq<DayKey>, s: DayStatus): set<DayKey>
    requires forall k :: k in keys ==> k in db.days
  {
    set k | k in keys && db.days[k].status == s
  }

  lemma HeadOfKeys(db: Database, keys: seq<DayKey>, s: DayStatus, n: nat)
    requires keys != [] && Ascending(keys, n) && forall k :: k in keys ==> k in db.days
    ensures Ascending(keys[1..], n) && keys[0] !in keys[1..]
    ensures KeysWith(db, keys, s) == KeysWith(db, keys[1..], s) + (if db.days[keys[0]].status == s then {keys[0]} else {})
  {
    assert keys == [keys[0]] + keys[1..];
  }

  /** A list in date order holds each of its days once. */
  lemma {:induction false} KeysAreCounted(db: Database, keys: seq<DayKey>, s: DayStatus, n: nat)
    requires Ascending(keys, n) && forall k :: k in keys ==> k in db.days
    ensures |WithStatus(db, keys, s)| == |KeysWith(db, keys, s)|
  {
    hide Ascending;
    if keys == [] {
      assert KeysWith(db, keys, s) == {};
    } else {
      HeadOfKeys(db, keys, s, n);
      KeysAreCounted(db, keys[1..], s, n);
    }
  }

  /** The days of a month in a status. */
  ghost function DaysWith(db: Database, m: MonthKey, statuses: set<DayStatus>): set<DayKey> {
    set k | k in db.days && MonthOf(k) == m && db.days[k].status in statuses
  }

  lemma MonthKeysAre(db: Database, clock: Instant, m: MonthKey, s: DayStatus)
    requires DbOk(db, clock)
    ensures DaysInMonth(m.year, m.month) > 0 && Ascending(MonthKeys(db, m), DaysInMonth(m.year, m.month))
    ensures KeysWith(db, MonthKeys(db, m), s) == DaysWith(db, m, {s})
  {
    KeysAscend(db.days, m, DaysInMonth(m.year, m.month));
    forall k | k in db.days
      ensures k in MonthKeys(db, m) <==> MonthOf(k) == m
    {
      DayOfDb(db, k, clock);
    }
    hide DbOk;
    hide MonthKeys;
  }

  lemma StatusCount(db: Database, clock: Instant, m: MonthKey, s: DayStatus)
    requires DbOk(db, clock)
    ensures |WithStatus(db, MonthKeys(db, m), s)| == |DaysWith(db, m, {s})|
  {
    hide *;
    MonthKeysAre(db, clock, m, s);
    KeysAreCounted(db, MonthKeys(db, m), s, DaysInMonth(m.year, m.month));
  }

  lemma {:induction false} DisputedStatus(db: Database, clock: Instant, keys: seq<DayKey>)
    requires DbOk(db, clock) && forall k :: k in keys ==> k in db.days
    ensures DisputedCount(db, keys) == |WithStatus(db, keys, DayDisputed)|
  {
    if keys != [] {
      DayOfDb(db, keys[0], clock);
      DisputedIffOnePending(db.days[keys[0]], clock);
      DisputedStatus(db, clock, keys[1..]);
    }
  }

  /** Each number of the summary counts the days of the month in that status. */
  lemma SummaryCounts(db: Database, clock: Instant, m: MonthKey)
    requires DbOk(db, clock)
    ensures var s := ComputeSummary(db, m);
            && s.approvedDays == |DaysWith(db, m, {DayApproved})| && s.openDays == |DaysWith(db, m, {DayOpen})|
            && s.pendingApprovalDays == |DaysWith(db, m, {DayPendingApproval})|
            && s.disputedDays == |DaysWith(db, m, {DayDisputed})|
            && s.totalDays == s.approvedDays + s.openDays + s.pendingApprovalDays + s.disputedDays
  {
    hide DbOk;
    hide DaysWith;
    hide WithStatus;
    hide MonthKeys;
    StatusCount(db, clock, m, DayApproved);
    StatusCount(db, clock, m, DayOpen);
    StatusCount(db, clock, m, DayPendingApproval);
    StatusCount(db, clock, m, DayDisputed);
    DisputedStatus(db, clock, MonthKeys(db, m));
    SummaryPartitions(db, clock, m);
  }

  lemma {:induction false} AllOfOneStatus(db: Database, keys: seq<DayKey>, s: DayStatus, other: DayStatus)
    requires forall k :: k in keys ==> k in db.days && db.days[k].status == s
    requires s != other
    ensures WithStatus(db, keys, s) == keys && WithStatus(db, keys, other) == []
  {
    if keys != [] {
      AllOfOneStatus(db, keys[1..], s, other);
    }
  }

  lemma FrozenKeys(db: Database, m: MonthKey)
    requires Frozen(db, m)
    ensures forall k :: k in MonthKeys(db, m) ==> k in db.days && db.days[k].status == DayApproved
    ensures m in db.snapshots && db.snapshots[m].approvedDays == |ApprovedKeys(db, m)|
    ensures CachedSummary(db.snapshots[m]) ==
            Summary(|ApprovedKeys(db, m)|, ApprovedMinutesOf(db, ApprovedKeys(db, m)), 0, 0, 0, |ApprovedKeys(db, m)|)
    ensures ApprovedKeys(db, m) == WithStatus(db, MonthKeys(db, m), DayApproved)
  {
    hide MonthKeys;
    hide WithStatus;
    hide ApprovedMinutesOf;
  }

  lemma SummaryIs(db: Database, m: MonthKey)
    ensures var keys := MonthKeys(db, m);
            var approved := WithStatus(db, keys, DayApproved);
            ComputeSummary(db, m) ==
            Summary(|approved|, ApprovedMinutesOf(db, approved), |WithStatus(db, keys, DayOpen)|,
                    |WithStatus(db, keys, DayPendingApproval)|, DisputedCount(db, keys), |keys|)
  {
    hide MonthKeys;
    hide WithStatus;
    hide DisputedCount;
    hide ApprovedMinutesOf;
  }

  lemma FrozenSummary(db: Database, clock: Instant, m: MonthKey)
    requires DbOk(db, clock) && Frozen(db, m)
    ensures CachedSummary(db.snapshots[m]) == ComputeSummary(db, m)
  {
    hide *;
    var keys := MonthKeys(db, m);
    SummaryPartitions(db, clock, m);
    FrozenKeys(db, m);
    AllOfOneStatus(db, keys, DayApproved, DayOpen);
    AllOfOneStatus(db, keys, DayApproved, DayPendingApproval);
    SummaryIs(db, m);
  }

  /** The snapshot is a correct cache: in every reachable state the shown summary is the recomputed one. */
  lemma ShownSummaryIsLive(run: seq<System>, steps: seq<Step>, i: nat, m: MonthKey)
    requires IsRun(run, steps) && i < |run| && m in run[i].db.periods
    ensures ShownSummary(run[i].db, m) == ComputeSummary(run[i].db, m)
  {
    var db := run[i].db;
    RunKeeps(run, steps, i, i);
    hide IsRun;
    PeriodOfDb(db, m, run[i].clock);
    hide DbOk;
    if m in db.snapshots {
      FrozenSummary(db, run[i].clock, m);
    }
  }

  // ---------------------------------------------------------------- what payroll is fed

  /** Total duration of the live pairs of some days. */
  function WorkedMinutes(db: Database, keys: seq<DayKey>): int
    requires forall k :: k in keys ==> k in db.days && EntriesOk(db.days[k].entries) && Complete(db.days[k])
  {
    if keys == [] then 0
    else
      var d := db.days[keys[0]];
      MinutesBetween(InTime(d), OutTime(d)) + WorkedMinutes(db, keys[1..])
  }

  lemma {:induction false} ApprovedIsWorked(db: Database, clock: Instant, keys: seq<DayKey>)
    requires DbOk(db, clock) && forall k :: k in keys ==> k in db.days && db.days[k].status == DayApproved
    ensures forall k :: k in keys ==> EntriesOk(db.days[k].entries) && Complete(db.days[k])
    ensures ApprovedMinutesOf(db, keys) == WorkedMinutes(db, keys)
  {
    forall k | k in keys
      ensures EntriesOk(db.days[k].entries) && Complete(db.days[k])
    {
      DayOfDb(db, k, clock);
    }
    if keys != [] {
      DayOfDb(db, keys[0], clock);
      DurationIsWorked(db.days[keys[0]], clock);
      ApprovedIsWorked(db, clock, keys[1..]);
    }
  }

  /** The total of a stored snapshot is the worked time of the month's live days. */
  lemma SnapshotIsWorked(db: Database, clock: Instant, m: MonthKey)
    requires DbOk(db, clock) && m in db.snapshots
    ensures forall k :: k in MonthKeys(db, m) ==> EntriesOk(db.days[k].entries) && Complete(db.days[k])
    ensures db.snapshots[m].approvedMinutes == WorkedMinutes(db, MonthKeys(db, m))
  {
    SnapshotOfDb(db, clock, m);
    hide DbOk;
    AllOfOneStatus(db, MonthKeys(db, m), DayApproved, DayOpen);
    ApprovedIsWorked(db, clock, MonthKeys(db, m));
  }

  lemma CalculationsCarryTheSnapshot(s: System, m: MonthKey)
    requires Inv(s) && m in s.db.snapshots
    ensures forall r :: r in s.inFlight && r.CalculateRequest? && r.month == m ==>
                          r.normalMinutes == s.db.snapshots[m].approvedMinutes
  {
    hide DbOk;
    hide Seen;
    forall r | r in s.inFlight && r.CalculateRequest? && r.month == m
      ensures r.normalMinutes == s.db.snapshots[m].approvedMinutes
    {
      assert RequestOk(s.db, r, s.clock);
    }
  }

  /**
   * The minutes of every payroll version of a month, and those a calculation in flight will feed the engine, are the
   * sum of the live clock-in/clock-out durations of that month's days.
   */
  lemma EngineIsFedWorkedMinutes(run: seq<System>, steps: seq<Step>, i: nat, m: MonthKey)
    requires IsRun(run, steps) && i < |run| && m in run[i].db.snapshots
    ensures var db := run[i].db;
            var keys := MonthKeys(db, m);
            && (forall k :: k in keys ==> EntriesOk(db.days[k].entries) && Complete(db.days[k]))
            && (forall n :: 0 <= n < |VersionsOf(db, m)| ==>
                              VersionsOf(db, m)[n].normalMinutes == WorkedMinutes(db, keys))
            && (forall r :: r in run[i].inFlight && r.CalculateRequest? && r.month == m ==>
                              r.normalMinutes == WorkedMinutes(db, keys))
  {
    var db := run[i].db;
    RunKeeps(run, steps, i, i);
    CalculationsCarryTheSnapshot(run[i], m);
    hide DbOk;
    hide RequestOk;
    hide MonthKeys;
    SnapshotIsWorked(db, run[i].clock, m);
    SnapshotOfDb(db, run[i].clock, m);
    PeriodOfDb(db, m, run[i].clock);
  }
}
