# Household employment: a verified model

A Dafny model of the parts of the household-employment platform where correctness depends on interleavings, on
arithmetic that rounds, or on data that must never change afterwards, with proofs of what those parts promise.
`dafny verify dfyconfig.toml` checks the whole project.

## What is modelled

**Attendance and the monthly close** (`Attendance*.dfy`). Seven operations (clock in, clock out, approve, request,
approve and reject a correction, close the month) and the storing of a calculation run concurrently. Each one takes a
pre-read outside any transaction, keeps it as a possibly stale copy, and commits through a compare-and-set.
`AttendanceModel` says what each transaction does to the tables, `AttendanceStore` carries the transactions out statement
by statement over mutable tables and is proved to do just that, `AttendanceProtocol` interleaves any number of requests,
crashes and clock ticks and proves one inductive invariant, `AttendanceTheorems` states what it gives (a closed month
never changes again, exactly-once clocking, payroll versions that form a history). `AttendanceCalls` says who may start each
call and when, when its transaction goes through and every field it writes, and lifts that to runs; `AttendanceRuns` gives
the runs on which the services fall short.

**Payroll** (`Payroll*.dfy`, `Money.dfy`, `Decimals.dfy`). Every money operation is the exact result rounded to 28
significant digits, halves away from zero. `PayrollEngine.CalculatePayroll` is the accumulating procedure with its loops,
proved equal to a function of its input. `PayrollNorm` states what is owed, line by line in exact arithmetic and apart from
any procedure, and proves that the outcome is just that; `PayrollNotices` does so for errors and warnings, and
`PayrollConcepts` for one concept more or less. `PayrollConservation` proves where the totals come from,
`PayrollTwoRuns` what cannot disturb the outcome, `PayrollPrecision` that more time is never paid less and how far an amount
can be from the exact one, and `PayrollLargeAmounts` the exact bound at which the order of events starts to show.

**Outbox** (`Outbox*.dfy`). Workers with leases, retries, dead letters and redaction: the writes of one worker as methods
on the shared table, any number of workers over time as a state machine, in `OutboxWaits` when a message can be claimed, in
milliseconds and over whole runs, and in `OutboxRuns` what happens outside its assumptions.

**Terms of a relationship** (`Relationship*.dfy`, `Terms*.dfy`). Saving, submitting, accepting and rejecting terms, with
the schedule service interfering without a compare-and-set (`TermsProtocol`), who may start which call, what each commit
writes and that it is what the family saved last that was accepted (`TermsHistory`), which schedule was accepted and what an
edit of the schedule can undo (`TermsRuns`), and `CanonicalJson.dfy`, the text whose hash is the evidence, with a reader of
JSON that takes it for the value (`JsonReader`).

**Identity** (`Identity*.dfy`). One-time codes with a sliding window, and refresh-token families. `IdentityHistory` says by
the calls of a run alone which request, secret and token is answered how.

**State machines, ranges, parameters** (`StateMachine.dfy`, `*Machine.dfy`, `DateRanges.dfy`, `PayrollParameters.dfy`). The
generic table with roles and guards, and checks between neighbours that decide a property of the whole list.

Code that changes things step by step is a class or a method with loops, proved against a function; the lemmas are about
the functions. The modules `Common`, `Calendar` and `Sorting` hold what several of them need.

## Assumptions

- A transaction is atomic. The per-month advisory lock and the compare-and-sets are what makes it so in the source.
- Unique keys and the partial unique indexes of the migration `20260809180000_e3_attendance_hardening` are facts of the
  database: one work day per relationship and date, one entry per relationship and idempotency key, one live clock-in and
  clock-out per day, one open day per relationship.
- One clock that does not go back, shared by all instances.
- In the outbox protocol a worker writes back before its lease expires, because the writes match on the id alone, and a
  write that reports an error has not been applied. `OutboxRuns.LateWriteBackReopens` and `LostAnswerReopens` say exactly
  when a message stays as it should be without one or the other.
- In the identity service each call is atomic, because its reads precede its transaction; new tokens and families have
  not been used before; a hash is identified with the secret it was made from.
- A decimal is identified with its value, and the decimal library with correct rounding of every operation at 28
  significant digits; its exponent limits (9e15) are out of reach.

## Where the code does less than it says

- The comment on `acceptConditions` calls it the only way to ACTIVE; the table also has SUSPENDED to ACTIVE
  (`RelationshipMachine.OnlyTheWorkerActivates` states both).
- A schedule edit writes the relationship status without a compare-and-set and without a new version. It is a permitted
  move exactly under the condition of `TermsProtocol.PutWritesAnArcExactly`; overlapping an acceptance it takes an active
  relationship back (`TermsRuns.PutTakesActiveBack`).
- The evidence of an acceptance does not always name the current schedule: it does exactly when no schedule edit has
  committed since the accepted row was read (`TermsRuns.AcceptedScheduleExactly`, `AcceptedScheduleIsCurrent`). An edit that
  read the relationship before it was submitted breaks it by committing just before the acceptance
  (`AcceptedScheduleCanBeStale`) or after it (`AcceptedScheduleCanBeReplaced`); `SubmittedDuringAnEdit` is the run to there.
- The attendance view orders corrections by a millisecond stamp. It agrees with the entries exactly when corrections tied
  for newest propose the same times (`AttendanceDay.ViewAgreesWithEntries`); `AttendanceRuns.TiedStampsMislead` is a run to
  a day on which they do not.
- That at most one day is open is not ensured by the rejection of a correction but by the index alone: without it the
  write keeps one open day exactly when it does not reopen a day beside an open one
  (`AttendanceTheorems.OnlyTheIndexKeepsOneOpenDay`), which a run can bring about (`AttendanceRuns.IndexRefusesARejection`).
- Deductions and net do not depend on the order of events for all inputs whose debit lines add up to at most a bound,
  exactly when the bound is less than 10^(28-c) and two units of c decimals (`PayrollLargeAmounts.OrderFreeExactly`, from
  `PayrollTwoRuns.DeductionsAreOrderFree` and `PayrollLargeAmounts.OrderShowsBeyond28Digits`).
- The outbox writes match on the id alone, so a late failure reopens a delivered message without its code
  (`OutboxRuns.LateWriteBackReopens`, with the run of `LateWriteBackHappens`).
- Period status CLOSED is declared terminal and has an arc out of it; the model keeps the arc.

## Model

| member | source | states |
|---|---|---|
| `AttendanceTheorems.ClosedMonthStaysFrozen` | apps/api/src/modules/payroll-periods/payroll-periods.service.ts:373-530 | Along every interleaving, from the moment a month is closed: it stays closed, no day of it is added, removed or changed, every day is approved, and the stored snapshot is what rebuilding it from the live rows gives |
| `AttendanceTheorems.SnapshotReadsLiveTimes` | apps/api/src/modules/payroll-periods/payroll-periods.service.ts:456-474 | Each snapshot day carries the version, approval, in and out times and minutes of the one live pair of entries of that day |
| `AttendanceTheorems.MonthQueryIsTheRange` | apps/api/src/modules/payroll-periods/payroll-periods.service.ts:50-61 | The month query by first and last date is exactly the relationship's days of that month, each once, in date order |
| `AttendanceTheorems.ReachableDay` | apps/api/src/modules/time-tracking/time-tracking.service.ts:68-88 | In every reachable state a day has one live clock-in and at most one clock-out (exactly one when pending or approved), its minutes are the floor of their distance, it is disputed iff it has one pending correction, and the view shows the live times whenever corrections tied for newest agree |
| `AttendanceTheorems.ReachableOneOpenDay` | packages/database/prisma/migrations/20260809180000_e3_attendance_hardening/migration.sql:11-14 | At most one open day per relationship in every reachable state, given the partial index |
| `AttendanceTheorems.OnlyTheIndexKeepsOneOpenDay` | apps/api/src/modules/attendance-corrections/attendance-corrections.service.ts:522-566 | When the other checks of a rejection pass, writing its row leaves at most one open day iff it does not reopen the day beside an open one, and the index refuses exactly the writes that would |
| `AttendanceRuns.IndexRefusesARejection` | apps/api/src/modules/attendance-corrections/attendance-corrections.service.ts:522-566 | A run that gets there: for any two dates, clock in and dispute the first, clock in the second, reject the dispute; only the index refuses, and the row would have been a second open day |
| `AttendanceTheorems.VersionCheckProvesFreshness` | apps/api/src/modules/attendance-corrections/attendance-corrections.service.ts:169-184 | If a day still has the version that was read, its status, entries and corrections are still what was read, so a version compare-and-set proves the pre-read current |
| `AttendanceTheorems.HistoryOnlyGrows` | apps/api/src/modules/attendance-corrections/attendance-corrections.service.ts:378-393 | Entries are never removed, never re-dated, CORRECTED is absorbing, and an idempotency key belongs to one entry of the relationship for ever |
| `AttendanceTheorems.ClockInReplaysChangeNothing` | apps/api/src/modules/time-tracking/time-tracking.service.ts:188-237 | After a clock-in committed, neither a new call nor a duplicate in flight with its key changes anything in any later state |
| `AttendanceTheorems.ClockOutReplaysChangeNothing` | apps/api/src/modules/time-tracking/time-tracking.service.ts:474-576 | The same for a clock-out on its day |
| `AttendanceTheorems.CloseWritesAPermittedArc` | apps/api/src/modules/payroll-periods/payroll-periods.service.ts:491-511 | The status written by the close is an arc of the period table whose role and guard hold on the live rows |
| `AttendanceTheorems.CalculateWritesAPermittedArc` | apps/api/src/modules/payroll-calculations/payroll-calculations.service.ts:178-195 | The same for the status written by a calculation |
| `AttendanceTheorems.VersionsAreAHistory` | apps/api/src/modules/payroll-calculations/payroll-calculations.service.ts:121-195 | Under stale concurrent calculations and all other arcs, versions are numbered exactly 1..n, only the last is current, and earlier ones keep number and content |
| `AttendanceTheorems.SummaryPartitions` | apps/api/src/modules/payroll-periods/payroll-periods.service.ts:576-611 | Approved, open, pending and disputed days add up to all days, although disputed days are counted by status or pending correction |
| `AttendanceTheorems.SummaryCounts` | apps/api/src/modules/payroll-periods/payroll-periods.service.ts:576-611 | Each number of the summary is the number of days of the month in that status |
| `AttendanceTheorems.ShownSummaryIsLive` | apps/api/src/modules/payroll-periods/payroll-periods.service.ts:646-655 | In every reachable state the summary shown from the snapshot is the one recomputed from the live days |
| `AttendanceTheorems.SnapshotIsWorked` | apps/api/src/modules/payroll-periods/payroll-periods.service.ts:430-455 | The total of a snapshot is the sum of the live in/out durations of its month |
| `AttendanceTheorems.EngineIsFedWorkedMinutes` | apps/api/src/modules/payroll-calculations/payroll-calculations.service.ts:296-330 | The normal minutes of every stored version, and of every calculation in flight, are that sum |
| `AttendanceCalls.BeginsExactly` | apps/api/src/modules/payroll-periods/payroll-periods.service.ts:340-371 | For all eight calls and every sound state: a call starts exactly when its actor has the right role and the rows have the status, version, keys, times and closed flags it needs |
| `AttendanceCalls.CommitsExactly` | apps/api/src/modules/time-tracking/time-tracking.service.ts:525-640 | However stale its pre-read, a transaction goes through exactly when the rows it finds are as the call expects, and every field it writes is stated: statuses, times, whole minutes, versions, keys, corrections |
| `AttendanceCalls.FreshCallsExactly` | apps/api/src/modules/attendance-corrections/attendance-corrections.service.ts:134-197 | A call that nothing interferes with goes through exactly when its actor may start it and its rows are ready, with that effect |
| `AttendanceCalls.CommitsAreAuthorized` | apps/api/src/modules/attendance-corrections/attendance-corrections.service.ts:309-431 | Behind every transaction of every run is an earlier call whose actor was allowed to start it on the rows of that moment; the tables change exactly when they are ready for it, and as the call says |
| `AttendanceCalls.MonthsAreClosedByTheEmployer` | apps/api/src/modules/payroll-periods/payroll-periods.service.ts:350-372 | A month that becomes closed in a run was closed by a call of the employer, made when the month was over and at the version that still is the current one, and every day of it was approved |
| `AttendanceCalls.SettledMonthsClose` | apps/api/src/modules/payroll-periods/payroll-periods.service.ts:350-530 | Conversely, the employer's call on an open month that is over, approved and not empty starts, commits and closes it, and touches no other month |
| `AttendanceProtocol.StepKeeps` | apps/api/src/modules/time-tracking/time-tracking.service.ts:879-923 | One inductive invariant survives every step: ticks, stale pre-reads, commits of the seven operations, crashes, period openings and all other period arcs (who may start what is in AttendanceCalls) |
| `AttendanceProtocol.RunKeeps` | apps/api/src/modules/attendance-corrections/attendance-corrections.service.ts:134-184 | The invariant holds in every reachable state and nothing is ever undone between two states of a run |
| `AttendanceProtocol.CommitClockInKeeps` | apps/api/src/modules/time-tracking/time-tracking.service.ts:220-380 | A committed clock-in keeps the invariant: one new day with one entry and an unused key |
| `AttendanceProtocol.CommitClockOutKeeps` | apps/api/src/modules/time-tracking/time-tracking.service.ts:525-640 | A committed clock-out keeps it although its compare-and-set looks at the status only: an open day never had its entries replaced, so the stale clock-in is still right |
| `AttendanceProtocol.CommitApproveKeeps` | apps/api/src/modules/time-tracking/time-tracking.service.ts:870-945 | A committed approval keeps it |
| `AttendanceProtocol.CommitRequestCorrectionKeeps` | apps/api/src/modules/attendance-corrections/attendance-corrections.service.ts:134-197 | A committed request of a correction keeps it |
| `AttendanceProtocol.CommitApproveCorrectionKeeps` | apps/api/src/modules/attendance-corrections/attendance-corrections.service.ts:309-431 | A committed approval of a correction keeps it: entries are archived and replaced as one pair |
| `AttendanceProtocol.CommitRejectCorrectionKeeps` | apps/api/src/modules/attendance-corrections/attendance-corrections.service.ts:526-588 | A committed rejection keeps it: the day goes back to what its entries allow |
| `AttendanceProtocol.CommitCloseKeeps` | apps/api/src/modules/payroll-periods/payroll-periods.service.ts:373-530 | A committed close keeps it and freezes the month |
| `AttendanceProtocol.CommitCalculateKeeps` | apps/api/src/modules/payroll-calculations/payroll-calculations.service.ts:121-195 | A committed calculation keeps it |
| `AttendanceDay.OneLivePair` | apps/api/src/modules/time-tracking/time-tracking.service.ts:496-522 | A day whose entries are well formed has exactly one live clock-in and one clock-out iff it is complete |
| `AttendanceDay.FindIsOrderIndependent` | apps/api/src/modules/payroll-periods/payroll-periods.service.ts:459-466 | The first live entry of a kind is the same in any order of the entries |
| `AttendanceDay.DisputedIffOnePending` | apps/api/src/modules/attendance-corrections/attendance-corrections.service.ts:94-132 | A day is disputed iff it has exactly one pending correction, and otherwise has none |
| `AttendanceDay.DurationIsWorked` | apps/api/src/modules/time-tracking/time-tracking.service.ts:848-868 | The stored minutes are the floor of the live pair's distance in minutes, and the approved minutes equal them |
| `AttendanceDay.ViewAgreesWithEntries` | apps/api/src/modules/time-tracking/time-tracking.service.ts:68-88 | The view's times from the newest approved correction equal the live entries' times, whatever the database answers for ties, iff corrections tied for newest propose the same times |
| `AttendanceRuns.TiedStampsMislead` | apps/api/src/modules/time-tracking/time-tracking.service.ts:76-88 | A run that gets there: for any two different proposals, each requested and approved on one day within one millisecond, the database may answer the older correction, whose times are not those of the live entries |
| `AttendanceStore.Store.RunClockIn` | apps/api/src/modules/time-tracking/time-tracking.service.ts:220-380 | The clock-in transaction, statement by statement, ends in the state and answer of its specification |
| `AttendanceStore.Store.RunClockOut` | apps/api/src/modules/time-tracking/time-tracking.service.ts:525-640 | The same for clock-out, with its status-only compare-and-set |
| `AttendanceStore.Store.RunApprove` | apps/api/src/modules/time-tracking/time-tracking.service.ts:870-945 | The same for the approval of a day |
| `AttendanceStore.Store.RunRequestCorrection` | apps/api/src/modules/attendance-corrections/attendance-corrections.service.ts:134-197 | The same for the request of a correction |
| `AttendanceStore.Store.RunApproveCorrection` | apps/api/src/modules/attendance-corrections/attendance-corrections.service.ts:309-431 | The same for the approval of a correction, with its roll-back when a unique index refuses |
| `AttendanceStore.Store.RunRejectCorrection` | apps/api/src/modules/attendance-corrections/attendance-corrections.service.ts:526-588 | The same for the rejection of a correction |
| `AttendanceStore.Store.RunClose` | apps/api/src/modules/payroll-periods/payroll-periods.service.ts:373-530 | The same for the close: checks, compare-and-set, linking of the days and the snapshot |
| `AttendanceStore.Store.RunCalculate` | apps/api/src/modules/payroll-calculations/payroll-calculations.service.ts:121-195 | The same for the storing of a calculation |
| `AttendanceStore.Store.RunGetOrCreate` | apps/api/src/modules/payroll-periods/payroll-periods.service.ts:73-135 | The same for opening a period |
| `StateMachine.Machine.constructor` | packages/domain/src/state-machines/state-machine.ts:35-46 | The index maps each state to exactly the table's arcs out of it, in table order |
| `StateMachine.LeavingIsExact` | packages/domain/src/state-machines/state-machine.ts:39-45 | What the index holds for a state is the set of arcs of the table that leave it |
| `StateMachine.Machine.HasTransition` | packages/domain/src/state-machines/state-machine.ts:54-57 | True iff the table has the arc |
| `StateMachine.Machine.CanTransition` | packages/domain/src/state-machines/state-machine.ts:64-101 | Allows iff some arc of the table takes this role and its guard passes, and otherwise gives at least one reason, also when there is no arc |
| `StateMachine.Machine.Transition` | packages/domain/src/state-machines/state-machine.ts:106-122 | Returns the target iff the table permits the move; the two errors are told apart by whether the arc exists |
| `PayrollPeriodMachine.MovesExactly` | packages/domain/src/state-machines/payroll-period.ts:63-190 | For every pair of states, role and payload: the table permits the move iff it is one of the moves listed with their roles and conditions |
| `RelationshipMachine.MovesExactly` | packages/domain/src/state-machines/employment-relationship.ts:45-158 | The same for the table of relationships |
| `PayrollPeriodMachine.CloseIsAOneWayDoor` | packages/domain/src/state-machines/payroll-period.ts:63-190 | No arc leads back before the close, the close is the only way out, and only a ready period becomes calculated |
| `PayrollPeriodMachine.CloseArc` | packages/domain/src/state-machines/payroll-period.ts:70-90 | From either state before the close, the table lets exactly the family move to ready, iff all attendance is approved |
| `PayrollPeriodMachine.CalculateArc` | packages/domain/src/state-machines/payroll-period.ts:91-99 | From ready, exactly three roles may move to calculated, iff there is a calculation |
| `RelationshipMachine.TableIsExact` | packages/domain/src/state-machines/employment-relationship.ts:45-158 | For every pair of states and every context: which moves exist and which one an actor may make |
| `RelationshipMachine.OnlyTheWorkerActivates` | packages/domain/src/state-machines/employment-relationship.ts:75-84 | Into ACTIVE: the worker with a recorded acceptance, or a reactivation by the family, and nothing else |
| `Calendar.CodeOrder` | packages/domain/src/value-objects/date-range.ts:54-65 | Comparing valid dates as ISO strings is comparing the dates |
| `DateRanges.AssertNoOverlap` | packages/domain/src/value-objects/date-range.ts:83-96 | Comparing neighbours of the sorted copy accepts a list iff no valid date lies in two of its ranges, open ends included |
| `DateRanges.OverlapIsACommonDate` | packages/domain/src/value-objects/date-range.ts:61-65 | Two ranges overlap iff some valid date lies in both |
| `DateRanges.EffectiveIsOrderFree` | packages/domain/src/value-objects/date-range.ts:99-104 | In an accepted list the range in force on a date does not depend on the order of the list |
| `DateRanges.EffectiveIsTheOne` | packages/domain/src/value-objects/date-range.ts:99-104 | In an accepted list the look-up finds the one range that contains the date, and nothing exactly when none does |
| `PayrollParameters.ValidateParameterVersion` | packages/payroll-engine/src/parameters.ts:215-281 | The pass over a version with its set of seen keys and its neighbour checks reports exactly the specified problems, in order |
| `PayrollParameters.ScaleKeyIsInjective` | packages/payroll-engine/src/parameters.ts:252-258 | The text key of a scale separates category and mode |
| `PayrollParameters.ScaleProblemsExact` | packages/payroll-engine/src/parameters.ts:251-259 | No duplicate is reported iff no two scales share category and mode |
| `PayrollParameters.TierCheckIsExact` | packages/payroll-engine/src/parameters.ts:261-278 | No tier problem implies at most one tier per number of years, and conversely for tiers that hold at least one year |
| `PayrollParameters.TierCheckDecides` | packages/payroll-engine/src/parameters.ts:261-278 | For all tiers, those that hold no year included: no tier problem iff in the sorted copy no tier's first year falls into a tier before it |
| `PayrollParameters.LookupsAreOrderFree` | packages/payroll-engine/src/parameters.ts:199-207 | In a version without problems, reordering the scales changes no look-up of the engine, and neither does reordering the tiers when the seniority rule is enabled |
| `PayrollNotices.ProblemsAreExact` | packages/payroll-engine/src/parameters.ts:215-281 | The validation reports each problem exactly when the version has it, each stated on the version alone |
| `Decimals.RoundToLaws` | packages/domain/src/value-objects/money.ts:146-151 | Each of the four modes is monotone, odd and idempotent, within half a unit or under one unit, and DOWN and UP keep their side |
| `Decimals.Ties` | packages/domain/src/value-objects/money.ts:24-33 | A tie goes away from zero under HALF_UP and to the even neighbour under HALF_EVEN |
| `Decimals.RoundGridFixes` | packages/domain/src/value-objects/money.ts:146-151 | Rounding lands on the decimal grid and keeps exactly the values that are on it |
| `Decimals.Exponent` | packages/domain/src/value-objects/money.ts:18 | Every positive value has a leading digit position, found by recursion |
| `Decimals.Round28Fixes` | packages/domain/src/value-objects/money.ts:18 | A value of at most 28 significant digits is kept exactly |
| `Decimals.Round28Monotone` | packages/domain/src/value-objects/money.ts:18 | The 28-digit rounding of every operation is monotone |
| `Decimals.Round28Idempotent` | packages/domain/src/value-objects/money.ts:18 | Rounding a result again changes nothing, also across a power of ten |
| `Decimals.Round28Odd` | packages/domain/src/value-objects/money.ts:18 | It treats signs symmetrically |
| `Decimals.Round28Error` | packages/domain/src/value-objects/money.ts:18 | Its relative error is at most half a unit of the 28th digit |
| `Decimals.Round28IsNearest` | packages/domain/src/value-objects/money.ts:18 | The result is the nearest value of 28 significant digits, and of two as near the one away from zero |
| `Money.SumIsExact` | packages/domain/src/value-objects/money.ts:233-235 | A sum of amounts on a common decimal grid is exact, partial sums included, while the absolute values fit in 28 digits |
| `Money.SumIsRoundedOnce` | packages/domain/src/value-objects/money.ts:233-235 | Up to one unit beyond 10^(28-p) for amounts of p decimals, the roundings of a sum collapse into one: the sum is the exact sum rounded once, whatever the order |
| `Money.SumsOfPermutation` | packages/domain/src/value-objects/money.ts:233-235 | The exact and absolute sums of a permuted list are the same |
| `Money.SumMonotone` | packages/domain/src/value-objects/money.ts:233-235 | Adding larger items from the left gives a larger rounded sum |
| `Money.WithinProduct` | packages/domain/src/value-objects/money.ts:107-109 | A product of values that went through i and j roundings went through i + j + 1 |
| `Money.WithinQuotient` | packages/domain/src/value-objects/money.ts:112-120 | A quotient by an exact divisor adds one rounding |
| `PayrollEngine.CalculatePayroll` | packages/payroll-engine/src/engine.ts:33-731 | The procedure that pushes lines, warnings, errors and obligations and reassigns its totals computes the specified result; what that result is, apart from any procedure, is stated by PayrollNorm.PaysWhatIsOwed and PayrollNotices |
| `PayrollNorm.PaysWhatIsOwed` | packages/payroll-engine/src/engine.ts:33-731 | On the outcome, for every input: it raises exactly on the listed causes; otherwise its lines are, one by one and in order, those owed, with code, sign, shown base and exact rational amount up to a stated number of 28-digit roundings and the rounding of concepts; totals are the rounded sums of each sign; one obligation per contribution |
| `PayrollNorm.PaidWithin` | packages/payroll-engine/src/engine.ts:199-259 | So every line differs from its exact amount by at most the rounding unit of concepts and the drift of its 28-digit roundings |
| `PayrollNotices.ErrorsAreExact` | packages/payroll-engine/src/engine.ts:48-140 | A blocking error is given exactly when what it says is so |
| `PayrollNotices.WarningsAreExact` | packages/payroll-engine/src/engine.ts:40-47 | A warning is given exactly when what it says is so |
| `PayrollConcepts.DiscountsAreDeducted` | packages/payroll-engine/src/engine.ts:542-577 | Two runs: one more justified discount, at any place, is exactly one more DEBIT line of its rounded amount, and the gross stays |
| `PayrollConcepts.DiscountsRaiseDeductions` | packages/payroll-engine/src/engine.ts:542-577 | It raises the deductions by that amount while debits fit in 28 digits and totals keep the decimals of concepts |
| `PayrollConcepts.PaymentsRaiseTheGross` | packages/payroll-engine/src/engine.ts:542-577 | One more payment raises the gross by its rounded amount, justified or not, while credits fit in 28 digits |
| `PayrollConcepts.UnjustifiedDiscountsAreNotTaken` | packages/payroll-engine/src/engine.ts:542-577 | One more discount without a reason changes nothing of the outcome but errors and warnings |
| `PayrollEngine.SumApprovedEventDays` | packages/payroll-engine/src/engine.ts:783-802 | The loop adds the approved days of one type and warns once per event that is not approved |
| `PayrollEngine.CompletedYearsBetween` | packages/payroll-engine/src/engine.ts:765-777 | The year arithmetic with its correction by month and day returns the n for which the n-th anniversary of the start has passed and the next one has not, or none has and n is 0 |
| `PayrollEngine.AnniversariesPassed` | packages/payroll-engine/src/engine.ts:765-777 | That number exists once: n anniversaries have passed iff n is the value the specification of the engine uses |
| `PayrollEngine.LiquidateOvertime` | packages/payroll-engine/src/engine.ts:239-290 | The overtime loop: lines, running total and warnings, raising exactly on a liquidated entry of negative minutes |
| `PayrollEngine.DeductAdvances` | packages/payroll-engine/src/engine.ts:517-540 | The loop over advances |
| `PayrollEngine.ApplyConcepts` | packages/payroll-engine/src/engine.ts:542-577 | The loop over additional concepts, with the refused discounts; which sign and amount each has is stated by PayrollConcepts and PayrollNorm |
| `PayrollEngine.Contribute` | packages/payroll-engine/src/engine.ts:596-655 | The loop over contributions, while deductions grow with the lines |
| `PayrollConservation.RunningIsSum` | packages/payroll-engine/src/engine.ts:592-618 | The deductions accumulated while contribution lines are appended are the sum over all debit lines |
| `PayrollConservation.TotalsAreOfTheFinalLines` | packages/payroll-engine/src/engine.ts:579-693 | Gross, taken before the contributions, and deductions, taken after them, are the rounded sums of the final CREDIT and DEBIT lines |
| `PayrollConservation.RoundingBitesExactly` | packages/payroll-engine/src/engine.ts:579-693 | While amounts fit in 28 digits, a rounded total equals the exact sum of its lines iff that sum has no more decimals than totals keep |
| `PayrollConservation.TotalsAreExact` | packages/payroll-engine/src/engine.ts:579-693 | With totals at least as precise as concepts, gross and deductions are the exact sums of their lines and net is exactly their difference |
| `PayrollConservation.NetIsTheDifference` | packages/payroll-engine/src/engine.ts:692-693 | Whatever the precisions, net is exactly gross minus deductions while that fits in 28 digits |
| `PayrollConservation.OutcomeIsConserved` | packages/payroll-engine/src/engine.ts:579-731 | Whatever the input, the totals of a finished outcome are the rounded sums of its own lines and of each other, and without a category scale everything is empty and zero |
| `PayrollConservation.OutcomeIsExact` | packages/payroll-engine/src/engine.ts:579-693 | On the outcome, with or without a scale: gross, deductions and net are the exact sums of its lines and their difference, while these fit in 28 digits and totals keep at least the decimals of concepts |
| `PayrollTwoRuns.UnapprovedEventsDoNotMatter` | packages/payroll-engine/src/engine.ts:783-802 | Deleting the events that are not approved changes nothing of the outcome but warnings |
| `PayrollTwoRuns.ZeroOvertimeDoesNotMatter` | packages/payroll-engine/src/engine.ts:241-243 | Dropping overtime entries of zero minutes changes nothing at all, warnings included |
| `PayrollTwoRuns.EmployerSideDoesNotMatter` | packages/payroll-engine/src/engine.ts:596-690 | Any change of employer contributions and work-risk insurance leaves gross, deductions and net of the outcome as they were |
| `PayrollTwoRuns.GrossIsOrderFree` | packages/payroll-engine/src/engine.ts:482-540 | Permuting the events never changes whether there is an outcome nor its gross |
| `PayrollTwoRuns.DeductionsAreOrderFree` | packages/payroll-engine/src/engine.ts:482-540 | Permuting the events changes neither gross, deductions nor net of the outcome while the debit lines add up to at most 10^(28-c) and one unit of c decimals |
| `PayrollLargeAmounts.OrderShowsBeyond28Digits` | packages/payroll-engine/src/engine.ts:515-540 | Two units beyond 10^(28-c), at every precision c, the outcome depends on the order: an advance of that amount, one of a unit and its reversal give two different deductions in two orders |
| `PayrollLargeAmounts.OrderFreeExactly` | packages/payroll-engine/src/engine.ts:482-540 | The exact bound: at c decimals the outcomes of all inputs whose debit lines add up to at most a bound are free of the order of events iff the bound is less than 10^(28-c) and two units |
| `PayrollPrecision.MoreTimeIsNeverPaidLess` | packages/payroll-engine/src/engine.ts:199-259 | With non-negative pay, multipliers and percentages, more normal, overtime or holiday minutes never lower the gross of the outcome, although lines appear and disappear |
| `PayrollPrecision.BaseError` | packages/payroll-engine/src/engine.ts:199-201 | The hourly base differs from the exact product by at most the unit of rounding plus the drift of two 28-digit roundings, the one inside the hours included |
| `PayrollPrecision.OvertimeError` | packages/payroll-engine/src/engine.ts:256-259 | Overtime and holiday pay: three such roundings, four when the hourly value is a quotient |
| `PayrollPrecision.HoursWithin` | packages/domain/src/value-objects/minutes.ts:66-68 | Minutes turned into hours carry one 28-digit rounding |
| `PayrollPrecision.FactorIsNearOne` | packages/domain/src/value-objects/money.ts:18 | What n roundings multiply by differs from one by at most (1 + u)^n - 1 |
| `Outbox.OutboxTable.EnqueueEmail` | apps/api/src/modules/notifications/outbox-notification.service.ts:27-56 | A pending row, available at once, with its correlation id, whose payload holds the text, or instead of it the encrypted code and its lifetime, ten minutes unless the caller says otherwise |
| `Outbox.OutboxProcessorWorker.ClaimBatch` | apps/api/src/modules/notifications/outbox-processor.worker.ts:111-146 | The claimed copies, at most twenty, are the rows before the update, and exactly the rows of the batch become PROCESSING with this worker and a lease of 60000 ms; fewer than twenty only when no other free row was eligible |
| `Outbox.OutboxProcessorWorker.ProcessMessage` | apps/api/src/modules/notifications/outbox-processor.worker.ts:148-201 | Delivery, retry with its wait, or dead letter, written over the row of that id; the row stays as it was when the second write throws too |
| `Outbox.OutboxProcessorWorker.ProcessPendingMessages` | apps/api/src/modules/notifications/outbox-processor.worker.ts:85-101 | A run claims a batch and writes it back in order; a claim that throws changes nothing, a message that throws leaves the rest of the batch claimed, both answer 0; a second run of the timer changes nothing, and the flag is restored |
| `Outbox.BatchSettles` | apps/api/src/modules/notifications/outbox-processor.worker.ts:85-201 | Up to the message that breaks off, a batch run leaves each of its rows delivered, dead at the fifth failure, or waiting with its payload for 5, 15, 45 or 135 seconds; the rest of the batch stays claimed under its lease, and no other row moves |
| `OutboxProtocol.StepKeeps` | apps/api/src/modules/notifications/outbox-processor.worker.ts:111-201 | Any number of workers and crashes: every step keeps the invariant and leaves final rows alone |
| `OutboxProtocol.OneUnexpiredLease` | apps/api/src/modules/notifications/outbox-processor.worker.ts:111-146 | No two unexpired leases on one message, and the row names the holder of the one there is |
| `OutboxProtocol.AttemptsAreBounded` | apps/api/src/modules/notifications/outbox-processor.worker.ts:148-201 | At most five attempts, DEAD_LETTER iff five, and DELIVERED only what the mail server accepted |
| `OutboxProtocol.CodeLivesWithTheMessage` | apps/api/src/modules/notifications/outbox-processor.worker.ts:228-232 | The encrypted code is in the payload exactly while the message is not final; the rest of the payload, its lifetime included, never changes |
| `OutboxProtocol.FinalIsForever` | apps/api/src/modules/notifications/outbox-processor.worker.ts:162-201 | A delivered or dead message never changes again |
| `OutboxProtocol.ClaimableAgain` | apps/api/src/modules/notifications/outbox-processor.worker.ts:121-131 | Whoever crashed, a message that is not final can be claimed again within 135 seconds |
| `OutboxWaits.FailuresWait` | apps/api/src/modules/notifications/outbox-processor.worker.ts:176-193 | After the first, second, third and fourth failure a message waits 5000, 15000, 45000 and 135000 ms, after the fifth it is dead: in no later step of the run is it claimed before, and if nobody has claimed it since, it can be claimed from then on |
| `OutboxWaits.ClaimsHold` | apps/api/src/modules/notifications/outbox-processor.worker.ts:111-146 | A claim holds its message for 60000 ms: unless it is written back, no later step claims it before, and from then on it can be claimed if nobody has |
| `OutboxWaits.ClaimableExactly` | apps/api/src/modules/notifications/outbox-processor.worker.ts:119-131 | Some claim step that takes a message is possible exactly when it is not final and its wait, or the lease of its last claim, is over |
| `OutboxProtocol.FailuresAreCounted` | apps/api/src/modules/notifications/outbox-processor.worker.ts:176-193 | The attempts of a message are its failed write-backs, neither more nor less: a crash costs none |
| `OutboxRuns.LateWriteBackReopens` | apps/api/src/modules/notifications/outbox-processor.worker.ts:182-193 | In every reachable state, a write-back for a message that is already final comes after its lease; it leaves it final iff it records a delivery or the fifth failure, and otherwise reopens it, without its code if it had one |
| `OutboxRuns.LateWriteBackHappens` | apps/api/src/modules/notifications/outbox-processor.worker.ts:121-131 | A run to such a state, for any code, workers and time: the lease of one worker expires while it sends, another claims and delivers |
| `OutboxRuns.LostAnswerReopens` | apps/api/src/modules/notifications/outbox-processor.worker.ts:163-195 | When a delivery was written but its answer lost, the second write leaves the payload as it should be iff the message has no code or this was its last attempt |
| `TermsProtocol.ActiveMeansAccepted` | apps/api/src/modules/employment-relationships/relationships.service.ts:257-326 | In every interleaving an active relationship has exactly one open terms row, accepted, and its evidence captured that row field by field |
| `TermsProtocol.SubmittedIsComplete` | apps/api/src/modules/employment-relationships/relationships.service.ts:189-214 | What waits for the worker has terms and a published schedule, so her acceptance can start |
| `TermsProtocol.VersionProvesTheTerms` | apps/api/src/modules/employment-relationships/relationships.service.ts:299-303 | A compare-and-set on version and status that goes through proves that the terms it was decided on are the current ones |
| `TermsProtocol.OnlyAcceptanceActivates` | apps/api/src/modules/employment-relationships/relationships.service.ts:248-256 | A relationship becomes active only by the worker's acceptance or by a reactivation |
| `TermsProtocol.WritesArePermitted` | apps/api/src/modules/employment-relationships/relationships.service.ts:97-165 | Every status written by save, submit, accept and reject is a move the table permits that actor with that payload |
| `TermsProtocol.StepKeeps` | apps/api/src/modules/employment-relationships/relationships.service.ts:80-390 | Every step keeps the invariant, whatever the age of the copy it was decided on, schedule edits included |
| `TermsProtocol.PutWritesAnArcExactly` | apps/api/src/modules/work-schedules/work-schedules.service.ts:100-107 | The status written by a schedule edit is no change or a permitted move iff it had not read "pending acceptance" or the relationship still is editable |
| `TermsHistory.BeginsExactly` | apps/api/src/modules/employment-relationships/relationships.service.ts:80-96 | For all five calls: a call starts exactly when its party is the right one and the row has the status, terms, schedule, reason or working time it needs |
| `TermsHistory.CommitsExactly` | apps/api/src/modules/employment-relationships/relationships.service.ts:97-165 | However stale the copy it was decided on, a commit goes through exactly when version and status still stand (a schedule edit always), and every field it writes is stated |
| `TermsHistory.FreshCallsGoThrough` | apps/api/src/modules/employment-relationships/relationships.service.ts:80-390 | A call with nothing in between goes through exactly when its party may start it, with that effect |
| `TermsHistory.TermsAreTheLastSaved` | apps/api/src/modules/employment-relationships/relationships.service.ts:120-150 | In every state of every run with terms, the open row's conditions and start, and the planned start, are those of the last committed save, and the family made it |
| `TermsHistory.EvidenceIsTheLastSaved` | apps/api/src/modules/employment-relationships/relationships.service.ts:257-326 | So whenever the relationship is active, the evidence holds what the family saved last |
| `TermsHistory.WeeklyMinutesAddUp` | apps/api/src/modules/work-schedules/work-schedules.service.ts:52-66 | The weekly minutes add up over the rules, each counting its span without its break |
| `TermsRuns.AcceptedScheduleExactly` | apps/api/src/modules/employment-relationships/relationships.service.ts:257-326 | A committed acceptance records the current schedule iff no schedule was added since its pre-read, because the compare-and-set does not see schedules |
| `TermsRuns.AcceptedScheduleIsCurrent` | apps/api/src/modules/employment-relationships/relationships.service.ts:257-326 | In every state of every run, an accepted relationship has its latest acceptance and the step that read the accepted row, and its evidence names the current schedule iff no schedule edit committed since that step |
| `TermsRuns.SchedulesCountEdits` | apps/api/src/modules/work-schedules/work-schedules.service.ts:73-107 | Between two states of a run schedules are never lost, and there are as many exactly when no edit committed |
| `TermsRuns.SubmittedDuringAnEdit` | apps/api/src/modules/work-schedules/work-schedules.service.ts:35-71 | A run, for any terms and working rules, to a submitted relationship with an edit in flight that read it before it was submitted |
| `TermsRuns.PutTakesActiveBack` | apps/api/src/modules/work-schedules/work-schedules.service.ts:73-107 | From every reachable submitted state, an edit that overlaps the acceptance takes the active relationship back to configuration under the same version, which no arc allows |
| `TermsRuns.AcceptedScheduleCanBeStale` | apps/api/src/modules/work-schedules/work-schedules.service.ts:73-107 | From every reachable submitted state with such an early edit in flight: when the edit commits between the pre-read and the commit of the acceptance, the evidence names the replaced schedule |
| `TermsRuns.AcceptedScheduleCanBeReplaced` | apps/api/src/modules/work-schedules/work-schedules.service.ts:73-107 | From the same states: when the edit commits after the acceptance, the relationship stays active under the same version with a schedule that its evidence does not name |
| `TermsStore.RelationshipService.BeginCall` | apps/api/src/modules/employment-relationships/relationships.service.ts:80-96 | The checks before the transaction, through the state machine, answer as specified for every party and call |
| `TermsStore.RelationshipService.SaveConditions` | apps/api/src/modules/employment-relationships/relationships.service.ts:97-165 | The save transaction: terms row, compare-and-set, status, rolled back on conflict |
| `TermsStore.RelationshipService.SubmitConditions` | apps/api/src/modules/employment-relationships/relationships.service.ts:206-213 | The submit transaction |
| `TermsStore.RelationshipService.AcceptConditions` | apps/api/src/modules/employment-relationships/relationships.service.ts:267-326 | The accept transaction: the row is marked before the compare-and-set and unmarked on conflict |
| `TermsStore.RelationshipService.RejectConditions` | apps/api/src/modules/employment-relationships/relationships.service.ts:370-377 | The reject transaction |
| `TermsStore.RelationshipService.PutWorkSchedule` | apps/api/src/modules/work-schedules/work-schedules.service.ts:73-107 | The schedule transaction, which looks at the status it read and at no version |
| `Identity.IdentityService.Request` | apps/api/src/modules/identity/identity.service.ts:65-101 | Five per window, then refused; otherwise all usable codes are consumed and one is added |
| `Identity.IdentityService.Verify` | apps/api/src/modules/identity/identity.service.ts:133-194 | Expired, exhausted, mismatching and matching codes, each with its one effect |
| `Identity.IdentityService.RefreshSession` | apps/api/src/modules/identity/identity.service.ts:205-283 | Unknown, reused, expired and live tokens, each with its one effect |
| `Identity.IdentityService.LogoutSession` | apps/api/src/modules/identity/identity.service.ts:285-305 | Revokes one live session of the user |
| `Identity.IdentityService.LogoutEverywhere` | apps/api/src/modules/identity/identity.service.ts:309-338 | Revokes every live session of the user |
| `Identity.IdentityService.RevokeById` | apps/api/src/modules/identity/identity.service.ts:370-404 | Overwrites the revocation of one session of the user |
| `Identity.IdentityService.OpenSession` | apps/api/src/modules/identity/identity.service.ts:451-468 | Adds one live session in the family given |
| `IdentityRuns.AtMostFivePerWindow` | apps/api/src/modules/identity/identity.service.ts:68-79 | In every run, any fifteen-minute window, wherever it starts, holds at most five codes of a destination |
| `IdentityRuns.OneUsableCode` | apps/api/src/modules/identity/identity.service.ts:88-101 | In every run at most one code of a destination is unconsumed |
| `IdentityRuns.MismatchesAreCounted` | apps/api/src/modules/identity/identity.service.ts:149-167 | In every run the attempts of a code are exactly the wrong secrets offered to it, at most five |
| `IdentityRuns.OneSessionPerCode` | apps/api/src/modules/identity/identity.service.ts:170-180 | In every run a code opened at most one session |
| `IdentityRuns.OneLiveSessionPerFamily` | apps/api/src/modules/identity/identity.service.ts:254-262 | In every run a token family has one user and at most one session that is not revoked |
| `IdentityRuns.ReuseEndsTheFamily` | apps/api/src/modules/identity/identity.service.ts:215-245 | Once a revoked token is presented, its family has no live session in any later state |
| `IdentityHistory.TriesAreAnswered` | apps/api/src/modules/identity/identity.service.ts:133-194 | By the history of the run alone: a presented secret opens a session iff it is that of a code sent to the destination at most ten minutes ago, none newer was sent, nobody logged in with it, and it was tried fewer than five times; the sixth try in time is refused as too many, everything else as invalid |
| `IdentityHistory.RequestsAreAnswered` | apps/api/src/modules/identity/identity.service.ts:65-101 | By the history of the run alone: a request has a code sent iff fewer than five were sent to the destination in the last fifteen minutes |
| `IdentityHistory.LoginOpensASession` | apps/api/src/modules/identity/identity.service.ts:170-194 | A login opens one session in a new family for the one user of the destination; nothing else opens any |
| `IdentityHistory.RefreshesAreAnswered` | apps/api/src/modules/identity/identity.service.ts:205-283 | In every state of a run a known token opens a session iff its session is neither revoked nor past its end, of the same user and family, and rotates it; a revoked one revokes its family and nobody else |
| `IdentityHistory.LogoutsAreExact` | apps/api/src/modules/identity/identity.service.ts:285-404 | Each logout and revocation reaches exactly the sessions it names, and nothing else changes |
| `IdentityRuns.StepKeeps` | apps/api/src/modules/identity/identity.service.ts:65-404 | Every call keeps the invariant; consumption and revocation are for ever, and a family without live sessions never gets one |
| `CanonicalJson.TextIsTheValue` | apps/api/src/modules/employment-relationships/relationships.service.ts:525-537 | Two values have the same canonical text iff they are equal up to the order of object keys, at every depth |
| `JsonReader.TextIsJson` | apps/api/src/modules/employment-relationships/relationships.service.ts:525-537 | A reader written from the JSON grammar reads the canonical text back as that value, with the keys of every object in ascending order |
| `JsonReader.BelowExactly` | apps/api/src/modules/employment-relationships/relationships.service.ts:532 | That order is by the first code unit in which two keys differ, a prefix first |
| `JsonReader.EscapesExactly` | apps/api/src/modules/employment-relationships/relationships.service.ts:527-534 | Exactly quotes, backslashes, controls and lone surrogates are escaped, in two units or as four lower-case hexadecimal digits |
| `CanonicalJson.ValueIsUnique` | apps/api/src/modules/employment-relationships/relationships.service.ts:525-537 | Equal texts before delimiters come from equal values and end together, although numbers are not self-delimiting |
| `CanonicalJson.QuotedTailIsUnique` | apps/api/src/modules/employment-relationships/relationships.service.ts:527-534 | Quoting by JSON.stringify, surrogates and escapes included, is uniquely decodable |
| `CanonicalJson.SameText` | apps/api/src/modules/employment-relationships/relationships.service.ts:532-536 | The order in which an object lists its keys does not reach the text |
| `CanonicalJson.AscendingIsUnique` | apps/api/src/modules/employment-relationships/relationships.service.ts:532 | The sorted list of an object's keys is determined by the keys |

## Left out

- Audit records, e-mails sent inside transactions, authorisation messages, device and location data: appended, never read
  by the modelled code. Of actors only the role or party that a guard looks at is kept.
- Table identifiers: time entries and corrections are lists inside their day and are named by position, a day by its
  relationship and date, a period by its relationship, year and month, terms, schedules, codes and sessions by position.
- Labels, explanations, quantities, rates, parameter references and the trace of payroll lines; the currency check (there
  is one currency).
- Payroll amounts that are not decimal literals, which `Money.of` refuses before any arithmetic.
- The contents of a payroll calculation in the attendance protocol: a version carries its number, whether it is current
  and the minutes that were fed to the engine. The choice of terms and of the parameter version for a period.
- Finer interleavings inside a transaction, and the recovery look-ups that follow a unique-index failure: a failed insert
  is a roll-back that answers with the existing row.
- StepKeeps (outbox): a worker that writes back after its lease expired, and a write that is applied but reports an error;
  `LateWriteBackReopens` and `LostAnswerReopens` show what these do.
- OutboxProcessorWorker.ProcessPendingMessages: other workers between two writes of one batch are in the protocol only,
  and the rows that the locking SELECT returns are its parameter, constrained as that statement constrains them.
- Rendering of e-mail bodies, decryption, the sanitised error text stored with a failure, and topics other than e-mail (none is enqueued).
- TierCheckIsExact: the converse is stated for tiers that hold at least one year, since an empty tier can be reported as
  overlapping although no number of years lies in two tiers; `TierCheckDecides` is exact for all of them.
- OrderFreeExactly: exact for the bound over all inputs; a single input beyond it may still be free of the order.
- BeginsExactly, CommitsExactly, FreshCallsExactly: when a call is refused, not with which of several error codes; the
  functions of the model give the code.
- The household's time zone: today's date there, which decides whether a month is over, is a parameter of the close, like the
  local date of a clock-in.
- MoreTimeIsNeverPaidLess: stated for gross; net need not grow, because contributions are taken from the rounded gross.
- Values that JSON cannot express (undefined, functions, NaN) in the canonical text, and SHA-256 itself.
- Lower-casing of e-mail addresses, creation and verification of user profiles, access tokens, the list of sessions, and
  the revocation cache beside the session table.
- The arcs of periods and relationships that other services write are taken as extra steps, with or without a new
  version; suspended and terminated relationships have no service in the modelled files.
- Whether an actor takes part in a relationship at all: "not found" and "forbidden" are one refusal.
- Quotas, controllers, the ARCA connector, consents, invitations, document handling and everything else of the platform.
