/**
 * Terms of an employment relationship: how they are saved, submitted, accepted and rejected, and the weekly schedule
 * that is edited beside them. One relationship with its rows; relationships do not touch each other.
 */
module Terms {
  import opened Calendar
  import opened Common
  import opened StateMachine
  import opened RelationshipMachine

  type Instant = int

  /** The fields a family fills in; only the first five enter the accepted snapshot. */
  datatype Conditions = Conditions(
    agreedRemuneration: real,
    categoryCode: string,
    liveInMode: string,
    remunerationScheme: string,
    weeklyHours: Option<int>,
    paymentDayOfMonth: Option<int>,
    requiresProfessionalReview: bool)

  datatype TermsRow = TermsRow(
    conditions: Conditions,
    effectiveFrom: Date,
    effectiveTo: Option<Date>,
    version: nat,
    acceptedByWorkerAt: Option<Instant>)

  datatype ScheduleStatus = Published | Superseded

  datatype Rule = Rule(dayOfWeek: int, startMinute: int, endMinute: int, breakMinutes: int)

  datatype Schedule = Schedule(status: ScheduleStatus, effectiveFrom: Date, effectiveTo: Option<Date>, rules: seq<Rule>)

  /** The captured fields of the accepted terms. */
  datatype Captured = Captured(
    agreedRemuneration: real,
    categoryCode: string,
    termsId: nat,
    liveInMode: string,
    remunerationScheme: string,
    termsVersion: nat,
    weeklyHours: Option<int>)

  datatype Evidence = Evidence(relationshipVersion: nat, acceptedAt: Instant, scheduleId: Option<nat>, captured: Captured)

  /** Rows of terms and schedules are identified by their position. */
  datatype Relationship = Relationship(
    status: RelationshipStatus,
    version: nat,
    startDate: Option<Date>,
    terms: seq<TermsRow>,
    schedules: seq<Schedule>,
    workerAcceptedAt: Option<Instant>,
    evidence: Option<Evidence>)

  datatype ErrorCode =
    | Forbidden
    | RelationshipNotEditable
    | IllegalMove
    | GuardRefused
    | RelationshipWithoutTerms
    | ScheduleEmpty
    | VersionConflict
    | EffectiveFromTaken

  // ---------------------------------------------------------------- look-ups

  predicate IsOpen(t: TermsRow) {
    t.effectiveTo.None?
  }

  /** The open row with the latest start among the first `n`: `findFirst` with `orderBy: effectiveFrom desc`. */
  function NewestOpen(terms: seq<TermsRow>, n: nat): (k: Option<nat>)
    requires n <= |terms|
    ensures k.Some? ==> k.value < n && IsOpen(terms[k.value])
    ensures k.None? ==> forall i :: 0 <= i < n ==> !IsOpen(terms[i])
    ensures k.Some? ==> forall i :: 0 <= i < n && IsOpen(terms[i]) ==>
              Code(terms[i].effectiveFrom) <= Code(terms[k.value].effectiveFrom)
  {
    if n == 0 then None
    else
      var before := NewestOpen(terms, n - 1);
      if !IsOpen(terms[n - 1]) then before
      else if before.Some? && Code(terms[before.value].effectiveFrom) >= Code(terms[n - 1].effectiveFrom) then before
      else Some(n - 1)
  }

  function CurrentTerms(r: Relationship): (k: Option<nat>)
    ensures k.Some? ==> k.value < |r.terms| && IsOpen(r.terms[k.value])
    ensures k.None? ==> forall i :: 0 <= i < |r.terms| ==> !IsOpen(r.terms[i])
  {
    NewestOpen(r.terms, |r.terms|)
  }

  predicate HasPublishedSchedule(r: Relationship) {
    exists i :: 0 <= i < |r.schedules| && r.schedules[i].status == Published && |r.schedules[i].rules| > 0
  }

  /** The first published schedule. */
  function CurrentSchedule(schedules: seq<Schedule>, n: nat): (k: Option<nat>)
    requires n <= |schedules|
    ensures k.Some? ==> k.value < n && schedules[k.value].status == Published
  {
    if n == 0 then None
    else
      var before := CurrentSchedule(schedules, n - 1);
      if before.Some? then before else if schedules[n - 1].status == Published then Some(n - 1) else None
  }

  /** No other row starts on this date: the unique index on relationship and start. */
  predicate StartIsFree(terms: seq<TermsRow>, k: nat, date: Date) {
    forall i :: 0 <= i < |terms| && i != k ==> terms[i].effectiveFrom != date
  }

  function WeeklyMinutes(rules: seq<Rule>): int {
    if rules == [] then 0
    else
      var last := rules[|rules| - 1];
      WeeklyMinutes(rules[..|rules| - 1]) + (last.endMinute - last.startMinute - last.breakMinutes)
  }

  // ---------------------------------------------------------------- requests: what is checked on the pre-read

  datatype Party = Family | WorkerParty | Outsider

  datatype Call =
    | Save(conditions: Conditions, plannedStart: Date)
    | Submit
    | Accept
    | Reject(reason: string)
    | PutSchedule(rules: seq<Rule>, effectiveFrom: Date)

  /** A request in flight, with its own copy of what it read before its transaction. */
  datatype Request = Request(call: Call, pre: Relationship)

  datatype Beginning = Started(request: Request) | Declined(error: ErrorCode)

  predicate Editable(s: RelationshipStatus) {
    s == PendingConfiguration || s == PendingWorkerAcceptance
  }

  function PayloadOf(call: Call, pre: Relationship): RelationshipPayload {
    match call
    case Submit => NO_PAYLOAD.(hasEffectiveTerms := CurrentTerms(pre).Some?, hasPublishedSchedule := HasPublishedSchedule(pre))
    case Accept => NO_PAYLOAD.(hasWorkerAcceptance := true)
    case Reject(reason) => NO_PAYLOAD.(reason := reason)
    case _ => NO_PAYLOAD.(reason := "The family changed the submitted conditions")
  }

  function RoleOf(call: Call): PlatformRole {
    if call.Accept? || call.Reject? then Worker else FamilyEmployer
  }

  /** The status a call writes. */
  function TargetOf(call: Call): RelationshipStatus {
    match call
    case Submit => PendingWorkerAcceptance
    case Accept => Active
    case _ => PendingConfiguration
  }

  function ContextOf(call: Call, pre: Relationship): RelationshipContext {
    Context(RoleOf(call), PayloadOf(call, pre))
  }

  function ArcError(source: RelationshipStatus, target: RelationshipStatus): ErrorCode {
    if ArcIndex(source, target) < 0 then IllegalMove else GuardRefused
  }

  /** Everything before the transaction. */
  ghost function Begin(r: Relationship, party: Party, call: Call): Beginning {
    if (RoleOf(call) == Worker && party != WorkerParty) || (RoleOf(call) == FamilyEmployer && party != Family) then
      Declined(Forbidden)
    else if call.Save? || call.PutSchedule? then
      if !Editable(r.status) then Declined(RelationshipNotEditable)
      else if call.PutSchedule? && WeeklyMinutes(call.rules) <= 0 then Declined(ScheduleEmpty)
      else Started(Request(call, r))
    else if !Permits(RELATIONSHIP_TRANSITIONS, r.status, TargetOf(call), ContextOf(call, r)) then
      Declined(ArcError(r.status, TargetOf(call)))
    else if call.Accept? && CurrentTerms(r).None? then Declined(RelationshipWithoutTerms)
    else Started(Request(call, r))
  }

  // ---------------------------------------------------------------- transactions

  datatype Outcome = Committed(next: Relationship) | Thrown(error: ErrorCode)

  function After(r: Relationship, o: Outcome): Relationship {
    if o.Committed? then o.next else r
  }

  /** The compare-and-set of the relationship row. */
  predicate Unchanged(r: Relationship, pre: Relationship) {
    r.version == pre.version && r.status == pre.status
  }

  function SavedTerms(terms: seq<TermsRow>, c: Conditions, date: Date): seq<TermsRow> {
    var current := NewestOpen(terms, |terms|);
    if current.Some? then terms[current.value := terms[current.value].(conditions := c, effectiveFrom := date)]
    else terms + [TermsRow(c, date, None, 0, None)]
  }

  predicate SaveFits(terms: seq<TermsRow>, date: Date) {
    var current := NewestOpen(terms, |terms|);
    StartIsFree(terms, if current.Some? then current.value else |terms|, date)
  }

  function CommitSave(r: Relationship, pre: Relationship, c: Conditions, date: Date): Outcome {
    if !SaveFits(r.terms, date) then Thrown(EffectiveFromTaken)
    else if !Unchanged(r, pre) then Thrown(VersionConflict)
    else
      Committed(r.(terms := SavedTerms(r.terms, c, date), startDate := Some(date), version := r.version + 1,
                   status := if pre.status == PendingWorkerAcceptance then PendingConfiguration else r.status))
  }

  function CommitSubmit(r: Relationship, pre: Relationship): Outcome {
    if !Unchanged(r, pre) then Thrown(VersionConflict)
    else Committed(r.(status := PendingWorkerAcceptance, version := r.version + 1))
  }

  function Capture(k: nat, t: TermsRow): Captured {
    var c := t.conditions;
    Captured(c.agreedRemuneration, c.categoryCode, k, c.liveInMode, c.remunerationScheme, t.version, c.weeklyHours)
  }

  /** The evidence is made of the pre-read; the row it marks is the current one of that id. */
  function CommitAccept(r: Relationship, pre: Relationship, now: Instant): Outcome
    requires CurrentTerms(pre).Some? && CurrentTerms(pre).value < |r.terms|
  {
    var k := CurrentTerms(pre).value;
    if !Unchanged(r, pre) then Thrown(VersionConflict)
    else
      Committed(r.(terms := r.terms[k := r.terms[k].(acceptedByWorkerAt := Some(now))],
                   status := Active, workerAcceptedAt := Some(now), version := r.version + 1,
                   evidence := Some(Evidence(pre.version, now, CurrentSchedule(pre.schedules, |pre.schedules|),
                                             Capture(k, pre.terms[k])))))
  }

  function CommitReject(r: Relationship, pre: Relationship): Outcome {
    if !Unchanged(r, pre) then Thrown(VersionConflict)
    else Committed(r.(status := PendingConfiguration, version := r.version + 1))
  }

  function Supersede(s: Schedule, date: Date): Schedule {
    if s.status == Published then s.(status := Superseded, effectiveTo := Some(date)) else s
  }

  function SupersedeAll(schedules: seq<Schedule>, date: Date): (s: seq<Schedule>)
    ensures |s| == |schedules|
    ensures forall i :: 0 <= i < |s| ==> s[i] == Supersede(schedules[i], date)
  {
    seq(|schedules|, i requires 0 <= i < |schedules| => Supersede(schedules[i], date))
  }

  /** No compare-and-set, and the status is written without a new version. */
  function CommitPut(r: Relationship, pre: Relationship, rules: seq<Rule>, date: Date): Outcome {
    Committed(r.(schedules := SupersedeAll(r.schedules, date) + [Schedule(Published, date, None, rules)],
                 status := if pre.status == PendingWorkerAcceptance then PendingConfiguration else r.status))
  }

  /** A request that Begin could have made against an earlier state of this relationship. */
  predicate WellFormed(r: Relationship, q: Request) {
    q.call.Accept? ==> CurrentTerms(q.pre).Some? && CurrentTerms(q.pre).value < |r.terms|
  }

  function Commit(r: Relationship, q: Request, now: Instant): Outcome
    requires WellFormed(r, q)
  {
    match q.call
    case Save(c, date) => CommitSave(r, q.pre, c, date)
    case Submit => CommitSubmit(r, q.pre)
    case Accept => CommitAccept(r, q.pre, now)
    case Reject(_) => CommitReject(r, q.pre)
    case PutSchedule(rules, date) => CommitPut(r, q.pre, rules, date)
  }
}
