/**
 * The terms of one relationship under concurrent requests, each committing on its own possibly stale copy, with the
 * schedule service interfering: it writes the status without a compare-and-set and without a new version.
 */
module TermsProtocol {
  import opened Calendar
  import opened Common
  import opened StateMachine
  import opened RelationshipMachine
  import opened Terms

  datatype System = System(row: Relationship, clock: Instant, inFlight: multiset<Request>)

  datatype Step =
    | Tick(later: Instant)
    | BeginStep(party: Party, call: Call)
    | CommitStep(request: Request)
    | DropStep(request: Request)
    | MoveStep(target: RelationshipStatus, bump: bool)

  /** The arcs that the terms flow writes itself; the others belong to code this model does not contain. */
  predicate OwnArc(source: RelationshipStatus, target: RelationshipStatus) {
    (source == PendingConfiguration && target == PendingWorkerAcceptance) || source == PendingWorkerAcceptance
  }

  ghost predicate Next(s: System, step: Step, s': System) {
    match step
    case Tick(later) =>
      s.clock <= later && s' == s.(clock := later)
    case BeginStep(party, call) =>
      (match Begin(s.row, party, call)
       case Started(q) => s' == s.(inFlight := s.inFlight + multiset{q})
       case Declined(_) => s' == s)
    case CommitStep(q) =>
      && q in s.inFlight && WellFormed(s.row, q)
      && s' == s.(row := After(s.row, Commit(s.row, q, s.clock)), inFlight := s.inFlight - multiset{q})
    case DropStep(q) =>
      q in s.inFlight && s' == s.(inFlight := s.inFlight - multiset{q})
    case MoveStep(target, bump) =>
      && HasArc(RELATIONSHIP_TRANSITIONS, s.row.status, target) && !OwnArc(s.row.status, target)
      && s' == s.(row := s.row.(status := target, version := s.row.version + (if bump then 1 else 0)))
  }

  /** A relationship as the invitation creates it. */
  ghost predicate Init(s: System) {
    && s.row.status in {Draft, PendingConfiguration}
    && s.row == Relationship(s.row.status, 0, None, [], [], None, None)
    && s.inFlight == multiset{}
  }

  ghost predicate IsRun(run: seq<System>, steps: seq<Step>) {
    && |run| == |steps| + 1
    && Init(run[0])
    && forall i :: 0 <= i < |steps| ==> Next(run[i], steps[i], run[i + 1])
  }

  // ---------------------------------------------------------------- the invariant

  /** At most one terms row, and it is open. */
  predicate OneOpenRow(r: Relationship) {
    |r.terms| <= 1 && forall i :: 0 <= i < |r.terms| ==> IsOpen(r.terms[i])
  }

  /** The last schedule is the published one, the others are superseded, and it has working days. */
  predicate SchedulesOk(r: Relationship) {
    forall i :: 0 <= i < |r.schedules| ==>
      (r.schedules[i].status == Published <==> i == |r.schedules| - 1) && |r.schedules[i].rules| > 0
  }

  /** Has been active, and has not been sent back. */
  predicate Accepted(s: RelationshipStatus) {
    s in {Active, Suspended, Terminated}
  }

  /** The evidence captured the one open terms row as it is, and the row is marked accepted at the evidence's time. */
  predicate EvidenceMatches(r: Relationship) {
    && |r.terms| == 1 && IsOpen(r.terms[0])
    && r.evidence.Some?
    && r.evidence.value.captured == Capture(0, r.terms[0])
    && r.terms[0].acceptedByWorkerAt == Some(r.evidence.value.acceptedAt) == r.workerAcceptedAt
    && r.evidence.value.relationshipVersion < r.version
  }

  predicate RowOk(r: Relationship) {
    && OneOpenRow(r) && SchedulesOk(r)
    && (r.status == PendingWorkerAcceptance ==> |r.terms| == 1 && |r.schedules| > 0)
    && (Accepted(r.status) ==> EvidenceMatches(r))
  }

  /** A pre-read is of the past, and while the version stands its terms are still the current ones. */
  predicate PreReadOk(r: Relationship, q: Request) {
    && RowOk(q.pre)
    && q.pre.version <= r.version
    && |q.pre.terms| <= |r.terms| && |q.pre.schedules| <= |r.schedules|
    && (q.pre.version == r.version ==> q.pre.terms == r.terms)
    && Checked(q)
  }

  /** What Begin checked. */
  predicate Checked(q: Request) {
    match q.call
    case Save(_, _) => Editable(q.pre.status)
    case Submit => q.pre.status == PendingConfiguration && |q.pre.terms| > 0 && |q.pre.schedules| > 0
    case Accept => q.pre.status == PendingWorkerAcceptance && |q.pre.terms| == 1
    case Reject(reason) => q.pre.status == PendingWorkerAcceptance && HasText(reason)
    case PutSchedule(rules, _) => Editable(q.pre.status) && |rules| > 0
  }

  ghost predicate Inv(s: System) {
    RowOk(s.row) && forall q :: q in s.inFlight ==> PreReadOk(s.row, q)
  }

  // ---------------------------------------------------------------- small facts

  lemma CurrentIsTheRow(r: Relationship)
    requires OneOpenRow(r)
    ensures CurrentTerms(r) == if r.terms == [] then None else Some(0)
  {
    if r.terms != [] {
      assert IsOpen(r.terms[0]);
      assert NewestOpen(r.terms, 0) == None;
    }
  }

  lemma PublishedOnce(r: Relationship)
    requires SchedulesOk(r)
    ensures HasPublishedSchedule(r) <==> |r.schedules| > 0
  {
    if |r.schedules| > 0 {
      assert r.schedules[|r.schedules| - 1].status == Published;
    }
  }

  lemma NoTimeWithoutRules(rules: seq<Rule>)
    requires WeeklyMinutes(rules) > 0
    ensures |rules| > 0
  {
  }

  /** A request that starts carries the row as it is, and Begin has checked it. */
  lemma BeginChecks(r: Relationship, party: Party, call: Call)
    requires RowOk(r)
    ensures Begin(r, party, call).Started? ==>
              Begin(r, party, call).request == Request(call, r) && Checked(Request(call, r))
  {
    CurrentIsTheRow(r);
    PublishedOnce(r);
    var c := ContextOf(call, r);
    SubmitArc(r.status, c);
    OnlyTheWorkerActivates(r.status, c);
    ReturnArc(r.status, c);
    if call.PutSchedule? && WeeklyMinutes(call.rules) > 0 {
      NoTimeWithoutRules(call.rules);
    }
    hide HasText;
    hide WeeklyMinutes;
    hide RowOk;
    hide HasPublishedSchedule;
  }

  // ---------------------------------------------------------------- every commit keeps the row

  lemma SaveKeepsRow(r: Relationship, q: Request)
    requires RowOk(r) && PreReadOk(r, q) && q.call.Save?
    ensures RowOk(After(r, CommitSave(r, q.pre, q.call.conditions, q.call.plannedStart)))
  {
    CurrentIsTheRow(r);
    hide StartIsFree;
  }

  lemma SubmitKeepsRow(r: Relationship, q: Request)
    requires RowOk(r) && PreReadOk(r, q) && q.call.Submit?
    ensures RowOk(After(r, CommitSubmit(r, q.pre)))
  {
  }

  lemma AcceptKeepsRow(r: Relationship, q: Request, now: Instant)
    requires RowOk(r) && PreReadOk(r, q) && q.call.Accept? && WellFormed(r, q)
    ensures RowOk(After(r, CommitAccept(r, q.pre, now)))
  {
    CurrentIsTheRow(q.pre);
    hide CurrentSchedule;
  }

  lemma RejectKeepsRow(r: Relationship, q: Request)
    requires RowOk(r) && PreReadOk(r, q) && q.call.Reject?
    ensures RowOk(After(r, CommitReject(r, q.pre)))
  {
  }

  lemma PutKeepsRow(r: Relationship, q: Request)
    requires RowOk(r) && PreReadOk(r, q) && q.call.PutSchedule?
    ensures RowOk(After(r, CommitPut(r, q.pre, q.call.rules, q.call.effectiveFrom)))
  {
    hide HasText;
  }

  lemma CommitKeepsRow(r: Relationship, q: Request, now: Instant)
    requires RowOk(r) && PreReadOk(r, q) && WellFormed(r, q)
    ensures RowOk(After(r, Commit(r, q, now)))
  {
    match q.call
    case Save(_, _) => SaveKeepsRow(r, q);
    case Submit => SubmitKeepsRow(r, q);
    case Accept => AcceptKeepsRow(r, q, now);
    case Reject(_) => RejectKeepsRow(r, q);
    case PutSchedule(_, _) => PutKeepsRow(r, q);
  }

  /** Versions only grow, rows are only added, and terms change only under a new version. */
  lemma CommitMovesOn(r: Relationship, q: Request, now: Instant)
    requires RowOk(r) && PreReadOk(r, q) && WellFormed(r, q)
    ensures var r' := After(r, Commit(r, q, now));
            && r.version <= r'.version && |r.terms| <= |r'.terms| && |r.schedules| <= |r'.schedules|
            && (r.version == r'.version ==> r.terms == r'.terms)
  {
    hide RowOk;
    hide PreReadOk;
    hide StartIsFree;
    hide CurrentSchedule;
  }

  lemma PreReadAges(r: Relationship, r': Relationship, q: Request)
    requires PreReadOk(r, q)
    requires r.version <= r'.version && |r.terms| <= |r'.terms| && |r.schedules| <= |r'.schedules|
    requires r.version == r'.version ==> r.terms == r'.terms
    ensures PreReadOk(r', q)
  {
    hide RowOk;
    hide Checked;
  }

  lemma BeginStepKeeps(s: System, step: Step, s': System)
    requires Inv(s) && step.BeginStep? && Next(s, step, s')
    ensures Inv(s')
  {
    BeginChecks(s.row, step.party, step.call);
    hide Begin;
    hide RowOk;
    hide Checked;
  }

  lemma OthersAge(s: System, s': System)
    requires Inv(s) && RowOk(s'.row) && s'.inFlight <= s.inFlight
    requires s.row.version <= s'.row.version
    requires |s.row.terms| <= |s'.row.terms| && |s.row.schedules| <= |s'.row.schedules|
    requires s.row.version == s'.row.version ==> s.row.terms == s'.row.terms
    ensures Inv(s')
  {
    hide RowOk;
    forall p | p in s'.inFlight
      ensures PreReadOk(s'.row, p)
    {
      assert p in s.inFlight;
      PreReadAges(s.row, s'.row, p);
    }
    hide PreReadOk;
  }

  lemma CommitStepKeeps(s: System, step: Step, s': System)
    requires Inv(s) && step.CommitStep? && Next(s, step, s')
    ensures Inv(s')
  {
    var q := step.request;
    assert PreReadOk(s.row, q);
    CommitKeepsRow(s.row, q, s.clock);
    CommitMovesOn(s.row, q, s.clock);
    hide Commit;
    hide RowOk;
    hide PreReadOk;
    OthersAge(s, s');
  }

  lemma MoveStepKeeps(s: System, step: Step, s': System)
    requires Inv(s) && step.MoveStep? && Next(s, step, s')
    ensures Inv(s')
  {
    TableIsExact(s.row.status, step.target, Context(SystemActor, NO_PAYLOAD));
    assert RowOk(s'.row);
    hide RowOk;
    hide PreReadOk;
    OthersAge(s, s');
  }

  /** Every step keeps the invariant, whatever the age of the copy it decided on. */
  lemma StepKeeps(s: System, step: Step, s': System)
    requires Inv(s) && Next(s, step, s')
    ensures Inv(s')
  {
    match step
    case Tick(_) =>
      hide RowOk;
      hide PreReadOk;
    case BeginStep(_, _) => BeginStepKeeps(s, step, s');
    case CommitStep(_) => CommitStepKeeps(s, step, s');
    case DropStep(_) =>
      hide RowOk;
      hide PreReadOk;
    case MoveStep(_, _) => MoveStepKeeps(s, step, s');
  }

  lemma {:induction false} RunKeeps(run: seq<System>, steps: seq<Step>, n: nat)
    requires IsRun(run, steps) && n < |run|
    ensures Inv(run[n])
  {
    if n > 0 {
      RunKeeps(run, steps, n - 1);
      assert Next(run[n - 1], steps[n - 1], run[n]);
      hide *;
      StepKeeps(run[n - 1], steps[n - 1], run[n]);
    }
  }

  // ---------------------------------------------------------------- what it gives

  /**
   * In every interleaving, an active relationship has exactly one open terms row, the worker accepted it, and the
   * evidence captured that row.
   */
  lemma ActiveMeansAccepted(run: seq<System>, steps: seq<Step>, n: nat)
    requires IsRun(run, steps) && n < |run| && run[n].row.status == Active
    ensures var r := run[n].row;
            && |r.terms| == 1 && IsOpen(r.terms[0])
            && r.evidence.Some? && r.terms[0].acceptedByWorkerAt == Some(r.evidence.value.acceptedAt)
            && var e, c := r.evidence.value.captured, r.terms[0].conditions;
               && (e.termsId, e.termsVersion) == (0, r.terms[0].version)
               && (e.agreedRemuneration, e.categoryCode, e.liveInMode) == (c.agreedRemuneration, c.categoryCode, c.liveInMode)
               && (e.remunerationScheme, e.weeklyHours) == (c.remunerationScheme, c.weeklyHours)
  {
    RunKeeps(run, steps, n);
    hide Next;
  }

  /** What waits for the worker can be accepted: its terms and a schedule with working days exist. */
  lemma SubmittedIsComplete(run: seq<System>, steps: seq<Step>, n: nat)
    requires IsRun(run, steps) && n < |run| && run[n].row.status == PendingWorkerAcceptance
    ensures CurrentTerms(run[n].row) == Some(0) && HasPublishedSchedule(run[n].row)
    ensures Begin(run[n].row, WorkerParty, Accept).Started?
  {
    RunKeeps(run, steps, n);
    var r := run[n].row;
    assert RowOk(r);
    hide IsRun;
    CurrentIsTheRow(r);
    PublishedOnce(r);
    OnlyTheWorkerActivates(r.status, ContextOf(Accept, r));
  }

  /** A compare-and-set that goes through proves that the terms it was decided on are the current ones. */
  lemma VersionProvesTheTerms(run: seq<System>, steps: seq<Step>, n: nat, q: Request)
    requires IsRun(run, steps) && n < |run| && q in run[n].inFlight && Unchanged(run[n].row, q.pre)
    ensures q.pre.terms == run[n].row.terms && q.pre.status == run[n].row.status
  {
    RunKeeps(run, steps, n);
    hide IsRun;
  }

  /** Nobody activates a relationship but the worker's accept, or a reactivation of one already accepted. */
  lemma OnlyAcceptanceActivates(run: seq<System>, steps: seq<Step>, n: nat)
    requires IsRun(run, steps) && n < |steps|
    requires run[n].row.status != Active && run[n + 1].row.status == Active
    ensures (steps[n].CommitStep? && steps[n].request.call.Accept? && run[n].row.status == PendingWorkerAcceptance) ||
            (steps[n].MoveStep? && run[n].row.status == Suspended)
  {
    RunKeeps(run, steps, n);
    var s, step, s' := run[n], steps[n], run[n + 1];
    assert Next(s, step, s') && Inv(s);
    hide IsRun;
    match step
    case CommitStep(q) =>
      assert PreReadOk(s.row, q);
      hide RowOk;
      hide StartIsFree;
      hide CurrentSchedule;
    case MoveStep(target, _) =>
      TableIsExact(s.row.status, target, Context(SystemActor, NO_PAYLOAD));
    case _ =>
  }

  /** The status that a committed save, submit, accept or reject writes is a move the table permits its actor. */
  lemma WritesArePermitted(run: seq<System>, steps: seq<Step>, n: nat, q: Request)
    requires IsRun(run, steps) && n < |steps| && steps[n] == CommitStep(q) && !q.call.PutSchedule?
    requires run[n + 1].row.status != run[n].row.status
    ensures Permits(RELATIONSHIP_TRANSITIONS, run[n].row.status, run[n + 1].row.status, ContextOf(q.call, q.pre))
  {
    RunKeeps(run, steps, n);
    var s, s' := run[n], run[n + 1];
    assert Next(s, steps[n], s') && PreReadOk(s.row, q);
    hide IsRun;
    var c := ContextOf(q.call, q.pre);
    CurrentIsTheRow(q.pre);
    PublishedOnce(q.pre);
    SubmitArc(s.row.status, c);
    OnlyTheWorkerActivates(s.row.status, c);
    ReturnArc(s.row.status, c);
    SaveReasonHasText();
    hide HasText;
    hide RowOk;
    hide StartIsFree;
    hide CurrentSchedule;
  }

  lemma SaveReasonHasText()
    ensures HasText("The family changed the submitted conditions")
  {
    assert "The family changed the submitted conditions"[0] == 'T';
  }

  // ---------------------------------------------------------------- what the schedule service can do

  /**
   * The status written by the schedule service is a move the table permits, or none, exactly when it read another
   * status than "pending worker acceptance" or the relationship still is in one of the two editable states.
   */
  lemma PutWritesAnArcExactly(r: Relationship, q: Request)
    requires q.call.PutSchedule?
    ensures var r' := After(r, CommitPut(r, q.pre, q.call.rules, q.call.effectiveFrom));
            (r'.status == r.status || Permits(RELATIONSHIP_TRANSITIONS, r.status, r'.status, ContextOf(q.call, q.pre))) <==>
            (q.pre.status != PendingWorkerAcceptance || Editable(r.status))
  {
    ReturnArc(r.status, ContextOf(q.call, q.pre));
    SaveReasonHasText();
    hide HasText;
  }
}
