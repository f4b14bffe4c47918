/** The transition table of a monthly payroll period. */
module PayrollPeriodMachine {
  import opened Common
  import opened StateMachine

  datatype PeriodStatus =
    | Open
    | PendingAttendanceApproval
    | ReadyForCalculation
    | Calculated
    | PendingProfessionalReview
    | Observed
    | Approved
    | PendingArca
    | ArcaDocumentImported
    | PendingPayment
    | Paid
    | Reconciled
    | RectificationRequired
    | Closed

  /** What the guards look at; an absent flag of the source is `false` here. */
  datatype PeriodPayload = PeriodPayload(
    allAttendanceApproved: bool,
    hasBlockingErrors: bool,
    requiresProfessionalReview: bool,
    hasCalculation: bool,
    hasImportedReceipt: bool,
    hasOpenDifferences: bool,
    hasRegisteredPayment: bool,
    reason: string,
    observations: nat)

  type PeriodTransition = Transition<PeriodStatus, PeriodPayload>

  function AllAttendanceApproved(c: Context<PeriodPayload>): GuardResult {
    Require(c.payload.allAttendanceApproved, "attendance still open")
  }

  function NoBlockingErrors(c: Context<PeriodPayload>): GuardResult {
    Require(!c.payload.hasBlockingErrors, "blocking errors")
  }

  function NoOpenDifferences(c: Context<PeriodPayload>): GuardResult {
    Require(!c.payload.hasOpenDifferences, "open differences")
  }

  function RequireReason(c: Context<PeriodPayload>): GuardResult {
    Require(HasText(c.payload.reason), "reason required")
  }

  function RequireCalculation(c: Context<PeriodPayload>): GuardResult {
    Require(c.payload.hasCalculation, "no calculation")
  }

  function RequireReview(c: Context<PeriodPayload>): GuardResult {
    Require(c.payload.requiresProfessionalReview, "no professional review")
  }

  function RequireObservations(c: Context<PeriodPayload>): GuardResult {
    Require(c.payload.observations > 0, "no observations")
  }

  function RequireReceipt(c: Context<PeriodPayload>): GuardResult {
    Require(c.payload.hasImportedReceipt, "no receipt")
  }

  function RequirePayment(c: Context<PeriodPayload>): GuardResult {
    Require(c.payload.hasRegisteredPayment, "no payment")
  }

  function RectifyFrom(source: PeriodStatus): PeriodTransition {
    Guarded(source, RectificationRequired,
            [FamilyEmployer, Accountant, AccountantManager, PlatformAdmin], RequireReason)
  }

  const PERIOD_TRANSITIONS: seq<PeriodTransition> := [
    Arc(Open, PendingAttendanceApproval, [FamilyEmployer, SystemActor]),
    Guarded(Open, ReadyForCalculation, [FamilyEmployer], AllAttendanceApproved),
    Guarded(PendingAttendanceApproval, ReadyForCalculation, [FamilyEmployer], AllAttendanceApproved),
    Guarded(ReadyForCalculation, Calculated, [FamilyEmployer, Accountant, SystemActor], RequireCalculation),
    Guarded(Calculated, PendingProfessionalReview, [FamilyEmployer, SystemActor], RequireReview),
    Guarded(Calculated, Approved, [FamilyEmployer], NoBlockingErrors),
    Guarded(PendingProfessionalReview, Observed, [Accountant, AccountantManager], RequireObservations),
    Guarded(PendingProfessionalReview, Approved, [Accountant, AccountantManager], NoBlockingErrors),
    Arc(Observed, ReadyForCalculation, [FamilyEmployer]),
    Arc(Approved, PendingArca, [FamilyEmployer, Accountant, SystemActor]),
    Guarded(PendingArca, ArcaDocumentImported, [FamilyEmployer, Accountant], RequireReceipt),
    Guarded(ArcaDocumentImported, PendingPayment, [FamilyEmployer, Accountant, SystemActor], NoOpenDifferences),
    Guarded(PendingPayment, Paid, [FamilyEmployer], RequirePayment),
    Guarded(Paid, Reconciled, [FamilyEmployer, Accountant, SystemActor], NoOpenDifferences),
    Arc(Reconciled, Closed, [FamilyEmployer, SystemActor]),
    RectifyFrom(ArcaDocumentImported),
    RectifyFrom(PendingPayment),
    RectifyFrom(Paid),
    RectifyFrom(Reconciled),
    RectifyFrom(Closed),
    Arc(RectificationRequired, ReadyForCalculation, [FamilyEmployer, Accountant, SystemActor])
  ]

  /** Attendance of the period has not been closed yet in these two states. */
  predicate BeforeClose(s: PeriodStatus) {
    s == Open || s == PendingAttendanceApproval
  }

  lemma ArcsBackBeforeClose(i: nat)
    requires i < |PERIOD_TRANSITIONS| && BeforeClose(PERIOD_TRANSITIONS[i].target)
    ensures i == 0
  {
  }

  lemma ArcsFromBeforeClose(i: nat)
    requires i < |PERIOD_TRANSITIONS| && BeforeClose(PERIOD_TRANSITIONS[i].source)
    ensures i <= 2
  {
  }

  lemma ArcsIntoCalculated(i: nat)
    requires i < |PERIOD_TRANSITIONS| && PERIOD_TRANSITIONS[i].target == Calculated
    ensures i == 3
  {
  }

  /** The table never goes back before the attendance close, and the close itself is its only way out. */
  lemma CloseIsAOneWayDoor(source: PeriodStatus, target: PeriodStatus)
    requires HasArc(PERIOD_TRANSITIONS, source, target)
    ensures BeforeClose(target) ==> source == Open && target == PendingAttendanceApproval
    ensures BeforeClose(source) && !BeforeClose(target) ==> target == ReadyForCalculation
    ensures target == Calculated ==> source == ReadyForCalculation
  {
    var i :| 0 <= i < |PERIOD_TRANSITIONS| &&
             PERIOD_TRANSITIONS[i].source == source && PERIOD_TRANSITIONS[i].target == target;
    if BeforeClose(target) {
      ArcsBackBeforeClose(i);
    } else if BeforeClose(source) {
      ArcsFromBeforeClose(i);
      assert i == 0 || i == 1 || i == 2;
    } else if target == Calculated {
      ArcsIntoCalculated(i);
    }
  }

  /** The table's own test for the write of the attendance close. */
  lemma CloseArc(source: PeriodStatus, ctx: Context<PeriodPayload>)
    requires BeforeClose(source)
    ensures Permits(PERIOD_TRANSITIONS, source, ReadyForCalculation, ctx) <==>
            ctx.actorRole == FamilyEmployer && ctx.payload.allAttendanceApproved
  {
    var t := if source == Open then 1 else 2;
    assert PERIOD_TRANSITIONS[t].source == source && PERIOD_TRANSITIONS[t].target == ReadyForCalculation;
    assert Takes(PERIOD_TRANSITIONS[t], ctx) <==> ctx.actorRole == FamilyEmployer && ctx.payload.allAttendanceApproved;
    forall i | 0 <= i < |PERIOD_TRANSITIONS| && PERIOD_TRANSITIONS[i].source == source &&
               PERIOD_TRANSITIONS[i].target == ReadyForCalculation
      ensures i == t
    {
    }
  }

  /** The table's own test for the write of the calculation. */
  lemma CalculateArc(ctx: Context<PeriodPayload>)
    ensures Permits(PERIOD_TRANSITIONS, ReadyForCalculation, Calculated, ctx) <==>
            ctx.actorRole in [FamilyEmployer, Accountant, SystemActor] && ctx.payload.hasCalculation
  {
    assert PERIOD_TRANSITIONS[3].source == ReadyForCalculation && PERIOD_TRANSITIONS[3].target == Calculated;
    assert Takes(PERIOD_TRANSITIONS[3], ctx) <==>
           ctx.actorRole in [FamilyEmployer, Accountant, SystemActor] && ctx.payload.hasCalculation;
    forall i | 0 <= i < |PERIOD_TRANSITIONS| && PERIOD_TRANSITIONS[i].source == ReadyForCalculation
      ensures i == 3
    {
    }
  }

  // ---------------------------------------------------------------- the whole table

  /** Where in the table an arc is; no two arcs share source and target. */
  function ArcIndex(source: PeriodStatus, target: PeriodStatus): int {
    match (source, target)
    case (Open, PendingAttendanceApproval) => 0
    case (Open, ReadyForCalculation) => 1
    case (PendingAttendanceApproval, ReadyForCalculation) => 2
    case (ReadyForCalculation, Calculated) => 3
    case (Calculated, PendingProfessionalReview) => 4
    case (Calculated, Approved) => 5
    case (PendingProfessionalReview, Observed) => 6
    case (PendingProfessionalReview, Approved) => 7
    case (Observed, ReadyForCalculation) => 8
    case (Approved, PendingArca) => 9
    case (PendingArca, ArcaDocumentImported) => 10
    case (ArcaDocumentImported, PendingPayment) => 11
    case (PendingPayment, Paid) => 12
    case (Paid, Reconciled) => 13
    case (Reconciled, Closed) => 14
    case (ArcaDocumentImported, RectificationRequired) => 15
    case (PendingPayment, RectificationRequired) => 16
    case (Paid, RectificationRequired) => 17
    case (Reconciled, RectificationRequired) => 18
    case (Closed, RectificationRequired) => 19
    case (RectificationRequired, ReadyForCalculation) => 20
    case _ => -1
  }

  lemma ArcsAreWhereTheyAre(k: nat)
    requires k < |PERIOD_TRANSITIONS|
    ensures ArcIndex(PERIOD_TRANSITIONS[k].source, PERIOD_TRANSITIONS[k].target) == k
  {
  }

  lemma IndexedArc(source: PeriodStatus, target: PeriodStatus)
    ensures var i := ArcIndex(source, target);
            i != -1 ==> 0 <= i < |PERIOD_TRANSITIONS| && PERIOD_TRANSITIONS[i].source == source && PERIOD_TRANSITIONS[i].target == target
  {
  }

  /** Who may move a period where, and on what condition. */
  predicate MayMove(source: PeriodStatus, target: PeriodStatus, c: Context<PeriodPayload>) {
    var role, p := c.actorRole, c.payload;
    match target
    case PendingAttendanceApproval => source == Open && role in {FamilyEmployer, SystemActor}
    case ReadyForCalculation =>
      || (source in {Open, PendingAttendanceApproval} && role == FamilyEmployer && p.allAttendanceApproved)
      || (source == Observed && role == FamilyEmployer)
      || (source == RectificationRequired && role in {FamilyEmployer, Accountant, SystemActor})
    case Calculated => source == ReadyForCalculation && role in {FamilyEmployer, Accountant, SystemActor} && p.hasCalculation
    case PendingProfessionalReview => source == Calculated && role in {FamilyEmployer, SystemActor} && p.requiresProfessionalReview
    case Observed => source == PendingProfessionalReview && role in {Accountant, AccountantManager} && p.observations > 0
    case Approved =>
      && !p.hasBlockingErrors
      && ((source == Calculated && role == FamilyEmployer) ||
          (source == PendingProfessionalReview && role in {Accountant, AccountantManager}))
    case PendingArca => source == Approved && role in {FamilyEmployer, Accountant, SystemActor}
    case ArcaDocumentImported => source == PendingArca && role in {FamilyEmployer, Accountant} && p.hasImportedReceipt
    case PendingPayment => source == ArcaDocumentImported && role in {FamilyEmployer, Accountant, SystemActor} && !p.hasOpenDifferences
    case Paid => source == PendingPayment && role == FamilyEmployer && p.hasRegisteredPayment
    case Reconciled => source == Paid && role in {FamilyEmployer, Accountant, SystemActor} && !p.hasOpenDifferences
    case Closed => source == Reconciled && role in {FamilyEmployer, SystemActor}
    case RectificationRequired =>
      && source in {ArcaDocumentImported, PendingPayment, Paid, Reconciled, Closed}
      && role in {FamilyEmployer, Accountant, AccountantManager, PlatformAdmin} && HasText(p.reason)
    case Open => false
  }

  lemma TakesExactlyEarly(k: nat, c: Context<PeriodPayload>)
    requires k < 5
    ensures Takes(PERIOD_TRANSITIONS[k], c) <==> MayMove(PERIOD_TRANSITIONS[k].source, PERIOD_TRANSITIONS[k].target, c)
  {
    hide HasText;
  }

  lemma TakesExactlyMiddle(k: nat, c: Context<PeriodPayload>)
    requires 5 <= k < 10
    ensures Takes(PERIOD_TRANSITIONS[k], c) <==> MayMove(PERIOD_TRANSITIONS[k].source, PERIOD_TRANSITIONS[k].target, c)
  {
    hide HasText;
  }

  lemma TakesExactlyLate(k: nat, c: Context<PeriodPayload>)
    requires 10 <= k < 15
    ensures Takes(PERIOD_TRANSITIONS[k], c) <==> MayMove(PERIOD_TRANSITIONS[k].source, PERIOD_TRANSITIONS[k].target, c)
  {
    hide HasText;
  }

  lemma TakesExactlyRectifying(k: nat, c: Context<PeriodPayload>)
    requires 15 <= k && k < |PERIOD_TRANSITIONS|
    ensures Takes(PERIOD_TRANSITIONS[k], c) <==> MayMove(PERIOD_TRANSITIONS[k].source, PERIOD_TRANSITIONS[k].target, c)
  {
    hide HasText;
  }

  lemma TakesExactly(k: nat, c: Context<PeriodPayload>)
    requires k < |PERIOD_TRANSITIONS|
    ensures Takes(PERIOD_TRANSITIONS[k], c) <==> MayMove(PERIOD_TRANSITIONS[k].source, PERIOD_TRANSITIONS[k].target, c)
  {
    hide Takes;
    hide MayMove;
    if k < 5 {
      TakesExactlyEarly(k, c);
    } else if k < 10 {
      TakesExactlyMiddle(k, c);
    } else if k < 15 {
      TakesExactlyLate(k, c);
    } else {
      TakesExactlyRectifying(k, c);
    }
  }

  lemma {:induction false} NoOtherArc(source: PeriodStatus, target: PeriodStatus, c: Context<PeriodPayload>)
    requires ArcIndex(source, target) == -1
    ensures !MayMove(source, target, c)
  {
    hide HasText;
  }

  /** The table permits these moves and no others. */
  lemma MovesExactly(source: PeriodStatus, target: PeriodStatus, c: Context<PeriodPayload>)
    ensures Permits(PERIOD_TRANSITIONS, source, target, c) <==> MayMove(source, target, c)
  {
    hide ArcIndex;
    hide MayMove;
    hide Takes;
    IndexedArc(source, target);
    var i := ArcIndex(source, target);
    forall k: nat | k < |PERIOD_TRANSITIONS| && PERIOD_TRANSITIONS[k].source == source && PERIOD_TRANSITIONS[k].target == target
      ensures k == i && (Takes(PERIOD_TRANSITIONS[k], c) <==> MayMove(source, target, c))
    {
      ArcsAreWhereTheyAre(k);
      TakesExactly(k, c);
    }
    if i == -1 {
      NoOtherArc(source, target, c);
    }
  }
}
