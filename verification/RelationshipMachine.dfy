/** The transition table of an employment relationship. */
module RelationshipMachine {
  import opened Common
  import opened StateMachine

  datatype RelationshipStatus =
    | Draft
    | PendingWorkerAcceptance
    | PendingConfiguration
    | Active
    | Suspended
    | Terminated
    | Archived

  /** What the guards look at; an absent flag of the source is `false` here, an absent text is empty. */
  datatype RelationshipPayload = RelationshipPayload(
    hasHousehold: bool,
    hasWorkerAcceptance: bool,
    hasEffectiveTerms: bool,
    hasPublishedSchedule: bool,
    hasOpenPayrollPeriods: bool,
    hasDossierExport: bool,
    reason: string,
    terminationDate: string)

  const NO_PAYLOAD := RelationshipPayload(false, false, false, false, false, false, "", "")

  type RelationshipContext = Context<RelationshipPayload>

  type RelationshipTransition = Transition<RelationshipStatus, RelationshipPayload>

  function RequireHousehold(c: RelationshipContext): GuardResult {
    Require(c.payload.hasHousehold, "no household")
  }

  function RequireTermsAndSchedule(c: RelationshipContext): GuardResult {
    if !c.payload.hasEffectiveTerms then Refused("no effective terms")
    else Require(c.payload.hasPublishedSchedule, "no published schedule")
  }

  function RequireAcceptance(c: RelationshipContext): GuardResult {
    Require(c.payload.hasWorkerAcceptance, "no acceptance")
  }

  function RequireReason(c: RelationshipContext): GuardResult {
    Require(HasText(c.payload.reason), "reason required")
  }

  function RequireTermination(c: RelationshipContext): GuardResult {
    if RequireReason(c).Refused? then RequireReason(c)
    else Require(c.payload.terminationDate != "", "termination date required")
  }

  function RequireDossier(c: RelationshipContext): GuardResult {
    if c.payload.hasOpenPayrollPeriods then Refused("open payroll periods")
    else Require(c.payload.hasDossierExport, "no dossier export")
  }

  const RELATIONSHIP_TRANSITIONS: seq<RelationshipTransition> := [
    Guarded(Draft, PendingConfiguration, [FamilyEmployer, SystemActor], RequireHousehold),
    Guarded(PendingConfiguration, PendingWorkerAcceptance, [FamilyEmployer], RequireTermsAndSchedule),
    Guarded(PendingWorkerAcceptance, Active, [Worker], RequireAcceptance),
    Guarded(PendingWorkerAcceptance, PendingConfiguration, [Worker, FamilyEmployer], RequireReason),
    Guarded(Active, Suspended, [FamilyEmployer], RequireReason),
    Arc(Suspended, Active, [FamilyEmployer]),
    Guarded(Active, Terminated, [FamilyEmployer], RequireTermination),
    Guarded(Suspended, Terminated, [FamilyEmployer], RequireTermination),
    Guarded(Terminated, Archived, [PlatformAdmin, SystemActor], RequireDossier),
    Arc(Draft, Archived, [FamilyEmployer])
  ]

  /** Where in the table an arc is; no two arcs share source and target. */
  function ArcIndex(source: RelationshipStatus, target: RelationshipStatus): (i: int)
    ensures i == -1 || (0 <= i < |RELATIONSHIP_TRANSITIONS| &&
                        RELATIONSHIP_TRANSITIONS[i].source == source && RELATIONSHIP_TRANSITIONS[i].target == target)
    ensures forall k :: 0 <= k < |RELATIONSHIP_TRANSITIONS| && k != i ==>
              !(RELATIONSHIP_TRANSITIONS[k].source == source && RELATIONSHIP_TRANSITIONS[k].target == target)
  {
    match source
    case Draft => if target == PendingConfiguration then 0 else if target == Archived then 9 else -1
    case PendingConfiguration => if target == PendingWorkerAcceptance then 1 else -1
    case PendingWorkerAcceptance => if target == Active then 2 else if target == PendingConfiguration then 3 else -1
    case Active => if target == Suspended then 4 else if target == Terminated then 6 else -1
    case Suspended => if target == Active then 5 else if target == Terminated then 7 else -1
    case Terminated => if target == Archived then 8 else -1
    case Archived => -1
  }

  /** The whole table at once: which moves exist, and which one an actor may make. */
  lemma TableIsExact(source: RelationshipStatus, target: RelationshipStatus, c: RelationshipContext)
    ensures var i := ArcIndex(source, target);
            && (HasArc(RELATIONSHIP_TRANSITIONS, source, target) <==> i >= 0)
            && (Permits(RELATIONSHIP_TRANSITIONS, source, target, c) <==> i >= 0 && Takes(RELATIONSHIP_TRANSITIONS[i], c))
  {
    hide Takes;
  }

  /** Who may move a relationship where, and on what condition. */
  predicate MayMove(source: RelationshipStatus, target: RelationshipStatus, c: RelationshipContext) {
    var p := c.payload;
    match (source, target)
    case (Draft, PendingConfiguration) => c.actorRole in {FamilyEmployer, SystemActor} && p.hasHousehold
    case (Draft, Archived) => c.actorRole == FamilyEmployer
    case (PendingConfiguration, PendingWorkerAcceptance) =>
      c.actorRole == FamilyEmployer && p.hasEffectiveTerms && p.hasPublishedSchedule
    case (PendingWorkerAcceptance, Active) => c.actorRole == Worker && p.hasWorkerAcceptance
    case (PendingWorkerAcceptance, PendingConfiguration) => c.actorRole in {Worker, FamilyEmployer} && HasText(p.reason)
    case (Active, Suspended) => c.actorRole == FamilyEmployer && HasText(p.reason)
    case (Suspended, Active) => c.actorRole == FamilyEmployer
    case (Active, Terminated) => c.actorRole == FamilyEmployer && HasText(p.reason) && p.terminationDate != ""
    case (Suspended, Terminated) => c.actorRole == FamilyEmployer && HasText(p.reason) && p.terminationDate != ""
    case (Terminated, Archived) =>
      c.actorRole in {PlatformAdmin, SystemActor} && !p.hasOpenPayrollPeriods && p.hasDossierExport
    case _ => false
  }

  /** The table permits these moves and no others. */
  lemma MovesExactly(source: RelationshipStatus, target: RelationshipStatus, c: RelationshipContext)
    ensures Permits(RELATIONSHIP_TRANSITIONS, source, target, c) <==> MayMove(source, target, c)
  {
    TableIsExact(source, target, c);
    hide HasText;
    hide Permits;
  }

  /** Nobody but the worker activates a relationship that was not active before, and only with terms and acceptance. */
  lemma OnlyTheWorkerActivates(source: RelationshipStatus, c: RelationshipContext)
    ensures Permits(RELATIONSHIP_TRANSITIONS, source, Active, c) <==>
            (source == PendingWorkerAcceptance && c.actorRole == Worker && c.payload.hasWorkerAcceptance) ||
            (source == Suspended && c.actorRole == FamilyEmployer)
  {
    TableIsExact(source, Active, c);
  }

  lemma SubmitArc(source: RelationshipStatus, c: RelationshipContext)
    ensures Permits(RELATIONSHIP_TRANSITIONS, source, PendingWorkerAcceptance, c) <==>
            && source == PendingConfiguration && c.actorRole == FamilyEmployer
            && c.payload.hasEffectiveTerms && c.payload.hasPublishedSchedule
  {
    TableIsExact(source, PendingWorkerAcceptance, c);
  }

  lemma ReturnArc(source: RelationshipStatus, c: RelationshipContext)
    ensures Permits(RELATIONSHIP_TRANSITIONS, source, PendingConfiguration, c) <==>
            || (source == PendingWorkerAcceptance && c.actorRole in [Worker, FamilyEmployer] && HasText(c.payload.reason))
            || (source == Draft && c.actorRole in [FamilyEmployer, SystemActor] && c.payload.hasHousehold)
  {
    TableIsExact(source, PendingConfiguration, c);
    hide HasText;
  }
}
