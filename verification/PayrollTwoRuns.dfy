/** Two-run results: what a change of the input cannot disturb. */
module PayrollTwoRuns {
  import opened Common
  import opened Decimals
  import opened Money
  import opened PayrollConservation
  import opened PayrollEngine
  import opened PayrollParameters
  import Sorting

  /** The two inputs differ at most in events, overtime entries, concepts, contributions and work-risk insurance. */
  predicate Alike(i: PayrollInput, j: PayrollInput) {
    j == i.(events := j.events, overtime := j.overtime, concepts := j.concepts,
            parameters := i.parameters.(contributions := j.parameters.contributions, workRisk := j.parameters.workRisk))
  }

  lemma AlikeAmounts(i: PayrollInput, j: PayrollInput)
    requires Alike(i, j)
    ensures forall x :: RoundConcept(i, x) == RoundConcept(j, x)
    ensures forall x :: RoundTotal(i, x) == RoundTotal(j, x)
    ensures HourlyValue(i) == HourlyValue(j) && BaseAmount(i) == BaseAmount(j) && BaseLine(i) == BaseLine(j)
    ensures HolidayLines(i) == HolidayLines(j) && ZoneLines(i) == ZoneLines(j) && BonusLines(i) == BonusLines(j)
    ensures TierOf(i) == TierOf(j)
  {
    hide RoundTo;
    hide Multiply;
    hide Divide;
    hide ToHours;
    hide PayrollParameters.FindTier;
  }

  lemma {:induction false} AlikeOvertime(i: PayrollInput, j: PayrollInput, entries: seq<OvertimeEntry>)
    requires Alike(i, j)
    ensures OvertimeLines(i, entries) == OvertimeLines(j, entries)
    ensures OvertimeWarnings(i, entries) == OvertimeWarnings(j, entries)
  {
    if entries != [] {
      AlikeOvertime(i, j, entries[..|entries| - 1]);
      AlikeAmounts(i, j);
      hide RoundConcept;
      hide HourlyValue;
      var e := entries[|entries| - 1];
      assert KindOf(i, e.kindCode) == KindOf(j, e.kindCode);
      assert OvertimeLine(i, e) == OvertimeLine(j, e);
    }
  }

  lemma SameConceptRounding(i: PayrollInput, j: PayrollInput)
    requires i.parameters.rounding == j.parameters.rounding
    ensures forall x :: RoundConcept(i, x) == RoundConcept(j, x)
  {
    hide RoundTo;
  }

  lemma {:induction false} AlikeAdvances(i: PayrollInput, j: PayrollInput, events: seq<Event>)
    requires i.parameters.rounding == j.parameters.rounding
    ensures AdvanceLines(i, events) == AdvanceLines(j, events)
  {
    if events != [] {
      AlikeAdvances(i, j, events[..|events| - 1]);
      SameConceptRounding(i, j);
      hide RoundConcept;
      assert AdvanceLine(i, events[|events| - 1]) == AdvanceLine(j, events[|events| - 1]);
    }
  }

  lemma {:induction false} AlikeConcepts(i: PayrollInput, j: PayrollInput, concepts: seq<Concept>)
    requires i.parameters.rounding == j.parameters.rounding
    ensures ConceptLines(i, concepts) == ConceptLines(j, concepts)
  {
    if concepts != [] {
      AlikeConcepts(i, j, concepts[..|concepts| - 1]);
      SameConceptRounding(i, j);
      hide RoundConcept;
      hide HasText;
      assert ConceptLine(i, concepts[|concepts| - 1]) == ConceptLine(j, concepts[|concepts| - 1]);
    }
  }

  lemma {:induction false} AlikeContributions(i: PayrollInput, j: PayrollInput, start: Amount, cs: seq<Contribution>, gross: Amount)
    requires Alike(i, j)
    ensures ContributionLines(i, cs, gross) == ContributionLines(j, cs, gross)
    ensures Obligations(i, cs, gross) == Obligations(j, cs, gross)
    ensures RunningDeductions(i, start, cs, gross) == RunningDeductions(j, start, cs, gross)
  {
    if cs != [] {
      AlikeContributions(i, j, start, cs[..|cs| - 1], gross);
      AlikeAmounts(i, j);
      hide RoundConcept;
      hide Add;
      hide ApplyPercentage;
    }
  }

  /** Alike, with the same concepts, the same liquidated overtime and the same approved days. */
  predicate SameWork(i: PayrollInput, j: PayrollInput) {
    && Alike(i, j) && i.concepts == j.concepts
    && OvertimeLines(i, EnabledOvertime(i)) == OvertimeLines(j, EnabledOvertime(j))
    && ApprovedDays(i.events, Vacation) == ApprovedDays(j.events, Vacation)
    && ApprovedDays(i.events, AbsenceUnjustified) == ApprovedDays(j.events, AbsenceUnjustified)
    && ApprovedDays(i.events, UnpaidLeave) == ApprovedDays(j.events, UnpaidLeave)
  }

  /** The lines in place when the gross is taken, apart from the advances. */
  function BeforeAdvances(i: PayrollInput): seq<Line> {
    [BaseLine(i)] + OvertimeLines(i, EnabledOvertime(i)) + HolidayLines(i) + SeniorityLines(i) + ZoneLines(i) +
    VacationLines(i) + BonusLines(i) + AbsenceLines(i)
  }

  lemma SameSeniority(i: PayrollInput, j: PayrollInput)
    requires Alike(i, j) && OvertimeLines(i, EnabledOvertime(i)) == OvertimeLines(j, EnabledOvertime(j))
    ensures SeniorityLines(i) == SeniorityLines(j)
  {
    AlikeAmounts(i, j);
    assert OvertimeTotal(i) == OvertimeTotal(j) by {
      hide OvertimeLines;
      hide EnabledOvertime;
      hide Sum;
    }
    hide OvertimeTotal;
    hide RoundConcept;
    hide BaseAmount;
    hide OvertimeLines;
    hide TierOf;
    hide Add;
    hide ApplyPercentage;
  }

  lemma SameLeave(i: PayrollInput, j: PayrollInput)
    requires Alike(i, j) && ApprovedDays(i.events, Vacation) == ApprovedDays(j.events, Vacation) && UnpaidDays(i) == UnpaidDays(j)
    ensures VacationLines(i) == VacationLines(j) && AbsenceLines(i) == AbsenceLines(j)
  {
    AlikeAmounts(i, j);
    hide RoundConcept;
    hide ApprovedDays;
    hide UnpaidDays;
    hide Multiply;
    hide Quotient;
  }

  lemma EarlyLinesSplit(i: PayrollInput)
    ensures EarlyLines(i) == BeforeAdvances(i) + AdvanceLines(i, i.events) + ConceptLines(i, i.concepts)
  {
    hide BaseLine;
    hide OvertimeLines;
    hide HolidayLines;
    hide SeniorityLines;
    hide ZoneLines;
    hide VacationLines;
    hide BonusLines;
    hide AbsenceLines;
    hide AdvanceLines;
    hide ConceptLines;
  }

  /** What comes before the advances depends on neither advances nor concepts. */
  lemma SameBefore(i: PayrollInput, j: PayrollInput)
    requires Alike(i, j) && OvertimeLines(i, EnabledOvertime(i)) == OvertimeLines(j, EnabledOvertime(j))
    requires ApprovedDays(i.events, Vacation) == ApprovedDays(j.events, Vacation) && UnpaidDays(i) == UnpaidDays(j)
    ensures BeforeAdvances(i) == BeforeAdvances(j)
  {
    hide OvertimeLines;
    hide UnpaidDays;
    hide ApprovedDays;
    AlikeAmounts(i, j);
    SameSeniority(i, j);
    SameLeave(i, j);
    hide BaseLine;
    hide HolidayLines;
    hide SeniorityLines;
    hide ZoneLines;
    hide VacationLines;
    hide BonusLines;
    hide AbsenceLines;
  }

  lemma SameWorkSameLines(i: PayrollInput, j: PayrollInput)
    requires SameWork(i, j)
    ensures BeforeAdvances(i) == BeforeAdvances(j)
    ensures ConceptLines(i, i.concepts) == ConceptLines(j, j.concepts)
    ensures EarlyLines(i) == BeforeAdvances(i) + AdvanceLines(i, i.events) + ConceptLines(i, i.concepts)
    ensures EarlyLines(j) == BeforeAdvances(i) + AdvanceLines(i, j.events) + ConceptLines(i, i.concepts)
  {
    assert Alike(i, j) && i.concepts == j.concepts;
    assert OvertimeLines(i, EnabledOvertime(i)) == OvertimeLines(j, EnabledOvertime(j));
    assert ApprovedDays(i.events, Vacation) == ApprovedDays(j.events, Vacation) && UnpaidDays(i) == UnpaidDays(j);
    assert i.parameters.rounding == j.parameters.rounding;
    hide *;
    SameBefore(i, j);
    AlikeConcepts(i, j, i.concepts);
    AlikeAdvances(i, j, j.events);
    EarlyLinesSplit(i);
    EarlyLinesSplit(j);
  }

  // ---------------------------------------------------------------- deleting events that are not approved

  function ApprovedEvents(events: seq<Event>): seq<Event> {
    if events == [] then []
    else
      var e := events[|events| - 1];
      ApprovedEvents(events[..|events| - 1]) + (if e.approved then [e] else [])
  }

  lemma OneMoreDay(events: seq<Event>, e: Event, kind: EventType)
    ensures ApprovedDays(events + [e], kind) == ApprovedDays(events, kind) + (if e.kind == kind && e.approved then e.days else 0)
  {
    assert (events + [e])[..|events|] == events;
  }

  lemma OneMoreAdvance(i: PayrollInput, events: seq<Event>, e: Event)
    ensures AdvanceLines(i, events + [e]) == AdvanceLines(i, events) + AdvanceLine(i, e)
  {
    hide AdvanceLine;
    assert (events + [e])[..|events|] == events;
  }

  lemma OneIgnored(events: seq<Event>, e: Event, kind: EventType)
    ensures e.approved ==> IgnoredEvents(events + [e], kind) == IgnoredEvents(events, kind)
  {
    assert (events + [e])[..|events|] == events;
  }

  lemma KeptEvents(events: seq<Event>)
    requires events != []
    ensures var front, e := events[..|events| - 1], events[|events| - 1];
            && ApprovedEvents(events) == (if e.approved then ApprovedEvents(front) + [e] else ApprovedEvents(front))
            && events == front + [e]
  {
  }

  lemma {:induction false} ApprovedDaysMatter(events: seq<Event>, kind: EventType)
    ensures ApprovedDays(ApprovedEvents(events), kind) == ApprovedDays(events, kind)
    ensures IgnoredEvents(ApprovedEvents(events), kind) == []
  {
    if events != [] {
      hide *;
      var front, e := events[..|events| - 1], events[|events| - 1];
      KeptEvents(events);
      ApprovedDaysMatter(front, kind);
      OneMoreDay(front, e, kind);
      OneMoreDay(ApprovedEvents(front), e, kind);
      OneIgnored(ApprovedEvents(front), e, kind);
    }
  }

  lemma {:induction false} ApprovedAdvancesMatter(i: PayrollInput, events: seq<Event>)
    ensures AdvanceLines(i, ApprovedEvents(events)) == AdvanceLines(i, events)
  {
    hide RoundConcept;
    if events != [] {
      var front, e := events[..|events| - 1], events[|events| - 1];
      ApprovedAdvancesMatter(i, front);
      if e.approved {
        assert ApprovedEvents(events) == ApprovedEvents(front) + [e];
        OneMoreAdvance(i, ApprovedEvents(front), e);
      } else {
        assert ApprovedEvents(events) == ApprovedEvents(front);
      }
    }
  }

  /** The same end and, when there is a result, the same gross, deductions and net. */
  predicate SameTotals(a: Outcome, b: Outcome) {
    && a.Done? == b.Done?
    && (a.Done? ==>
          (a.result.gross, a.result.deductions, a.result.net) == (b.result.gross, b.result.deductions, b.result.net))
  }

  /** Equal parts make equal totals of the outcome, with or without a scale. */
  lemma TotalsOfOutcomes(i: PayrollInput, j: PayrollInput)
    requires (i.categoryCode, i.liveInMode, i.parameters.categories) == (j.categoryCode, j.liveInMode, j.parameters.categories)
    requires Computable(i) <==> Computable(j)
    requires Computable(i) ==> (Gross(i), Deductions(i), Net(i)) == (Gross(j), Deductions(j), Net(j))
    ensures SameTotals(Payroll(i), Payroll(j))
  {
    assert HasScale(i) <==> HasScale(j);
    OutcomeTotals(i);
    OutcomeTotals(j);
    hide HasScale;
    hide Computable;
    hide Payroll;
    hide Gross;
    hide Deductions;
    hide Net;
  }

  /** What a result owes to the approved part of its input: everything but the warnings. */
  predicate SameButWarnings(a: Outcome, b: Outcome) {
    && a.Done? == b.Done?
    && (a.Done? ==> a.result.(warnings := []) == b.result.(warnings := []))
  }

  /** Events that are not approved leave no trace outside the warnings. */
  lemma UnapprovedEventsDoNotMatter(i: PayrollInput)
    ensures SameButWarnings(Payroll(i), Payroll(i.(events := ApprovedEvents(i.events))))
  {
    var j := i.(events := ApprovedEvents(i.events));
    ApprovedDaysMatter(i.events, Vacation);
    ApprovedDaysMatter(i.events, AbsenceUnjustified);
    ApprovedDaysMatter(i.events, UnpaidLeave);
    ApprovedAdvancesMatter(i, i.events);
    SameOvertime(i, j);
    SameWorkSameLines(i, j);
    SameResult(i, j);
  }

  lemma SameOvertime(i: PayrollInput, j: PayrollInput)
    requires Alike(i, j) && i.overtime == j.overtime
    ensures OvertimeLines(i, EnabledOvertime(i)) == OvertimeLines(j, EnabledOvertime(j))
    ensures EnabledOvertimeWarnings(i) == EnabledOvertimeWarnings(j)
  {
    AlikeOvertime(i, j, i.overtime);
    AlikeOvertime(i, j, []);
    hide OvertimeLines;
    hide OvertimeWarnings;
  }

  /** Whether anything throws, and what the legal checks say. */
  lemma SameChecks(i: PayrollInput, j: PayrollInput)
    requires SameWork(i, j) && i.parameters == j.parameters
    requires (forall k :: 0 <= k < |i.overtime| && Liquidated(i, i.overtime[k]) ==> i.overtime[k].minutes >= 0) <==>
             (forall k :: 0 <= k < |j.overtime| && Liquidated(j, j.overtime[k]) ==> j.overtime[k].minutes >= 0)
    ensures Computable(i) <==> Computable(j)
    ensures HasScale(i) <==> HasScale(j)
    ensures PreviousErrors(i) == PreviousErrors(j) && (HasScale(i) ==> MinimumErrors(i) == MinimumErrors(j))
    ensures FixtureWarnings(i) == FixtureWarnings(j)
  {
    hide OvertimeLines;
    hide ApprovedDays;
    hide Liquidated;
    hide Problems;
  }

  /** The same lines before the contributions make the same result. */
  lemma SameResult(i: PayrollInput, j: PayrollInput)
    requires SameWork(i, j) && i.parameters == j.parameters && i.overtime == j.overtime
    requires EarlyLines(i) == EarlyLines(j)
    ensures SameButWarnings(Payroll(i), Payroll(j))
  {
    AlikeLiquidated(i, j);
    hide OvertimeLines;
    hide EarlyLines;
    hide ApprovedDays;
    hide Liquidated;
    assert Alike(i, j) && i.concepts == j.concepts;
    hide SameButWarnings;
    SameChecks(i, j);
    SameParts(i, j);
    hide *;
    SameOutcome(i, j);
  }

  lemma AlikeLiquidated(i: PayrollInput, j: PayrollInput)
    requires Alike(i, j)
    ensures forall e :: Liquidated(i, e) == Liquidated(j, e)
  {
    forall e ensures Liquidated(i, e) == Liquidated(j, e) {
      assert KindOf(i, e.kindCode) == KindOf(j, e.kindCode);
    }
  }

  lemma SameGross(i: PayrollInput, j: PayrollInput)
    requires Alike(i, j) && EarlyLines(i) == EarlyLines(j)
    ensures Gross(i) == Gross(j)
  {
    AlikeAmounts(i, j);
    hide EarlyLines;
    hide RoundTotal;
    hide Sum;
    hide Amounts;
    hide Alike;
  }

  lemma SameRisk(i: PayrollInput, j: PayrollInput, gross: Amount)
    requires Alike(i, j) && i.parameters == j.parameters
    ensures WorkRiskLines(i, gross) == WorkRiskLines(j, gross)
    ensures WorkRiskObligations(i, gross) == WorkRiskObligations(j, gross)
  {
    AlikeAmounts(i, j);
    hide RoundConcept;
    hide ApplyPercentage;
  }

  lemma SameParts(i: PayrollInput, j: PayrollInput)
    requires Alike(i, j) && i.parameters == j.parameters && EarlyLines(i) == EarlyLines(j)
    ensures AllLines(i) == AllLines(j) && Gross(i) == Gross(j) && Deductions(i) == Deductions(j) && Net(i) == Net(j)
    ensures Obligations(i, i.parameters.contributions, Gross(i)) == Obligations(j, j.parameters.contributions, Gross(j))
    ensures WorkRiskObligations(i, Gross(i)) == WorkRiskObligations(j, Gross(j))
  {
    SameGross(i, j);
    hide Gross;
    var start := Sum(Amounts(EarlyLines(i), Debit));
    AlikeContributions(i, j, start, i.parameters.contributions, Gross(i));
    SameRisk(i, j, Gross(i));
    EqualTotals(i, j, start);
    hide Alike;
    hide EarlyLines;
    hide Deductions;
    hide Net;
    hide ContributionLines;
    hide RunningDeductions;
    hide Obligations;
    hide WorkRiskLines;
    hide WorkRiskObligations;
    hide Sum;
    hide Amounts;
  }

  // ---------------------------------------------------------------- dropping overtime entries of zero minutes

  function NonZero(entries: seq<OvertimeEntry>): (r: seq<OvertimeEntry>)
    ensures forall e :: e in r <==> e in entries && e.minutes != 0
  {
    if entries == [] then []
    else
      var front, e := entries[..|entries| - 1], entries[|entries| - 1];
      assert entries == front + [e];
      NonZero(front) + (if e.minutes != 0 then [e] else [])
  }

  lemma OneMoreEntry(i: PayrollInput, entries: seq<OvertimeEntry>, e: OvertimeEntry)
    ensures OvertimeLines(i, entries + [e]) == OvertimeLines(i, entries) + OvertimeLine(i, e)
    ensures OvertimeWarnings(i, entries + [e]) ==
            OvertimeWarnings(i, entries) + (if e.minutes != 0 && KindOf(i, e.kindCode) == [] then [UnknownOvertimeKind(e.kindCode)] else [])
    ensures NonZero(entries + [e]) == NonZero(entries) + (if e.minutes != 0 then [e] else [])
    ensures e.minutes == 0 ==> OvertimeLine(i, e) == []
  {
    hide KindOf;
    hide OvertimeAmount;
    hide HourlyValue;
    assert (entries + [e])[..|entries|] == entries;
  }

  lemma NonZeroOfNone()
    ensures NonZero([]) == []
  {
  }

  lemma {:induction false} NonZeroMatter(i: PayrollInput, entries: seq<OvertimeEntry>)
    ensures OvertimeLines(i, NonZero(entries)) == OvertimeLines(i, entries)
    ensures OvertimeWarnings(i, NonZero(entries)) == OvertimeWarnings(i, entries)
  {
    hide *;
    NonZeroOfNone();
    if entries != [] {
      var front, e := entries[..|entries| - 1], entries[|entries| - 1];
      assert entries == front + [e];
      var kept := NonZero(front);
      NonZeroMatter(i, front);
      OneMoreEntry(i, front, e);
      OneMoreEntry(i, kept, e);
      if e.minutes == 0 {
        assert kept + [] == kept && OvertimeLines(i, front) + [] == OvertimeLines(i, front);
        assert OvertimeWarnings(i, front) + [] == OvertimeWarnings(i, front);
      }
    }
  }

  /** The sign checks of overtime are about entries, not positions. */
  lemma EntriesByMembership(i: PayrollInput, j: PayrollInput)
    requires j == i.(overtime := NonZero(i.overtime))
    ensures (forall k :: 0 <= k < |i.overtime| && Liquidated(i, i.overtime[k]) ==> i.overtime[k].minutes >= 0) <==>
            (forall k :: 0 <= k < |j.overtime| && Liquidated(j, j.overtime[k]) ==> j.overtime[k].minutes >= 0)
    ensures (exists k :: 0 <= k < |i.overtime| && i.overtime[k].minutes > 0) <==>
            (exists k :: 0 <= k < |j.overtime| && j.overtime[k].minutes > 0)
  {
    AlikeLiquidated(i, j);
    assert forall k | 0 <= k < |i.overtime| :: i.overtime[k].minutes != 0 ==> i.overtime[k] in j.overtime;
    assert forall k | 0 <= k < |j.overtime| :: j.overtime[k] in i.overtime && j.overtime[k].minutes != 0;
    assert forall e :: e in i.overtime ==> exists k :: 0 <= k < |i.overtime| && i.overtime[k] == e;
    assert forall e :: e in j.overtime ==> exists k :: 0 <= k < |j.overtime| && j.overtime[k] == e;
    assert forall e :: Liquidated(i, e) ==> e.minutes != 0;
    hide Liquidated;
  }

  lemma ZeroOvertimeWarnings(i: PayrollInput)
    ensures EnabledOvertimeWarnings(i) == EnabledOvertimeWarnings(i.(overtime := NonZero(i.overtime)))
  {
    hide Liquidated;
    hide OvertimeLines;
    hide OvertimeWarnings;
    hide NonZero;
    hide HourlyValue;
    hide KindOf;
    var j := i.(overtime := NonZero(i.overtime));
    NonZeroMatter(i, i.overtime);
    AlikeOvertime(i, j, j.overtime);
    EntriesByMembership(i, j);
  }

  lemma ZeroOvertimeIsSameWork(i: PayrollInput)
    ensures SameWork(i, i.(overtime := NonZero(i.overtime)))
  {
    var j := i.(overtime := NonZero(i.overtime));
    NonZeroMatter(i, i.overtime);
    AlikeOvertime(i, j, j.overtime);
    AlikeOvertime(i, j, []);
    hide OvertimeLines;
    hide OvertimeWarnings;
    hide NonZero;
    hide ApprovedDays;
  }

  lemma AlikeWarnings(i: PayrollInput, j: PayrollInput)
    requires Alike(i, j) && i.events == j.events && i.concepts == j.concepts
    requires EnabledOvertimeWarnings(i) == EnabledOvertimeWarnings(j)
    ensures MiddleWarnings(i) == MiddleWarnings(j)
  {
    AlikeAmounts(i, j);
    assert SupplementWarnings(i) == SupplementWarnings(j) by { hide TierOf; }
    hide SupplementWarnings;
    hide EnabledOvertimeWarnings;
    hide IgnoredEvents;
    hide ConceptWarnings;
  }

  /** The same totals and the same checks make the same outcome. */
  lemma SameOutcome(i: PayrollInput, j: PayrollInput)
    requires HasScale(i) == HasScale(j) && Computable(i) == Computable(j)
    requires AllLines(i) == AllLines(j) && Gross(i) == Gross(j) && Deductions(i) == Deductions(j) && Net(i) == Net(j)
    requires Obligations(i, i.parameters.contributions, Gross(i)) == Obligations(j, j.parameters.contributions, Gross(j))
    requires WorkRiskObligations(i, Gross(i)) == WorkRiskObligations(j, Gross(j))
    requires PreviousErrors(i) == PreviousErrors(j) && (HasScale(i) ==> MinimumErrors(i) == MinimumErrors(j))
    requires ConceptErrors(i.concepts) == ConceptErrors(j.concepts)
    requires FixtureWarnings(i) == FixtureWarnings(j)
    ensures SameButWarnings(Payroll(i), Payroll(j))
    ensures MiddleWarnings(i) == MiddleWarnings(j) ==> Payroll(i) == Payroll(j)
  {
    hide AllLines;
    hide Gross;
    hide Deductions;
    hide Net;
    hide Obligations;
    hide WorkRiskObligations;
    hide Computable;
    hide HasScale;
    hide PreviousErrors;
    hide MinimumErrors;
    hide FixtureWarnings;
    hide MiddleWarnings;
    hide ConceptErrors;
  }

  /** Overtime entries of zero minutes leave no trace at all. */
  lemma ZeroOvertimeDoesNotMatter(i: PayrollInput)
    ensures Payroll(i) == Payroll(i.(overtime := NonZero(i.overtime)))
  {
    var j := i.(overtime := NonZero(i.overtime));
    assert Alike(i, j) && i.parameters == j.parameters;
    hide *;
    ZeroOvertimeIsSameWork(i);
    ZeroOvertimeWarnings(i);
    EntriesByMembership(i, j);
    AlikeWarnings(i, j);
    SameWorkSameLines(i, j);
    AlikeAdvances(i, j, i.events);
    SameChecks(i, j);
    SameParts(i, j);
    SameOutcome(i, j);
  }

  // ---------------------------------------------------------------- the employer's side

  /** The contributions that the worker bears, in order. */
  function WorkerSide(cs: seq<Contribution>): seq<Contribution> {
    if cs == [] then []
    else
      var c := cs[|cs| - 1];
      WorkerSide(cs[..|cs| - 1]) + (if c.borneByWorker then [c] else [])
  }

  lemma OneMoreContribution(i: PayrollInput, start: Amount, cs: seq<Contribution>, c: Contribution, gross: Amount)
    ensures RunningDeductions(i, start, cs + [c], gross) ==
            if c.borneByWorker then Add(RunningDeductions(i, start, cs, gross), ContributionAmount(i, c, gross))
            else RunningDeductions(i, start, cs, gross)
    ensures WorkerSide(cs + [c]) == WorkerSide(cs) + (if c.borneByWorker then [c] else [])
  {
    hide ContributionAmount;
    hide Add;
    assert (cs + [c])[..|cs|] == cs;
  }

  lemma NoWorkerSide()
    ensures WorkerSide([]) == []
  {
  }

  lemma {:induction false} OnlyTheWorkerSideCounts(i: PayrollInput, start: Amount, cs: seq<Contribution>, gross: Amount)
    ensures RunningDeductions(i, start, cs, gross) == RunningDeductions(i, start, WorkerSide(cs), gross)
  {
    if cs == [] {
      NoWorkerSide();
      hide *;
    } else {
      hide *;
      var front, c := cs[..|cs| - 1], cs[|cs| - 1];
      assert cs == front + [c];
      OnlyTheWorkerSideCounts(i, start, front, gross);
      OneMoreContribution(i, start, front, c, gross);
      OneMoreContribution(i, start, WorkerSide(front), c, gross);
      assert WorkerSide(front) + [] == WorkerSide(front);
    }
  }

  /** Employer contributions and work-risk insurance do not touch what the worker is paid. */
  lemma EmployerSideDoesNotMatter(i: PayrollInput, cs: seq<Contribution>, workRisk: WorkRiskRule)
    requires WorkerSide(cs) == WorkerSide(i.parameters.contributions)
    ensures SameTotals(Payroll(i), Payroll(i.(parameters := i.parameters.(contributions := cs, workRisk := workRisk))))
  {
    var j := i.(parameters := i.parameters.(contributions := cs, workRisk := workRisk));
    assert Alike(i, j) && i.parameters.rounding == j.parameters.rounding && i.parameters.categories == j.parameters.categories;
    hide *;
    EmployerSideIsSameWork(i, j);
    SameWorkSameLines(i, j);
    var start := Sum(Amounts(EarlyLines(i), Debit));
    OnlyTheWorkerSideCounts(i, start, i.parameters.contributions, Gross(i));
    OnlyTheWorkerSideCounts(i, start, cs, Gross(i));
    AlikeContributions(i, j, start, cs, Gross(i));
    AlikeAdvances(i, j, i.events);
    EqualTotals(i, j, start);
    TotalsOfOutcomes(i, j);
  }

  lemma EmployerSideIsSameWork(i: PayrollInput, j: PayrollInput)
    requires Alike(i, j) && i.events == j.events && i.overtime == j.overtime
    requires i.concepts == j.concepts
    ensures SameWork(i, j) && (Computable(i) <==> Computable(j))
  {
    AlikeLiquidated(i, j);
    SameOvertime(i, j);
    hide Liquidated;
    hide ApprovedDays;
    hide OvertimeLines;
  }

  /** The totals from what they are made of. */
  lemma EqualTotals(i: PayrollInput, j: PayrollInput, start: Amount)
    requires Alike(i, j) && EarlyLines(i) == EarlyLines(j) && start == Sum(Amounts(EarlyLines(i), Debit))
    requires RunningDeductions(i, start, i.parameters.contributions, Gross(i)) ==
             RunningDeductions(j, start, j.parameters.contributions, Gross(i))
    ensures Gross(j) == Gross(i) && Deductions(j) == Deductions(i) && Net(j) == Net(i)
  {
    AlikeAmounts(i, j);
    hide RoundTotal;
    hide RoundConcept;
    hide EarlyLines;
    hide Sum;
    hide Amounts;
    hide RunningDeductions;
    hide Subtract;
    hide Alike;
  }

  // ---------------------------------------------------------------- the order of the events

  /** The amounts of the advances of a list of events. */
  function Advances(i: PayrollInput, events: seq<Event>): seq<Amount> {
    Amounts(AdvanceLines(i, events), Debit)
  }

  lemma OneMoreAmount(i: PayrollInput, events: seq<Event>, e: Event)
    ensures Advances(i, events + [e]) == Advances(i, events) + Amounts(AdvanceLine(i, e), Debit)
    ensures forall kind :: ApprovedDays(events + [e], kind) ==
                           ApprovedDays(events, kind) + (if e.kind == kind && e.approved then e.days else 0)
  {
    OneMoreAdvance(i, events, e);
    AmountsAppend(AdvanceLines(i, events), AdvanceLine(i, e), Debit);
    forall kind {
      OneMoreDay(events, e, kind);
    }
    hide AdvanceLine;
    hide AdvanceLines;
    hide Amounts;
  }

  lemma {:induction false} TakeOutAnEvent(i: PayrollInput, a: seq<Event>, x: Event, c: seq<Event>)
    ensures forall kind :: ApprovedDays(a + [x] + c, kind) ==
                           ApprovedDays(a + c, kind) + (if x.kind == kind && x.approved then x.days else 0)
    ensures multiset(Advances(i, a + [x] + c)) == multiset(Advances(i, a + c)) + multiset(Amounts(AdvanceLine(i, x), Debit))
    decreases |c|
  {
    hide *;
    if c == [] {
      assert a + [x] + c == a + [x] && a + c == a;
      OneMoreAmount(i, a, x);
    } else {
      var front, last := c[..|c| - 1], c[|c| - 1];
      var whole, rest := a + [x] + front, a + front;
      TakeOutAnEvent(i, a, x, front);
      assert a + [x] + c == whole + [last] && a + c == rest + [last];
      OneMoreAmount(i, whole, last);
      OneMoreAmount(i, rest, last);
      var amounts := Amounts(AdvanceLine(i, last), Debit);
      assert multiset(Advances(i, whole + [last])) == multiset(Advances(i, whole)) + multiset(amounts);
      assert multiset(Advances(i, rest + [last])) == multiset(Advances(i, rest)) + multiset(amounts);
    }
  }

  lemma {:induction false} AdvancesAreNoCredit(i: PayrollInput, events: seq<Event>)
    ensures Amounts(AdvanceLines(i, events), Credit) == []
  {
    hide RoundConcept;
    if events != [] {
      AdvancesAreNoCredit(i, events[..|events| - 1]);
      AmountsAppend(AdvanceLines(i, events[..|events| - 1]), AdvanceLine(i, events[|events| - 1]), Credit);
    }
  }

  /** What a list of events contributes does not depend on its order. */
  lemma {:induction false} EventsOfPermutation(i: PayrollInput, a: seq<Event>, b: seq<Event>)
    requires multiset(a) == multiset(b)
    ensures forall kind :: ApprovedDays(a, kind) == ApprovedDays(b, kind)
    ensures multiset(Advances(i, a)) == multiset(Advances(i, b))
    decreases |a|
  {
    hide *;
    if a == [] {
      assert |b| == |multiset(b)| == 0;
    } else {
      var front, last := a[..|a| - 1], a[|a| - 1];
      var k := Sorting.FindLast(a, b);
      EventsOfPermutation(i, front, b[..k] + b[k + 1..]);
      assert a == front + [last];
      OneMoreAmount(i, front, last);
      TakeOutAnEvent(i, b[..k], last, b[k + 1..]);
    }
  }

  lemma AmountsOfThree(x: seq<Line>, y: seq<Line>, z: seq<Line>, sign: Sign)
    ensures Amounts(x + y + z, sign) == Amounts(x, sign) + Amounts(y, sign) + Amounts(z, sign)
  {
    AmountsAppend(x, y, sign);
    AmountsAppend(x + y, z, sign);
  }

  lemma EarlyAmounts(i: PayrollInput, j: PayrollInput)
    requires SameWork(i, j)
    ensures Amounts(EarlyLines(j), Credit) == Amounts(BeforeAdvances(i), Credit) + Amounts(ConceptLines(i, i.concepts), Credit)
    ensures Amounts(EarlyLines(j), Debit) ==
            Amounts(BeforeAdvances(i), Debit) + Advances(i, j.events) + Amounts(ConceptLines(i, i.concepts), Debit)
  {
    assert Advances(i, j.events) == Amounts(AdvanceLines(i, j.events), Debit);
    hide *;
    SameWorkSameLines(i, j);
    AdvancesAreNoCredit(i, j.events);
    AmountsOfThree(BeforeAdvances(i), AdvanceLines(i, j.events), ConceptLines(i, i.concepts), Credit);
    AmountsOfThree(BeforeAdvances(i), AdvanceLines(i, j.events), ConceptLines(i, i.concepts), Debit);
    assert Amounts(BeforeAdvances(i), Credit) + [] == Amounts(BeforeAdvances(i), Credit);
  }

  lemma PermutedEvents(i: PayrollInput, events: seq<Event>)
    requires multiset(events) == multiset(i.events)
    ensures var j := i.(events := events);
            && SameWork(i, j)
            && Gross(j) == Gross(i)
            && multiset(Amounts(EarlyLines(j), Debit)) == multiset(Amounts(EarlyLines(i), Debit))
  {
    var j := i.(events := events);
    EventsOfPermutation(i, i.events, events);
    SameOvertime(i, j);
    AlikeAmounts(i, j);
    assert SameWork(i, j) && SameWork(i, i) by { hide OvertimeLines; hide ApprovedDays; }
    EarlyAmounts(i, i);
    EarlyAmounts(i, j);
    hide EarlyLines;
    hide BeforeAdvances;
    hide Advances;
    hide ConceptLines;
    hide Amounts;
    hide RoundTotal;
    hide Sum;
    hide SameWork;
    hide Alike;
  }

  /** Up to one unit of the concept decimals beyond 10^(28-c), the roundings of the deductions collapse into one. */
  predicate DeductionsFit(i: PayrollInput)
    requires Computable(i)
  {
    var c := i.parameters.rounding.conceptDecimals;
    AbsSum(Amounts(AllLines(i), Debit)) <= Ten(PRECISION - c) + Ten(-c)
  }

  lemma FitBound(i: PayrollInput)
    requires Computable(i)
    ensures var c := i.parameters.rounding.conceptDecimals;
            && 0 <= c <= MAX_ROUND_DECIMALS
            && (DeductionsFit(i) <==> AbsSum(Amounts(AllLines(i), Debit)) <= Ten(PRECISION - c) + Ten(-c))
  {
    hide AllLines;
    hide Amounts;
    hide AbsSum;
    hide Ten;
  }

  lemma DeductionsRoundedOnce(i: PayrollInput)
    requires Computable(i) && DeductionsFit(i)
    ensures Sum(Amounts(AllLines(i), Debit)) == Round28(ExactSum(Amounts(AllLines(i), Debit)))
  {
    hide *;
    FitBound(i);
    AmountsOnGrid(i, Debit);
    SumIsRoundedOnce(Amounts(AllLines(i), Debit), i.parameters.rounding.conceptDecimals);
  }

  lemma SameComputable(i: PayrollInput, j: PayrollInput)
    requires SameWork(i, j) && i.parameters == j.parameters && i.overtime == j.overtime
    ensures Computable(i) <==> Computable(j)
  {
    AlikeLiquidated(i, j);
    hide OvertimeLines;
    hide ApprovedDays;
    hide Liquidated;
  }

  lemma PermutedDebits(i: PayrollInput, j: PayrollInput)
    requires Alike(i, j) && i.parameters == j.parameters && Gross(i) == Gross(j)
    requires multiset(Amounts(EarlyLines(j), Debit)) == multiset(Amounts(EarlyLines(i), Debit))
    ensures multiset(Amounts(AllLines(i), Debit)) == multiset(Amounts(AllLines(j), Debit))
  {
    hide *;
    FinalAmounts(i, Debit);
    FinalAmounts(j, Debit);
    AlikeContributions(i, j, 0.0, i.parameters.contributions, Gross(i));
  }

  lemma DeductionsOfPermutation(i: PayrollInput, events: seq<Event>)
    requires multiset(events) == multiset(i.events) && Computable(i) && DeductionsFit(i)
    ensures var j := i.(events := events);
            Computable(j) && Deductions(j) == Deductions(i) && Net(j) == Net(i) && Gross(j) == Gross(i)
  {
    var j := i.(events := events);
    assert Alike(i, j);
    hide *;
    PermutedEvents(i, events);
    SameComputable(i, j);
    PermutedDebits(i, j);
    SumsOfPermutation(Amounts(AllLines(i), Debit), Amounts(AllLines(j), Debit));
    SameFit(i, j);
    DeductionsRoundedOnce(i);
    DeductionsRoundedOnce(j);
    TotalsAreOfTheFinalLines(i);
    TotalsAreOfTheFinalLines(j);
    SameRounding(i, j, Sum(Amounts(AllLines(i), Debit)), Gross(i));
  }

  lemma SameScale(i: PayrollInput, events: seq<Event>)
    requires multiset(events) == multiset(i.events)
    ensures var j := i.(events := events);
            && (i.categoryCode, i.liveInMode, i.parameters.categories) == (j.categoryCode, j.liveInMode, j.parameters.categories)
            && (HasScale(i) <==> HasScale(j)) && (Computable(i) <==> Computable(j))
  {
    var j := i.(events := events);
    PermutedEvents(i, events);
    SameComputable(i, j);
    hide Computable;
    hide SameWork;
    hide Gross;
    hide EarlyLines;
  }

  /** The gross of the outcome never depends on the order of the events. */
  lemma GrossIsOrderFree(i: PayrollInput, events: seq<Event>)
    requires multiset(events) == multiset(i.events)
    ensures var a, b := Payroll(i), Payroll(i.(events := events));
            a.Done? == b.Done? && (a.Done? ==> a.result.gross == b.result.gross)
  {
    hide *;
    SameScale(i, events);
    PermutedEvents(i, events);
    OutcomeTotals(i);
    OutcomeTotals(i.(events := events));
  }

  /** Reordering the events leaves gross, deductions and net of the outcome as they were. */
  ghost predicate OrderFree(i: PayrollInput, events: seq<Event>) {
    multiset(events) == multiset(i.events) ==> SameTotals(Payroll(i), Payroll(i.(events := events)))
  }

  /** Nor do deductions and net while the deductions stay within that bound. */
  lemma DeductionsAreOrderFree(i: PayrollInput, events: seq<Event>)
    requires Computable(i) ==> DeductionsFit(i)
    ensures OrderFree(i, events)
  {
    hide Computable;
    hide DeductionsFit;
    hide SameTotals;
    hide Payroll;
    hide Gross;
    hide Deductions;
    hide Net;
    if multiset(events) == multiset(i.events) {
      SameScale(i, events);
      if Computable(i) {
        DeductionsOfPermutation(i, events);
      }
      TotalsOfOutcomes(i, i.(events := events));
    }
  }

  lemma SameFit(i: PayrollInput, j: PayrollInput)
    requires Computable(i) && Computable(j) && i.parameters == j.parameters
    requires AbsSum(Amounts(AllLines(i), Debit)) == AbsSum(Amounts(AllLines(j), Debit))
    ensures DeductionsFit(i) <==> DeductionsFit(j)
  {
    hide AllLines;
    hide Amounts;
    hide AbsSum;
    hide Ten;
    hide Computable;
  }

  lemma SameRounding(i: PayrollInput, j: PayrollInput, total: Amount, gross: Amount)
    requires Alike(i, j)
    ensures RoundTotal(i, total) == RoundTotal(j, total)
    ensures RoundTotal(i, Subtract(gross, RoundTotal(i, total))) == RoundTotal(j, Subtract(gross, RoundTotal(j, total)))
  {
    AlikeAmounts(i, j);
    hide RoundTotal;
    hide Subtract;
  }
}
