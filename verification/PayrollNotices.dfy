/** Which blocking errors and warnings a calculation gives, each stated on the input and the totals alone. */
module PayrollNotices {
  import opened Calendar
  import opened Common
  import opened Money
  import opened Sorting
  import opened PayrollParameters
  import opened PayrollEngine
  import opened PayrollConservation
  import opened PayrollNorm

  // ---------------------------------------------------------------- what the lists hold

  lemma {:induction false} ConceptErrorsAre(concepts: seq<Concept>)
    ensures forall e :: e in ConceptErrors(concepts) <==>
              exists c :: c in concepts && c.isDebit && !HasText(c.justification) && e == UnjustifiedDiscount(c.code)
  {
    hide HasText;
    if concepts != [] {
      ConceptErrorsAre(concepts[..|concepts| - 1]);
      assert concepts == concepts[..|concepts| - 1] + [concepts[|concepts| - 1]];
    }
  }

  lemma {:induction false} ConceptWarningsAre(concepts: seq<Concept>)
    ensures forall w :: w in ConceptWarnings(concepts) <==>
              exists c :: c in concepts && c.isDebit && HasText(c.justification) && !c.accepted && w == DiscountNotAccepted(c.code)
  {
    hide HasText;
    if concepts != [] {
      ConceptWarningsAre(concepts[..|concepts| - 1]);
      assert concepts == concepts[..|concepts| - 1] + [concepts[|concepts| - 1]];
    }
  }

  lemma {:induction false} IgnoredEventsAre(events: seq<Event>, kind: EventType)
    ensures forall w :: w in IgnoredEvents(events, kind) <==>
              exists e :: e in events && e.kind == kind && !e.approved && w == UnapprovedEventIgnored(e.id)
  {
    if events != [] {
      IgnoredEventsAre(events[..|events| - 1], kind);
      assert events == events[..|events| - 1] + [events[|events| - 1]];
    }
  }

  lemma KindsAreFound(i: PayrollInput, code: string)
    ensures KindOf(i, code) == [] <==> forall k :: k in i.parameters.overtime.kinds ==> k.code != code
  {
    FirstFound(i.parameters.overtime.kinds, (k: OvertimeKind) => k.code == code);
  }

  lemma {:induction false} OvertimeWarningsAre(i: PayrollInput, entries: seq<OvertimeEntry>)
    ensures forall w :: w in OvertimeWarnings(i, entries) <==>
              exists e :: e in entries && e.minutes != 0 && KindOf(i, e.kindCode) == [] && w == UnknownOvertimeKind(e.kindCode)
  {
    hide KindOf;
    if entries != [] {
      OvertimeWarningsAre(i, entries[..|entries| - 1]);
      assert entries == entries[..|entries| - 1] + [entries[|entries| - 1]];
    }
  }

  // ---------------------------------------------------------------- problems of a version

  /** What each problem means. */
  ghost predicate Faulty(v: ParameterVersion, problem: Problem) {
    match problem
    case SourceMissing => !HasText(v.source)
    case FixtureWithoutPrefix => v.isFixture && !StartsWith(v.source, "FIXTURE — DATO DE PRUEBA, NO OFICIAL")
    case PrefixWithoutFixture => !v.isFixture && StartsWith(v.source, "FIXTURE — DATO DE PRUEBA, NO OFICIAL")
    case SignersMissing => v.status == Published && !(v.preparedBy.Some? && v.approvedBy.Some?)
    case SameSigner => v.status == Published && v.preparedBy.Some? && v.approvedBy.Some? && v.preparedBy.value == v.approvedBy.value
    case NoCategories => v.categories == []
    case DuplicateScale =>
      exists j, k :: 0 <= j < k < |v.categories| && v.categories[j].categoryCode == v.categories[k].categoryCode &&
                     v.categories[j].liveInMode == v.categories[k].liveInMode
    case OpenTierNotLast => v.seniority.enabled && exists k :: OpenBefore(InOrder(v), k)
    case OverlappingTiers => v.seniority.enabled && exists k :: EndsInside(InOrder(v), k)
  }

  /** The tiers by first year. */
  function InOrder(v: ParameterVersion): seq<SeniorityTier> {
    SortBy(v.seniority.tiers, TierStart)
  }

  /** A tier without an end that is not the last one. */
  predicate OpenBefore(tiers: seq<SeniorityTier>, k: int) {
    0 <= k < |tiers| - 1 && tiers[k].toYears.None?
  }

  /** A tier that ends in or after the first year of the next one. */
  predicate EndsInside(tiers: seq<SeniorityTier>, k: int) {
    0 <= k < |tiers| - 1 && tiers[k].toYears.Some? && tiers[k].toYears.value >= tiers[k + 1].fromYears
  }

  lemma {:induction false} ScaleProblemsAre(categories: seq<CategoryScale>, n: nat)
    requires n <= |categories|
    ensures forall q :: q in ScaleProblems(categories, n) ==> q == DuplicateScale
  {
    hide ScaleKey;
    if n > 0 {
      ScaleProblemsAre(categories, n - 1);
    }
  }

  lemma {:induction false} TierProblemsAre(tiers: seq<SeniorityTier>, n: nat)
    requires n <= |tiers|
    ensures forall q :: q in TierProblems(tiers, n) ==> q in {OpenTierNotLast, OverlappingTiers}
    ensures OpenTierNotLast in TierProblems(tiers, n) <==> exists k :: 0 <= k < n - 1 && OpenBefore(tiers, k)
    ensures OverlappingTiers in TierProblems(tiers, n) <==> exists k :: 0 <= k < n - 1 && EndsInside(tiers, k)
  {
    if n > 1 {
      TierProblemsAre(tiers, n - 1);
      var before, last := TierProblems(tiers, n - 1), NeighbourProblems(tiers[n - 2], tiers[n - 1]);
      assert TierProblems(tiers, n) == before + last;
      assert OpenTierNotLast in last <==> OpenBefore(tiers, n - 2);
      assert OverlappingTiers in last <==> EndsInside(tiers, n - 2);
      assert forall q :: q in last ==> q in {OpenTierNotLast, OverlappingTiers};
      hide NeighbourProblems;
      hide TierProblems;
      hide OpenBefore;
      hide EndsInside;
    }
  }

  lemma ScalesAreDistinct(v: ParameterVersion)
    ensures DuplicateScale in ScaleProblems(v.categories, |v.categories|) <==> Faulty(v, DuplicateScale)
  {
    ScaleProblemsAre(v.categories, |v.categories|);
    ScaleProblemsExact(v.categories, |v.categories|);
    hide ScaleProblems;
    hide HasText;
    hide StartsWith;
    var problems := ScaleProblems(v.categories, |v.categories|);
    if problems != [] {
      assert problems[0] in problems;
    }
  }

  /** The validation reports a problem exactly when the version has it. */
  lemma ProblemsAreExact(v: ParameterVersion)
    ensures forall problem :: problem in Problems(v) <==> Faulty(v, problem)
  {
    hide HasText;
    hide StartsWith;
    hide SortBy;
    hide TierProblems;
    hide ScaleProblems;
    hide OpenBefore;
    hide EndsInside;
    var tiers := InOrder(v);
    ScaleProblemsAre(v.categories, |v.categories|);
    ScalesAreDistinct(v);
    TierProblemsAre(tiers, |tiers|);
    TiersInRange(tiers);
  }

  lemma TiersInRange(tiers: seq<SeniorityTier>)
    ensures (exists k :: OpenBefore(tiers, k)) <==> exists k :: 0 <= k < |tiers| - 1 && OpenBefore(tiers, k)
    ensures (exists k :: EndsInside(tiers, k)) <==> exists k :: 0 <= k < |tiers| - 1 && EndsInside(tiers, k)
  {
  }

  // ---------------------------------------------------------------- errors

  /** What each error means. */
  ghost predicate Blocks(i: PayrollInput, e: Blocking) {
    var p := i.parameters;
    match e
    case ParameterVersionInvalid(problem) => Faulty(p, problem)
    case ParameterVersionNotPublished => p.status != Published
    case ParameterVersionNotEffective =>
      Code(i.period.from) < Code(p.effectiveFrom) || (p.effectiveTo.Some? && Code(i.period.to) > Code(p.effectiveTo.value))
    case InvalidPeriod => !(1 <= i.period.month <= 12 && i.period.calendarDays > 0)
    case CategoryScaleNotFound => !InScale(i)
    case BelowLegalMinimum =>
      exists k :: 0 <= k < |p.categories| && FirstScale(i, k) &&
                  i.agreed < (if i.scheme == Monthly then p.categories[k].monthlyMinimum else p.categories[k].hourlyMinimum)
    case UnjustifiedDiscount(code) =>
      InScale(i) && exists c :: c in i.concepts && c.isDebit && !HasText(c.justification) && c.code == code
  }

  /** The first scale of the category and mode. */
  predicate FirstScale(i: PayrollInput, k: nat) {
    && k < |i.parameters.categories| && IsScale(i, k)
    && forall j :: 0 <= j < k ==> !IsScale(i, j)
  }

  predicate IsScale(i: PayrollInput, k: nat)
    requires k < |i.parameters.categories|
  {
    i.parameters.categories[k].categoryCode == i.categoryCode && i.parameters.categories[k].liveInMode == i.liveInMode
  }

  lemma MinimumErrorsAre(i: PayrollInput)
    requires HasScale(i)
    ensures forall e :: e in MinimumErrors(i) <==> e == BelowLegalMinimum && Blocks(i, e)
  {
    hide Faulty;
    var scales := i.parameters.categories;
    var matches := (s: CategoryScale) => Matches(s, i.categoryCode, i.liveInMode);
    FirstFound(scales, matches);
    assert exists s :: s in scales && matches(s) by { assert FindCategoryScale(i.parameters, i.categoryCode, i.liveInMode)[0] in scales; }
    var k := LeastIndex(scales, matches);
    FirstIndex(scales, matches, k);
    assert forall j :: 0 <= j < |scales| ==> (matches(scales[j]) <==> IsScale(i, j));
    assert FirstScale(i, k);
    assert forall m: nat :: FirstScale(i, m) ==> m == k;
  }

  lemma PreviousErrorsAre(i: PayrollInput)
    ensures forall e :: e in PreviousErrors(i) <==>
              Blocks(i, e) && (e.ParameterVersionInvalid? || e in {ParameterVersionNotPublished, ParameterVersionNotEffective, InvalidPeriod})
  {
    hide Problems;
    hide Faulty;
    hide FirstScale;
    hide InScale;
    hide HasText;
    ProblemsAreExact(i.parameters);
    var structural := StructuralErrors(Problems(i.parameters));
    forall problem
      ensures problem in Problems(i.parameters) <==> ParameterVersionInvalid(problem) in structural
    {
      if problem in Problems(i.parameters) {
        var k :| 0 <= k < |Problems(i.parameters)| && Problems(i.parameters)[k] == problem;
        assert structural[k] == ParameterVersionInvalid(problem);
      }
    }
    assert forall e :: e in structural ==> e.ParameterVersionInvalid?;
  }

  lemma ErrorLists(i: PayrollInput)
    requires Payroll(i).Done?
    ensures Payroll(i).result.errors ==
            PreviousErrors(i) + (if HasScale(i) then MinimumErrors(i) + ConceptErrors(i.concepts) else [CategoryScaleNotFound])
  {
    hide PreviousErrors;
    hide MinimumErrors;
    hide ConceptErrors;
    hide HasScale;
    hide Computable;
    hide AllLines;
    hide Gross;
    hide Deductions;
    hide Net;
    hide Obligations;
    hide WorkRiskObligations;
    hide FixtureWarnings;
    hide MiddleWarnings;
  }

  /** An error is given exactly when what it says is so. */
  lemma ErrorsAreExact(i: PayrollInput)
    requires Payroll(i).Done?
    ensures forall e :: e in Payroll(i).result.errors <==>
              Blocks(i, e) && (e.BelowLegalMinimum? || e.UnjustifiedDiscount? ==> InScale(i))
  {
    hide *;
    ErrorLists(i);
    ScaleIsFound(i);
    PreviousErrorsAre(i);
    ConceptErrorsAre(i.concepts);
    if HasScale(i) {
      MinimumErrorsAre(i);
    }
    forall e
      ensures e in Payroll(i).result.errors <==> Blocks(i, e) && (e.BelowLegalMinimum? || e.UnjustifiedDiscount? ==> InScale(i))
    {
      LateBlocks(i, e);
    }
  }

  lemma LateBlocks(i: PayrollInput, e: Blocking)
    ensures e == CategoryScaleNotFound ==> (Blocks(i, e) <==> !InScale(i))
    ensures e.UnjustifiedDiscount? ==>
              (Blocks(i, e) <==> InScale(i) && exists c :: c in i.concepts && c.isDebit && !HasText(c.justification) && e == UnjustifiedDiscount(c.code))
  {
    hide InScale;
    hide HasText;
    hide FirstScale;
    hide Faulty;
    if e.UnjustifiedDiscount? {
      assert forall c :: c in i.concepts && c.code == e.code ==> e == UnjustifiedDiscount(c.code);
    }
  }

  // ---------------------------------------------------------------- warnings

  /** What each warning means; `net` is the net of the result. */
  ghost predicate Warns(i: PayrollInput, net: Amount, w: Warning) {
    var p := i.parameters;
    match w
    case FixtureParameters => p.isFixture
    case NoWorkedTime => i.scheme == Hourly && i.normalMinutes == 0
    case UnknownOvertimeKind(code) =>
      && p.overtime.enabled
      && (exists e :: e in i.overtime && e.minutes != 0 && e.kindCode == code)
      && (forall k :: k in p.overtime.kinds ==> k.code != code)
    case RuleDisabled => !p.overtime.enabled && exists e :: e in i.overtime && e.minutes > 0
    case SeniorityTierNotFound =>
      && p.seniority.enabled
      && exists years :: Anniversaries(i.startDate, i.period.to, years) && NoTier(p.seniority.tiers, years)
    case ZoneNotFound =>
      && i.zoneCode.Some?
      && (p.unfavorableZone.None? || !p.unfavorableZone.value.enabled ||
          forall z :: z in p.unfavorableZone.value.zones ==> z.code != i.zoneCode.value)
    case UnapprovedEventIgnored(id) =>
      exists e :: e in i.events && !e.approved && e.id == id && e.kind in {Vacation, AbsenceUnjustified, UnpaidLeave, Advance}
    case DiscountNotAccepted(code) =>
      exists c :: c in i.concepts && c.isDebit && HasText(c.justification) && !c.accepted && c.code == code
    case NegativeNet => net < 0.0
  }

  lemma TimeWarn(i: PayrollInput, net: Amount, w: Warning)
    ensures w in TimeWarnings(i) <==> w == NoWorkedTime && Warns(i, net, w)
    ensures w in FixtureWarnings(i) <==> w == FixtureParameters && Warns(i, net, w)
  {
    hide HasText;
    hide Anniversaries;
  }

  lemma OvertimeWarn(i: PayrollInput, net: Amount, w: Warning)
    ensures w in EnabledOvertimeWarnings(i) <==> (w.UnknownOvertimeKind? || w.RuleDisabled?) && Warns(i, net, w)
  {
    hide HasText;
    hide Anniversaries;
    hide OvertimeWarnings;
    hide KindOf;
    OvertimeWarningsAre(i, i.overtime);
    if w.UnknownOvertimeKind? {
      KindsAreFound(i, w.kindCode);
    }
    assert (exists k :: 0 <= k < |i.overtime| && i.overtime[k].minutes > 0) <==> (exists e :: e in i.overtime && e.minutes > 0) by {
      if e :| e in i.overtime && e.minutes > 0 {
        var k :| 0 <= k < |i.overtime| && i.overtime[k] == e;
      }
    }
  }

  /** No tier holds this number of years. */
  ghost predicate NoTier(tiers: seq<SeniorityTier>, years: int) {
    forall t :: t in tiers ==> !(t.fromYears <= years && (t.toYears.Some? ==> years <= t.toYears.value))
  }

  lemma TiersAreFound(i: PayrollInput)
    ensures TierOf(i) == [] <==>
            exists years :: Anniversaries(i.startDate, i.period.to, years) && NoTier(i.parameters.seniority.tiers, years)
  {
    hide Anniversaries;
    hide CompletedYears;
    var years := CompletedYears(i.startDate, i.period.to);
    FirstFound(i.parameters.seniority.tiers, (t: SeniorityTier) => InTier(t, years));
    assert TierOf(i) == [] <==> NoTier(i.parameters.seniority.tiers, years);
    hide TierOf;
    hide NoTier;
    forall n
      ensures Anniversaries(i.startDate, i.period.to, n) <==> n == years
    {
      AnniversariesPassed(i.startDate, i.period.to, n);
    }
  }

  lemma ZonesAreFound(i: PayrollInput)
    requires i.zoneCode.Some?
    ensures ZoneOf(i) == [] <==>
            (i.parameters.unfavorableZone.None? || !i.parameters.unfavorableZone.value.enabled ||
             forall z :: z in i.parameters.unfavorableZone.value.zones ==> z.code != i.zoneCode.value)
  {
    if i.parameters.unfavorableZone.Some? {
      FirstFound(i.parameters.unfavorableZone.value.zones, (z: Zone) => z.code == i.zoneCode.value);
    }
  }

  lemma SupplementWarn(i: PayrollInput, net: Amount, w: Warning)
    ensures w in SupplementWarnings(i) <==> (w.SeniorityTierNotFound? || w.ZoneNotFound?) && Warns(i, net, w)
  {
    hide HasText;
    hide Anniversaries;
    hide TierOf;
    hide ZoneOf;
    TiersAreFound(i);
    if i.zoneCode.Some? {
      ZonesAreFound(i);
    }
  }

  lemma EventWarn(i: PayrollInput, net: Amount, w: Warning)
    ensures w in LeaveWarnings(i) + IgnoredEvents(i.events, Advance) <==> w.UnapprovedEventIgnored? && Warns(i, net, w)
  {
    hide HasText;
    hide Anniversaries;
    hide IgnoredEvents;
    IgnoredEventsAre(i.events, Vacation);
    IgnoredEventsAre(i.events, AbsenceUnjustified);
    IgnoredEventsAre(i.events, UnpaidLeave);
    IgnoredEventsAre(i.events, Advance);
  }

  lemma ConceptWarn(i: PayrollInput, net: Amount, w: Warning)
    ensures w in ConceptWarnings(i.concepts) <==> w.DiscountNotAccepted? && Warns(i, net, w)
  {
    hide HasText;
    hide Anniversaries;
    hide ConceptWarnings;
    ConceptWarningsAre(i.concepts);
  }

  lemma WarningLists(i: PayrollInput)
    requires Payroll(i).Done?
    ensures Payroll(i).result.warnings ==
            FixtureWarnings(i) + (if HasScale(i) then MiddleWarnings(i) + (if Payroll(i).result.net < 0.0 then [NegativeNet] else []) else [])
    ensures MiddleWarnings(i) ==
            TimeWarnings(i) + EnabledOvertimeWarnings(i) + SupplementWarnings(i) +
            (LeaveWarnings(i) + IgnoredEvents(i.events, Advance)) + ConceptWarnings(i.concepts)
  {
    hide PreviousErrors;
    hide MinimumErrors;
    hide ConceptErrors;
    hide HasScale;
    hide Computable;
    hide AllLines;
    hide Gross;
    hide Deductions;
    hide Net;
    hide Obligations;
    hide WorkRiskObligations;
    hide FixtureWarnings;
    hide TimeWarnings;
    hide EnabledOvertimeWarnings;
    hide SupplementWarnings;
    hide LeaveWarnings;
    hide IgnoredEvents;
    hide ConceptWarnings;
  }

  lemma NetWarn(i: PayrollInput, net: Amount)
    ensures Warns(i, net, NegativeNet) <==> net < 0.0
  {
  }

  /** A warning is given exactly when what it says is so; without a scale only the one about fixtures is. */
  lemma WarningsAreExact(i: PayrollInput)
    requires Payroll(i).Done?
    ensures forall w :: w in Payroll(i).result.warnings <==>
              Warns(i, Payroll(i).result.net, w) && (InScale(i) || w == FixtureParameters)
  {
    hide *;
    var net := Payroll(i).result.net;
    WarningLists(i);
    ScaleIsFound(i);
    NetWarn(i, net);
    forall w
      ensures w in Payroll(i).result.warnings <==> Warns(i, net, w) && (InScale(i) || w == FixtureParameters)
    {
      TimeWarn(i, net, w);
      OvertimeWarn(i, net, w);
      SupplementWarn(i, net, w);
      EventWarn(i, net, w);
      ConceptWarn(i, net, w);
    }
  }
}
