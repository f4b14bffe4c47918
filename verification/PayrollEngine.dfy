/**
 * The payroll calculation: the procedure that accumulates lines, warnings, errors and obligations, and the functions
 * of the input that it is proved to compute.
 */
module PayrollEngine {
  import opened Calendar
  import opened Common
  import opened Decimals
  import opened Money
  import opened PayrollParameters
  import opened Sorting

  // ---------------------------------------------------------------- input and result

  datatype EventType = AbsenceUnjustified | AbsenceJustified | PaidLeave | UnpaidLeave | Vacation | Advance

  datatype Event = Event(id: string, kind: EventType, days: int, amount: Option<Amount>, approved: bool)

  datatype OvertimeEntry = OvertimeEntry(kindCode: string, minutes: int)

  datatype Concept = Concept(code: string, amount: Amount, isDebit: bool, justification: string, accepted: bool)

  datatype AnnualBonus = AnnualBonus(applies: bool, best: Amount, months: int)

  datatype PayrollPeriod = PayrollPeriod(from: Date, to: Date, month: int, calendarDays: int)

  datatype PayrollInput = PayrollInput(
    period: PayrollPeriod,
    categoryCode: string,
    liveInMode: LiveInMode,
    scheme: Scheme,
    agreed: Amount,
    parameters: ParameterVersion,
    normalMinutes: int,
    overtime: seq<OvertimeEntry>,
    holidayMinutes: int,
    startDate: Date,
    zoneCode: Option<string>,
    events: seq<Event>,
    annualBonus: AnnualBonus,
    concepts: seq<Concept>)

  datatype Sign = Credit | Debit | Informational

  datatype Line = Line(code: string, sign: Sign, base: Amount, amount: Amount)

  datatype Obligation = Obligation(code: string, borneByWorker: bool, base: Amount, amount: Amount)

  datatype Warning =
    | FixtureParameters
    | NoWorkedTime
    | UnknownOvertimeKind(kindCode: string)
    | RuleDisabled
    | SeniorityTierNotFound
    | ZoneNotFound
    | UnapprovedEventIgnored(id: string)
    | DiscountNotAccepted(code: string)
    | NegativeNet

  datatype Blocking =
    | ParameterVersionInvalid(problem: Problem)
    | ParameterVersionNotPublished
    | ParameterVersionNotEffective
    | InvalidPeriod
    | CategoryScaleNotFound
    | BelowLegalMinimum
    | UnjustifiedDiscount(code: string)

  datatype PayrollResult = PayrollResult(
    lines: seq<Line>,
    gross: Amount,
    deductions: Amount,
    net: Amount,
    obligations: seq<Obligation>,
    warnings: seq<Warning>,
    errors: seq<Blocking>)

  /** `Raised` stands for the InvalidValueError of a bad decimal count, a zero divisor or negative minutes. */
  datatype Outcome = Done(result: PayrollResult) | Raised

  // ---------------------------------------------------------------- seniority

  /** `n` anniversaries of the start have passed by the reference: the n-th has, the next one has not. */
  predicate Anniversaries(start: Date, reference: Date, n: int) {
    if AtMost(start, reference) then
      && n >= 0
      && AtMost(start.(year := start.year + n), reference)
      && !AtMost(start.(year := start.year + n + 1), reference)
    else n == 0
  }

  /** completedYearsBetween, on the components of the two dates: it counts anniversaries. */
  method CompletedYearsBetween(start: Date, reference: Date) returns (years: int)
    ensures Anniversaries(start, reference, years)
  {
    years := reference.year - start.year;
    if reference.month < start.month || (reference.month == start.month && reference.day < start.day) {
      years := years - 1;
    }
    years := Max(years, 0);
  }

  function CompletedYears(start: Date, reference: Date): int {
    var anniversaryToCome := reference.month < start.month ||
                             (reference.month == start.month && reference.day < start.day);
    Max(reference.year - start.year - (if anniversaryToCome then 1 else 0), 0)
  }

  /** There is exactly one such count, and it is the completed years. */
  lemma AnniversariesPassed(start: Date, reference: Date, n: int)
    ensures Anniversaries(start, reference, n) <==> n == CompletedYears(start, reference)
  {
  }

  // ---------------------------------------------------------------- the calculation, as functions of the input

  // The functions of the sections are total; `Payroll` uses them only where `Computable` rules out what would throw.

  function Quotient(a: Amount, divisor: real): Amount {
    if divisor == 0.0 then 0.0 else Divide(a, divisor)
  }

  function RoundPlaces(x: Amount, places: int, mode: RoundingMode): Amount {
    if RoundableTo(places) then RoundTo(x, places, mode) else x
  }

  function RoundConcept(i: PayrollInput, x: Amount): Amount {
    RoundPlaces(x, i.parameters.rounding.conceptDecimals, i.parameters.rounding.mode)
  }

  function RoundTotal(i: PayrollInput, x: Amount): Amount {
    RoundPlaces(x, i.parameters.rounding.totalDecimals, i.parameters.rounding.mode)
  }

  predicate HasScale(i: PayrollInput) {
    FindCategoryScale(i.parameters, i.categoryCode, i.liveInMode) != []
  }

  function KindOf(i: PayrollInput, code: string): seq<OvertimeKind> {
    First(i.parameters.overtime.kinds, (k: OvertimeKind) => k.code == code)
  }

  /** An overtime entry that reaches the arithmetic. */
  predicate Liquidated(i: PayrollInput, e: OvertimeEntry) {
    e.minutes != 0 && KindOf(i, e.kindCode) != []
  }

  /** Days of the approved events of one type. */
  function ApprovedDays(events: seq<Event>, kind: EventType): int {
    if events == [] then 0
    else
      var last := events[|events| - 1];
      ApprovedDays(events[..|events| - 1], kind) + (if last.kind == kind && last.approved then last.days else 0)
  }

  function UnpaidDays(i: PayrollInput): int {
    ApprovedDays(i.events, AbsenceUnjustified) + ApprovedDays(i.events, UnpaidLeave)
  }

  /** Nothing in the input makes an amount operation throw. */
  predicate Computable(i: PayrollInput) {
    LinesComputable(i) && RoundableTo(i.parameters.rounding.totalDecimals)
  }

  /** The same up to the point where the totals are rounded. */
  predicate LinesComputable(i: PayrollInput) {
    var p := i.parameters;
    && RoundableTo(p.rounding.conceptDecimals)
    && (i.scheme == Monthly ==> p.overtime.monthlyHoursDivisor != 0.0)
    && i.normalMinutes >= 0
    && (p.overtime.enabled ==> forall k :: 0 <= k < |i.overtime| && Liquidated(i, i.overtime[k]) ==> i.overtime[k].minutes >= 0)
    && (p.vacation.enabled && ApprovedDays(i.events, Vacation) > 0 ==> p.vacation.divisor != 0.0)
    && (p.annualBonus.enabled && i.annualBonus.applies ==> p.annualBonus.divisor != 0.0)
    && (p.absence.enabled && UnpaidDays(i) > 0 ==> p.absence.divisor != 0.0)
  }

  function HourlyValue(i: PayrollInput): Amount {
    if i.scheme == Monthly then Quotient(i.agreed, i.parameters.overtime.monthlyHoursDivisor) else i.agreed
  }

  function BaseAmount(i: PayrollInput): Amount {
    if i.scheme == Monthly then RoundConcept(i, i.agreed)
    else RoundConcept(i, Multiply(HourlyValue(i), ToHours(i.normalMinutes)))
  }

  function BaseLine(i: PayrollInput): Line {
    if i.scheme == Monthly then Line("BASE_MONTHLY", Credit, i.agreed, BaseAmount(i))
    else Line("BASE_HOURLY", Credit, HourlyValue(i), BaseAmount(i))
  }

  function OvertimeAmount(i: PayrollInput, multiplier: real, minutes: int): Amount {
    RoundConcept(i, Multiply(Multiply(HourlyValue(i), multiplier), ToHours(minutes)))
  }

  function OvertimeLine(i: PayrollInput, e: OvertimeEntry): seq<Line> {
    if Liquidated(i, e) then
      FirstFound(i.parameters.overtime.kinds, (k: OvertimeKind) => k.code == e.kindCode);
      var kind := KindOf(i, e.kindCode)[0];
      [Line("OVERTIME:" + kind.code, Credit, HourlyValue(i), OvertimeAmount(i, kind.multiplier, e.minutes))]
    else []
  }

  function OvertimeLines(i: PayrollInput, entries: seq<OvertimeEntry>): seq<Line> {
    if entries == [] then []
    else OvertimeLines(i, entries[..|entries| - 1]) + OvertimeLine(i, entries[|entries| - 1])
  }

  function OvertimeWarnings(i: PayrollInput, entries: seq<OvertimeEntry>): seq<Warning> {
    if entries == [] then []
    else
      var e := entries[|entries| - 1];
      OvertimeWarnings(i, entries[..|entries| - 1]) +
      (if e.minutes != 0 && KindOf(i, e.kindCode) == [] then [UnknownOvertimeKind(e.kindCode)] else [])
  }

  function EnabledOvertimeWarnings(i: PayrollInput): seq<Warning> {
    if i.parameters.overtime.enabled then OvertimeWarnings(i, i.overtime)
    else if exists k :: 0 <= k < |i.overtime| && i.overtime[k].minutes > 0 then [RuleDisabled]
    else []
  }

  function EnabledOvertime(i: PayrollInput): seq<OvertimeEntry> {
    if i.parameters.overtime.enabled then i.overtime else []
  }

  function AmountsOf(lines: seq<Line>): seq<Amount> {
    seq(|lines|, k requires 0 <= k < |lines| => lines[k].amount)
  }

  /** What the loop accumulates while it liquidates overtime. */
  function OvertimeTotal(i: PayrollInput): Amount {
    Sum(AmountsOf(OvertimeLines(i, EnabledOvertime(i))))
  }

  function HolidayLines(i: PayrollInput): seq<Line> {
    if i.parameters.holiday.enabled && i.holidayMinutes > 0 then
      [Line("HOLIDAY_WORKED", Credit, HourlyValue(i),
            OvertimeAmount(i, i.parameters.holiday.workedMultiplier, i.holidayMinutes))]
    else []
  }

  function TierOf(i: PayrollInput): seq<SeniorityTier> {
    FindTier(i.parameters.seniority.tiers, CompletedYears(i.startDate, i.period.to))
  }

  function SeniorityBase(i: PayrollInput): Amount {
    if i.parameters.seniority.basePlusOvertime then Add(BaseAmount(i), OvertimeTotal(i)) else BaseAmount(i)
  }

  function SeniorityLines(i: PayrollInput): seq<Line> {
    if i.parameters.seniority.enabled && TierOf(i) != [] then
      [Line("SENIORITY", Credit, SeniorityBase(i),
            RoundConcept(i, ApplyPercentage(SeniorityBase(i), TierOf(i)[0].percentage)))]
    else []
  }

  function ZoneOf(i: PayrollInput): seq<Zone> {
    if i.zoneCode.Some? && i.parameters.unfavorableZone.Some? && i.parameters.unfavorableZone.value.enabled then
      First(i.parameters.unfavorableZone.value.zones, (z: Zone) => z.code == i.zoneCode.value)
    else []
  }

  function ZoneLines(i: PayrollInput): seq<Line> {
    if ZoneOf(i) != [] then
      [Line("UNFAVORABLE_ZONE", Credit, BaseAmount(i), RoundConcept(i, ApplyPercentage(BaseAmount(i), ZoneOf(i)[0].percentage)))]
    else []
  }

  function VacationLines(i: PayrollInput): seq<Line> {
    var days := ApprovedDays(i.events, Vacation);
    if i.parameters.vacation.enabled && days > 0 then
      [Line("VACATION", Credit, i.agreed,
            RoundConcept(i, Multiply(Quotient(i.agreed, i.parameters.vacation.divisor), days as real)))]
    else []
  }

  function BonusLines(i: PayrollInput): seq<Line> {
    if i.parameters.annualBonus.enabled && i.annualBonus.applies then
      var full := Quotient(i.annualBonus.best, i.parameters.annualBonus.divisor);
      var proportion := Min(Max(i.annualBonus.months, 0), 6);
      [Line("ANNUAL_BONUS", Credit, i.annualBonus.best,
            RoundConcept(i, Divide(Multiply(full, proportion as real), 6.0)))]
    else []
  }

  function AbsenceLines(i: PayrollInput): seq<Line> {
    if i.parameters.absence.enabled && UnpaidDays(i) > 0 then
      [Line("ABSENCE_DEDUCTION", Debit, i.agreed,
            RoundConcept(i, Multiply(Quotient(i.agreed, i.parameters.absence.divisor), UnpaidDays(i) as real)))]
    else []
  }

  function AdvanceLine(i: PayrollInput, e: Event): seq<Line> {
    if e.kind == Advance && e.approved then
      var amount := RoundConcept(i, if e.amount.Some? then e.amount.value else 0.0);
      [Line("ADVANCE_DEDUCTION", Debit, amount, amount)]
    else []
  }

  function AdvanceLines(i: PayrollInput, events: seq<Event>): seq<Line> {
    if events == [] then []
    else AdvanceLines(i, events[..|events| - 1]) + AdvanceLine(i, events[|events| - 1])
  }

  function ConceptLine(i: PayrollInput, c: Concept): seq<Line> {
    if c.isDebit && !HasText(c.justification) then []
    else
      var amount := RoundConcept(i, c.amount);
      [Line("ADDITIONAL:" + c.code, if c.isDebit then Debit else Credit, amount, amount)]
  }

  function ConceptLines(i: PayrollInput, concepts: seq<Concept>): seq<Line> {
    if concepts == [] then []
    else ConceptLines(i, concepts[..|concepts| - 1]) + ConceptLine(i, concepts[|concepts| - 1])
  }

  /** The lines in place when the gross total is taken. */
  function EarlyLines(i: PayrollInput): seq<Line> {
    [BaseLine(i)] + OvertimeLines(i, EnabledOvertime(i)) + HolidayLines(i) + SeniorityLines(i) + ZoneLines(i) +
    VacationLines(i) + BonusLines(i) + AbsenceLines(i) + AdvanceLines(i, i.events) + ConceptLines(i, i.concepts)
  }

  /** The amounts of the lines of one sign, in order. */
  function Amounts(lines: seq<Line>, sign: Sign): seq<Amount> {
    if lines == [] then []
    else
      var last := lines[|lines| - 1];
      Amounts(lines[..|lines| - 1], sign) + (if last.sign == sign then [last.amount] else [])
  }

  function Gross(i: PayrollInput): Amount {
    RoundTotal(i, Sum(Amounts(EarlyLines(i), Credit)))
  }

  function ContributionBase(c: Contribution, gross: Amount): Amount {
    if c.isFixed then 0.0 else gross
  }

  function ContributionAmount(i: PayrollInput, c: Contribution, gross: Amount): Amount {
    if c.isFixed then RoundConcept(i, if c.fixedAmount.Some? then c.fixedAmount.value else 0.0)
    else RoundConcept(i, ApplyPercentage(ContributionBase(c, gross), c.percentage))
  }

  function ContributionLine(i: PayrollInput, c: Contribution, gross: Amount): Line {
    if c.borneByWorker then
      Line("WORKER_CONTRIBUTION:" + c.code, Debit, ContributionBase(c, gross), ContributionAmount(i, c, gross))
    else
      Line("EMPLOYER_CONTRIBUTION:" + c.code, Informational, ContributionBase(c, gross), ContributionAmount(i, c, gross))
  }

  function ContributionLines(i: PayrollInput, cs: seq<Contribution>, gross: Amount): seq<Line> {
    if cs == [] then []
    else ContributionLines(i, cs[..|cs| - 1], gross) + [ContributionLine(i, cs[|cs| - 1], gross)]
  }

  function ContributionObligation(i: PayrollInput, c: Contribution, gross: Amount): Obligation {
    Obligation(c.code, c.borneByWorker, ContributionBase(c, gross), ContributionAmount(i, c, gross))
  }

  function Obligations(i: PayrollInput, cs: seq<Contribution>, gross: Amount): seq<Obligation> {
    if cs == [] then []
    else Obligations(i, cs[..|cs| - 1], gross) + [ContributionObligation(i, cs[|cs| - 1], gross)]
  }

  /** The running total of the worker's deductions after some contributions. */
  function RunningDeductions(i: PayrollInput, start: Amount, cs: seq<Contribution>, gross: Amount): Amount {
    if cs == [] then start
    else
      var before := RunningDeductions(i, start, cs[..|cs| - 1], gross);
      var c := cs[|cs| - 1];
      if c.borneByWorker then Add(before, ContributionAmount(i, c, gross)) else before
  }

  function WorkRiskAmount(i: PayrollInput, gross: Amount): Amount {
    var w := i.parameters.workRisk;
    if w.fixedAmount.Some? then RoundConcept(i, w.fixedAmount.value)
    else RoundConcept(i, ApplyPercentage(gross, w.percentage))
  }

  function WorkRiskBase(i: PayrollInput, gross: Amount): Amount {
    if i.parameters.workRisk.fixedAmount.Some? then 0.0 else gross
  }

  function WorkRiskLines(i: PayrollInput, gross: Amount): seq<Line> {
    if i.parameters.workRisk.enabled then
      [Line("WORK_RISK_INSURANCE", Informational, WorkRiskBase(i, gross), WorkRiskAmount(i, gross))]
    else []
  }

  function WorkRiskObligations(i: PayrollInput, gross: Amount): seq<Obligation> {
    if i.parameters.workRisk.enabled then
      [Obligation(i.parameters.workRisk.code, false, WorkRiskBase(i, gross), WorkRiskAmount(i, gross))]
    else []
  }

  /** All the lines of the result. */
  function AllLines(i: PayrollInput): seq<Line> {
    EarlyLines(i) + ContributionLines(i, i.parameters.contributions, Gross(i)) + WorkRiskLines(i, Gross(i))
  }

  function Deductions(i: PayrollInput): Amount {
    RoundTotal(i, RunningDeductions(i, Sum(Amounts(EarlyLines(i), Debit)), i.parameters.contributions, Gross(i)))
  }

  function Net(i: PayrollInput): Amount {
    RoundTotal(i, Subtract(Gross(i), Deductions(i)))
  }

  // ---------------------------------------------------------------- warnings and errors

  function StructuralErrors(problems: seq<Problem>): (r: seq<Blocking>)
    ensures |r| == |problems|
    ensures forall k :: 0 <= k < |problems| ==> r[k] == ParameterVersionInvalid(problems[k])
  {
    seq(|problems|, k requires 0 <= k < |problems| => ParameterVersionInvalid(problems[k]))
  }

  /** The errors found before the scale is looked up. */
  function PreviousErrors(i: PayrollInput): seq<Blocking> {
    var p := i.parameters;
    StructuralErrors(Problems(p)) +
    (if p.status != Published then [ParameterVersionNotPublished] else []) +
    (if Code(i.period.from) < Code(p.effectiveFrom) ||
        (p.effectiveTo.Some? && Code(i.period.to) > Code(p.effectiveTo.value)) then [ParameterVersionNotEffective] else []) +
    (if i.period.month < 1 || i.period.month > 12 || i.period.calendarDays <= 0 then [InvalidPeriod] else [])
  }

  function FixtureWarnings(i: PayrollInput): seq<Warning> {
    if i.parameters.isFixture then [FixtureParameters] else []
  }

  function MinimumErrors(i: PayrollInput): seq<Blocking>
    requires HasScale(i)
  {
    var scale := FindCategoryScale(i.parameters, i.categoryCode, i.liveInMode)[0];
    if i.agreed < (if i.scheme == Monthly then scale.monthlyMinimum else scale.hourlyMinimum) then [BelowLegalMinimum] else []
  }

  function ConceptErrors(concepts: seq<Concept>): seq<Blocking> {
    if concepts == [] then []
    else
      var c := concepts[|concepts| - 1];
      ConceptErrors(concepts[..|concepts| - 1]) +
      (if c.isDebit && !HasText(c.justification) then [UnjustifiedDiscount(c.code)] else [])
  }

  function ConceptWarnings(concepts: seq<Concept>): seq<Warning> {
    if concepts == [] then []
    else
      var c := concepts[|concepts| - 1];
      ConceptWarnings(concepts[..|concepts| - 1]) +
      (if c.isDebit && HasText(c.justification) && !c.accepted then [DiscountNotAccepted(c.code)] else [])
  }

  /** One warning per event of a type that is not approved. */
  function IgnoredEvents(events: seq<Event>, kind: EventType): seq<Warning> {
    if events == [] then []
    else
      var e := events[|events| - 1];
      IgnoredEvents(events[..|events| - 1], kind) +
      (if e.kind == kind && !e.approved then [UnapprovedEventIgnored(e.id)] else [])
  }

  function TimeWarnings(i: PayrollInput): seq<Warning> {
    if i.normalMinutes == 0 && i.scheme == Hourly then [NoWorkedTime] else []
  }

  function SupplementWarnings(i: PayrollInput): seq<Warning> {
    (if i.parameters.seniority.enabled && TierOf(i) == [] then [SeniorityTierNotFound] else []) +
    (if i.zoneCode.Some? && ZoneOf(i) == [] then [ZoneNotFound] else [])
  }

  function LeaveWarnings(i: PayrollInput): seq<Warning> {
    IgnoredEvents(i.events, Vacation) + IgnoredEvents(i.events, AbsenceUnjustified) + IgnoredEvents(i.events, UnpaidLeave)
  }

  function MiddleWarnings(i: PayrollInput): seq<Warning> {
    TimeWarnings(i) + EnabledOvertimeWarnings(i) + SupplementWarnings(i) + LeaveWarnings(i) +
    IgnoredEvents(i.events, Advance) + ConceptWarnings(i.concepts)
  }

  /** The result of the calculation as a function of its input. */
  function Payroll(i: PayrollInput): Outcome {
    if !HasScale(i) then
      Done(PayrollResult([], 0.0, 0.0, 0.0, [], FixtureWarnings(i), PreviousErrors(i) + [CategoryScaleNotFound]))
    else if !Computable(i) then Raised
    else
      Done(PayrollResult(
             AllLines(i), Gross(i), Deductions(i), Net(i),
             Obligations(i, i.parameters.contributions, Gross(i)) + WorkRiskObligations(i, Gross(i)),
             FixtureWarnings(i) + MiddleWarnings(i) + (if Net(i) < 0.0 then [NegativeNet] else []),
             PreviousErrors(i) + MinimumErrors(i) + ConceptErrors(i.concepts)))
  }

  // ---------------------------------------------------------------- the procedure

  /** sumApprovedEventDays: adds up the approved days and warns about the others. */
  method SumApprovedEventDays(events: seq<Event>, kind: EventType, warnings: seq<Warning>)
    returns (total: int, warnings': seq<Warning>)
    ensures total == ApprovedDays(events, kind)
    ensures warnings' == warnings + IgnoredEvents(events, kind)
  {
    total, warnings' := 0, warnings;
    var k := 0;
    while k < |events|
      invariant 0 <= k <= |events|
      invariant total == ApprovedDays(events[..k], kind)
      invariant warnings' == warnings + IgnoredEvents(events[..k], kind)
    {
      var event := events[k];
      assert events[..k + 1][..k] == events[..k];
      if event.kind == kind {
        if !event.approved {
          warnings' := warnings' + [UnapprovedEventIgnored(event.id)];
        } else {
          total := total + event.days;
        }
      }
      k := k + 1;
    }
    assert events[..k] == events;
  }

  lemma OvertimeStep(i: PayrollInput, k: nat)
    requires k < |i.overtime|
    ensures var e := i.overtime[k];
            && OvertimeLines(i, i.overtime[..k + 1]) == OvertimeLines(i, i.overtime[..k]) + OvertimeLine(i, e)
            && OvertimeWarnings(i, i.overtime[..k + 1]) ==
               OvertimeWarnings(i, i.overtime[..k]) +
               (if e.minutes != 0 && KindOf(i, e.kindCode) == [] then [UnknownOvertimeKind(e.kindCode)] else [])
  {
    hide OvertimeLine;
    hide KindOf;
    assert i.overtime[..k + 1][..k] == i.overtime[..k];
  }

  lemma NothingYet(i: PayrollInput)
    ensures OvertimeLines(i, []) == [] && OvertimeWarnings(i, []) == []
    ensures ConceptLines(i, []) == [] && ConceptWarnings([]) == [] && ConceptErrors([]) == []
    ensures AdvanceLines(i, []) == [] && IgnoredEvents([], Advance) == []
  {
  }

  /** The overtime loop; it stops when an entry has negative minutes. */
  method LiquidateOvertime(i: PayrollInput, lines: seq<Line>, warnings: seq<Warning>)
    returns (raised: bool, lines': seq<Line>, total: Amount, warnings': seq<Warning>)
    ensures raised <==> exists k :: 0 <= k < |i.overtime| && Liquidated(i, i.overtime[k]) && i.overtime[k].minutes < 0
    ensures !raised ==>
              && lines' == lines + OvertimeLines(i, i.overtime)
              && total == Sum(AmountsOf(OvertimeLines(i, i.overtime)))
              && warnings' == warnings + OvertimeWarnings(i, i.overtime)
  {
    hide Sum;
    hide RoundConcept;
    hide Add;
    hide Multiply;
    hide Divide;
    hide ToHours;
    hide OvertimeLines;
    hide OvertimeWarnings;
    hide AmountsOf;
    raised, lines', total, warnings' := false, lines, 0.0, warnings;
    EmptySum();
    NothingYet(i);
    var k := 0;
    assert i.overtime[..k] == [];
    while k < |i.overtime|
      invariant 0 <= k <= |i.overtime|
      invariant forall j :: 0 <= j < k && Liquidated(i, i.overtime[j]) ==> i.overtime[j].minutes >= 0
      invariant lines' == lines + OvertimeLines(i, i.overtime[..k])
      invariant total == Sum(AmountsOf(OvertimeLines(i, i.overtime[..k])))
      invariant warnings' == warnings + OvertimeWarnings(i, i.overtime[..k])
    {
      var entry := i.overtime[k];
      OvertimeStep(i, k);
      assert OvertimeLines(i, i.overtime[..k]) + [] == OvertimeLines(i, i.overtime[..k]);
      if entry.minutes != 0 {
        var kinds := KindOf(i, entry.kindCode);
        if kinds == [] {
          warnings' := warnings' + [UnknownOvertimeKind(entry.kindCode)];
        } else {
          if entry.minutes < 0 {
            assert Liquidated(i, i.overtime[k]);
            return true, lines', total, warnings';
          }
          FirstFound(i.parameters.overtime.kinds, (x: OvertimeKind) => x.code == entry.kindCode);
          var kind := kinds[0];
          var hours := ToHours(entry.minutes);
          var rate := Multiply(HourlyValue(i), kind.multiplier);
          var amount := RoundConcept(i, Multiply(rate, hours));
          total := Add(total, amount);
          var line := Line("OVERTIME:" + kind.code, Credit, HourlyValue(i), amount);
          lines' := lines' + [line];
          AppendAmount(OvertimeLines(i, i.overtime[..k]), line);
        }
      }
      k := k + 1;
    }
    assert i.overtime[..k] == i.overtime;
  }

  lemma AdvanceStep(i: PayrollInput, k: nat)
    requires k < |i.events|
    ensures var e := i.events[k];
            && AdvanceLines(i, i.events[..k + 1]) == AdvanceLines(i, i.events[..k]) + AdvanceLine(i, e)
            && IgnoredEvents(i.events[..k + 1], Advance) ==
               IgnoredEvents(i.events[..k], Advance) + (if e.kind == Advance && !e.approved then [UnapprovedEventIgnored(e.id)] else [])
  {
    hide AdvanceLine;
    assert i.events[..k + 1][..k] == i.events[..k];
  }

  /** The advances loop. */
  method DeductAdvances(i: PayrollInput, lines: seq<Line>, warnings: seq<Warning>)
    returns (lines': seq<Line>, warnings': seq<Warning>)
    ensures lines' == lines + AdvanceLines(i, i.events)
    ensures warnings' == warnings + IgnoredEvents(i.events, Advance)
  {
    hide RoundConcept;
    hide AdvanceLines;
    hide IgnoredEvents;
    lines', warnings' := lines, warnings;
    NothingYet(i);
    var k := 0;
    assert i.events[..k] == [];
    while k < |i.events|
      invariant 0 <= k <= |i.events|
      invariant lines' == lines + AdvanceLines(i, i.events[..k])
      invariant warnings' == warnings + IgnoredEvents(i.events[..k], Advance)
    {
      var event := i.events[k];
      AdvanceStep(i, k);
      if event.kind == Advance {
        if !event.approved {
          warnings' := warnings' + [UnapprovedEventIgnored(event.id)];
        } else {
          var amount := RoundConcept(i, if event.amount.Some? then event.amount.value else 0.0);
          lines' := lines' + [Line("ADVANCE_DEDUCTION", Debit, amount, amount)];
        }
      }
      k := k + 1;
    }
    assert i.events[..k] == i.events;
  }

  lemma ConceptStep(i: PayrollInput, k: nat)
    requires k < |i.concepts|
    ensures var c, before := i.concepts[k], i.concepts[..k];
            && ConceptLines(i, i.concepts[..k + 1]) == ConceptLines(i, before) + ConceptLine(i, c)
            && ConceptWarnings(i.concepts[..k + 1]) ==
               ConceptWarnings(before) + (if c.isDebit && HasText(c.justification) && !c.accepted then [DiscountNotAccepted(c.code)] else [])
            && ConceptErrors(i.concepts[..k + 1]) ==
               ConceptErrors(before) + (if c.isDebit && !HasText(c.justification) then [UnjustifiedDiscount(c.code)] else [])
  {
    hide ConceptLine;
    hide HasText;
    assert i.concepts[..k + 1][..k] == i.concepts[..k];
  }

  /** The loop over the configurable concepts. */
  method ApplyConcepts(i: PayrollInput, lines: seq<Line>, warnings: seq<Warning>, errors: seq<Blocking>)
    returns (lines': seq<Line>, warnings': seq<Warning>, errors': seq<Blocking>)
    ensures lines' == lines + ConceptLines(i, i.concepts)
    ensures warnings' == warnings + ConceptWarnings(i.concepts)
    ensures errors' == errors + ConceptErrors(i.concepts)
  {
    hide RoundConcept;
    hide HasText;
    hide ConceptLines;
    hide ConceptWarnings;
    hide ConceptErrors;
    lines', warnings', errors' := lines, warnings, errors;
    NothingYet(i);
    var k := 0;
    assert i.concepts[..k] == [];
    while k < |i.concepts|
      invariant 0 <= k <= |i.concepts|
      invariant lines' == lines + ConceptLines(i, i.concepts[..k])
      invariant warnings' == warnings + ConceptWarnings(i.concepts[..k])
      invariant errors' == errors + ConceptErrors(i.concepts[..k])
    {
      var c := i.concepts[k];
      ConceptStep(i, k);
      if c.isDebit && !HasText(c.justification) {
        errors' := errors' + [UnjustifiedDiscount(c.code)];
      } else {
        if c.isDebit && !c.accepted {
          warnings' := warnings' + [DiscountNotAccepted(c.code)];
        }
        var amount := RoundConcept(i, c.amount);
        lines' := lines' + [Line("ADDITIONAL:" + c.code, if c.isDebit then Debit else Credit, amount, amount)];
      }
      k := k + 1;
    }
    assert i.concepts[..k] == i.concepts;
  }

  /** The loop over the contributions: the running deductions grow while the lines do. */
  method Contribute(i: PayrollInput, gross: Amount, start: Amount, lines: seq<Line>)
    returns (deductions: Amount, lines': seq<Line>, obligations: seq<Obligation>)
    ensures deductions == RunningDeductions(i, start, i.parameters.contributions, gross)
    ensures lines' == lines + ContributionLines(i, i.parameters.contributions, gross)
    ensures obligations == Obligations(i, i.parameters.contributions, gross)
  {
    hide RoundConcept;
    hide Add;
    hide ApplyPercentage;
    var cs := i.parameters.contributions;
    deductions, lines', obligations := start, lines, [];
    var k := 0;
    while k < |cs|
      invariant 0 <= k <= |cs|
      invariant deductions == RunningDeductions(i, start, cs[..k], gross)
      invariant lines' == lines + ContributionLines(i, cs[..k], gross)
      invariant obligations == Obligations(i, cs[..k], gross)
    {
      var c := cs[k];
      assert cs[..k + 1][..k] == cs[..k];
      var base := if c.isFixed then 0.0 else gross;
      var amount := if c.isFixed then RoundConcept(i, if c.fixedAmount.Some? then c.fixedAmount.value else 0.0)
                    else RoundConcept(i, ApplyPercentage(base, c.percentage));
      obligations := obligations + [Obligation(c.code, c.borneByWorker, base, amount)];
      if c.borneByWorker {
        deductions := Add(deductions, amount);
        lines' := lines' + [Line("WORKER_CONTRIBUTION:" + c.code, Debit, base, amount)];
      } else {
        lines' := lines' + [Line("EMPLOYER_CONTRIBUTION:" + c.code, Informational, base, amount)];
      }
      k := k + 1;
    }
    assert cs[..k] == cs;
  }

  lemma EmptySum()
    ensures Sum(AmountsOf([])) == 0.0
  {
  }

  lemma AppendAmount(lines: seq<Line>, l: Line)
    ensures AmountsOf(lines + [l]) == AmountsOf(lines) + [l.amount]
    ensures Sum(AmountsOf(lines + [l])) == Add(Sum(AmountsOf(lines)), l.amount)
  {
    SumAppend(AmountsOf(lines), l.amount);
    assert AmountsOf(lines + [l]) == AmountsOf(lines) + [l.amount];
  }

  /** The legal checks that do not depend on the scale. */
  method CheckVersion(i: PayrollInput) returns (warnings: seq<Warning>, errors: seq<Blocking>)
    ensures warnings == FixtureWarnings(i) && errors == PreviousErrors(i)
  {
    hide Problems;
    var p := i.parameters;
    warnings, errors := [], [];
    if p.isFixture {
      warnings := warnings + [FixtureParameters];
    }
    var problems := ValidateParameterVersion(p);
    var k := 0;
    while k < |problems|
      invariant 0 <= k <= |problems|
      invariant errors == StructuralErrors(problems[..k])
    {
      errors := errors + [ParameterVersionInvalid(problems[k])];
      k := k + 1;
    }
    assert problems[..k] == problems;
    if p.status != Published {
      errors := errors + [ParameterVersionNotPublished];
    }
    if Code(i.period.from) < Code(p.effectiveFrom) ||
       (p.effectiveTo.Some? && Code(i.period.to) > Code(p.effectiveTo.value)) {
      errors := errors + [ParameterVersionNotEffective];
    }
    if i.period.month < 1 || i.period.month > 12 || i.period.calendarDays <= 0 {
      errors := errors + [InvalidPeriod];
    }
  }

  /** The base remuneration. */
  method PayBase(i: PayrollInput, warnings: seq<Warning>) returns (lines: seq<Line>, warnings': seq<Warning>)
    requires i.scheme == Monthly ==> i.parameters.overtime.monthlyHoursDivisor != 0.0
    ensures lines == [BaseLine(i)]
    ensures warnings' == warnings + TimeWarnings(i)
  {
    hide RoundConcept;
    hide Multiply;
    hide Divide;
    hide ToHours;
    var hourlyValue := if i.scheme == Monthly then Divide(i.agreed, i.parameters.overtime.monthlyHoursDivisor) else i.agreed;
    lines, warnings' := [], warnings;
    if i.scheme == Monthly {
      var baseAmount := RoundConcept(i, i.agreed);
      lines := lines + [Line("BASE_MONTHLY", Credit, i.agreed, baseAmount)];
    } else {
      var hours := ToHours(i.normalMinutes);
      var baseAmount := RoundConcept(i, Multiply(hourlyValue, hours));
      lines := lines + [Line("BASE_HOURLY", Credit, hourlyValue, baseAmount)];
    }
    if i.normalMinutes == 0 && i.scheme == Hourly {
      warnings' := warnings' + [NoWorkedTime];
    }
  }

  /** Overtime and holidays. */
  method PayOvertime(i: PayrollInput, lines: seq<Line>, warnings: seq<Warning>)
    returns (raised: bool, lines': seq<Line>, overtimeTotal: Amount, warnings': seq<Warning>)
    ensures raised <==> i.parameters.overtime.enabled &&
                        exists k :: 0 <= k < |i.overtime| && Liquidated(i, i.overtime[k]) && i.overtime[k].minutes < 0
    ensures !raised ==>
              && lines' == lines + OvertimeLines(i, EnabledOvertime(i)) + HolidayLines(i)
              && overtimeTotal == OvertimeTotal(i)
              && warnings' == warnings + EnabledOvertimeWarnings(i)
  {
    hide Sum;
    hide RoundConcept;
    hide Multiply;
    hide ToHours;
    hide HourlyValue;
    raised, lines', overtimeTotal, warnings' := false, lines, 0.0, warnings;
    EmptySum();
    if i.parameters.overtime.enabled {
      raised, lines', overtimeTotal, warnings' := LiquidateOvertime(i, lines', warnings');
      if raised {
        return;
      }
    } else if exists k :: 0 <= k < |i.overtime| && i.overtime[k].minutes > 0 {
      warnings' := warnings' + [RuleDisabled];
    }
    if i.parameters.holiday.enabled && i.holidayMinutes > 0 {
      var hours := ToHours(i.holidayMinutes);
      var rate := Multiply(HourlyValue(i), i.parameters.holiday.workedMultiplier);
      var amount := RoundConcept(i, Multiply(rate, hours));
      lines' := lines' + [Line("HOLIDAY_WORKED", Credit, HourlyValue(i), amount)];
    }
  }

  /** Seniority and unfavourable zone: percentages of what was just liquidated. */
  method PaySupplements(i: PayrollInput, overtimeTotal: Amount, lines: seq<Line>, warnings: seq<Warning>)
    returns (lines': seq<Line>, warnings': seq<Warning>)
    requires overtimeTotal == OvertimeTotal(i)
    ensures lines' == lines + SeniorityLines(i) + ZoneLines(i)
    ensures warnings' == warnings + SupplementWarnings(i)
  {
    hide OvertimeTotal;
    hide RoundConcept;
    lines', warnings' := lines, warnings;
    var baseAmount := BaseAmount(i);
    if i.parameters.seniority.enabled {
      var completedYears := CompletedYearsBetween(i.startDate, i.period.to);
      AnniversariesPassed(i.startDate, i.period.to, completedYears);
      var tiers := FindTier(i.parameters.seniority.tiers, completedYears);
      if tiers == [] {
        warnings' := warnings' + [SeniorityTierNotFound];
      } else {
        var base := if i.parameters.seniority.basePlusOvertime then Add(baseAmount, overtimeTotal) else baseAmount;
        lines' := lines' + [Line("SENIORITY", Credit, base, RoundConcept(i, ApplyPercentage(base, tiers[0].percentage)))];
      }
    }
    if i.zoneCode.Some? {
      var zones := ZoneOf(i);
      if zones == [] {
        warnings' := warnings' + [ZoneNotFound];
      } else {
        lines' := lines' + [Line("UNFAVORABLE_ZONE", Credit, baseAmount,
                                 RoundConcept(i, ApplyPercentage(baseAmount, zones[0].percentage)))];
      }
    }
  }

  /** Vacations, annual bonus and unpaid absences, each with its own divisor. */
  method PayLeave(i: PayrollInput, lines: seq<Line>, warnings: seq<Warning>)
    returns (raised: bool, lines': seq<Line>, warnings': seq<Warning>)
    ensures raised <==>
              || (i.parameters.vacation.enabled && ApprovedDays(i.events, Vacation) > 0 && i.parameters.vacation.divisor == 0.0)
              || (i.parameters.annualBonus.enabled && i.annualBonus.applies && i.parameters.annualBonus.divisor == 0.0)
              || (i.parameters.absence.enabled && UnpaidDays(i) > 0 && i.parameters.absence.divisor == 0.0)
    ensures !raised ==>
              && lines' == lines + VacationLines(i) + BonusLines(i) + AbsenceLines(i)
              && warnings' == warnings + LeaveWarnings(i)
  {
    hide RoundConcept;
    hide Multiply;
    hide Divide;
    hide IgnoredEvents;
    hide ApprovedDays;
    var p := i.parameters;
    raised, lines', warnings' := false, lines, warnings;
    var vacationDays;
    vacationDays, warnings' := SumApprovedEventDays(i.events, Vacation, warnings');
    if p.vacation.enabled && vacationDays > 0 {
      if p.vacation.divisor == 0.0 {
        return true, lines', warnings';
      }
      var dailyValue := Divide(i.agreed, p.vacation.divisor);
      lines' := lines' + [Line("VACATION", Credit, i.agreed, RoundConcept(i, Multiply(dailyValue, vacationDays as real)))];
    }
    if p.annualBonus.enabled && i.annualBonus.applies {
      if p.annualBonus.divisor == 0.0 {
        return true, lines', warnings';
      }
      var full := Divide(i.annualBonus.best, p.annualBonus.divisor);
      var proportion := Min(Max(i.annualBonus.months, 0), 6);
      var amount := RoundConcept(i, Divide(Multiply(full, proportion as real), 6.0));
      lines' := lines' + [Line("ANNUAL_BONUS", Credit, i.annualBonus.best, amount)];
    }
    var unjustified, unpaid;
    unjustified, warnings' := SumApprovedEventDays(i.events, AbsenceUnjustified, warnings');
    unpaid, warnings' := SumApprovedEventDays(i.events, UnpaidLeave, warnings');
    var unpaidDays := unjustified + unpaid;
    if p.absence.enabled && unpaidDays > 0 {
      if p.absence.divisor == 0.0 {
        return true, lines', warnings';
      }
      var dailyValue := Divide(i.agreed, p.absence.divisor);
      lines' := lines' + [Line("ABSENCE_DEDUCTION", Debit, i.agreed, RoundConcept(i, Multiply(dailyValue, unpaidDays as real)))];
    }
  }

  lemma Concat(x: seq<Warning>, y: seq<Warning>, z: seq<Warning>)
    ensures (x + y) + z == x + (y + z)
  {
  }

  /** Everything up to the totals. */
  method CollectLines(i: PayrollInput, warnings: seq<Warning>, errors: seq<Blocking>)
    returns (raised: bool, lines: seq<Line>, warnings': seq<Warning>, errors': seq<Blocking>)
    ensures raised <==> !LinesComputable(i)
    ensures !raised ==>
              lines == EarlyLines(i) && warnings' == warnings + MiddleWarnings(i) && errors' == errors + ConceptErrors(i.concepts)
  {
    hide Liquidated;
    hide ApprovedDays;
    hide UnpaidDays;
    hide TimeWarnings;
    hide SupplementWarnings;
    hide LeaveWarnings;
    hide BaseLine;
    hide OvertimeLines;
    hide HolidayLines;
    hide SeniorityLines;
    hide ZoneLines;
    hide VacationLines;
    hide BonusLines;
    hide AbsenceLines;
    hide AdvanceLines;
    hide ConceptLines;
    hide OvertimeTotal;
    hide EnabledOvertimeWarnings;
    hide IgnoredEvents;
    hide ConceptWarnings;
    hide ConceptErrors;
    raised, lines, warnings', errors' := false, [], warnings, errors;
    if i.scheme == Monthly && i.parameters.overtime.monthlyHoursDivisor == 0.0 {
      return true, lines, warnings', errors';
    }
    if i.normalMinutes < 0 || !RoundableTo(i.parameters.rounding.conceptDecimals) {
      return true, lines, warnings', errors';
    }
    lines, warnings' := PayBase(i, warnings');
    var overtimeTotal;
    raised, lines, overtimeTotal, warnings' := PayOvertime(i, lines, warnings');
    if raised {
      return;
    }
    Concat(warnings, TimeWarnings(i), EnabledOvertimeWarnings(i));
    lines, warnings' := PaySupplements(i, overtimeTotal, lines, warnings');
    Concat(warnings, TimeWarnings(i) + EnabledOvertimeWarnings(i), SupplementWarnings(i));
    raised, lines, warnings' := PayLeave(i, lines, warnings');
    if raised {
      return;
    }
    ghost var soFar := TimeWarnings(i) + EnabledOvertimeWarnings(i) + SupplementWarnings(i);
    Concat(warnings, soFar, LeaveWarnings(i));
    Concat(warnings, soFar + LeaveWarnings(i), IgnoredEvents(i.events, Advance));
    Concat(warnings, soFar + LeaveWarnings(i) + IgnoredEvents(i.events, Advance), ConceptWarnings(i.concepts));
    lines, warnings' := DeductAdvances(i, lines, warnings');
    lines, warnings', errors' := ApplyConcepts(i, lines, warnings', errors');
  }

  /** calculatePayroll. */
  method CalculatePayroll(i: PayrollInput) returns (o: Outcome)
    ensures o == Payroll(i)
  {
    hide RoundTotal;
    hide RoundConcept;
    hide Sum;
    hide Subtract;
    hide ApplyPercentage;
    hide EarlyLines;
    hide MiddleWarnings;
    hide PreviousErrors;
    hide ConceptErrors;
    hide Amounts;
    hide RunningDeductions;
    hide ContributionLines;
    hide Obligations;
    hide LinesComputable;
    var p := i.parameters;
    var warnings, errors := CheckVersion(i);
    var scales := FindCategoryScale(p, i.categoryCode, i.liveInMode);
    if scales == [] {
      return Done(PayrollResult([], 0.0, 0.0, 0.0, [], warnings, errors + [CategoryScaleNotFound]));
    }
    if i.agreed < (if i.scheme == Monthly then scales[0].monthlyMinimum else scales[0].hourlyMinimum) {
      errors := errors + [BelowLegalMinimum];
    }
    var raised, lines;
    raised, lines, warnings, errors := CollectLines(i, warnings, errors);
    if raised || !RoundableTo(p.rounding.totalDecimals) {
      return Raised;
    }
    var gross := RoundTotal(i, Sum(Amounts(lines, Credit)));
    var workerDeductions := Sum(Amounts(lines, Debit));
    var obligations;
    workerDeductions, lines, obligations := Contribute(i, gross, workerDeductions, lines);
    if p.workRisk.enabled {
      var amount := if p.workRisk.fixedAmount.Some? then RoundConcept(i, p.workRisk.fixedAmount.value)
                    else RoundConcept(i, ApplyPercentage(gross, p.workRisk.percentage));
      var base := if p.workRisk.fixedAmount.Some? then 0.0 else gross;
      obligations := obligations + [Obligation(p.workRisk.code, false, base, amount)];
      lines := lines + [Line("WORK_RISK_INSURANCE", Informational, base, amount)];
    }
    var deductions := RoundTotal(i, workerDeductions);
    var net := RoundTotal(i, Subtract(gross, deductions));
    if net < 0.0 {
      warnings := warnings + [NegativeNet];
    }
    assert gross == Gross(i) && deductions == Deductions(i) && net == Net(i);
    assert lines == AllLines(i);
    return Done(PayrollResult(lines, gross, deductions, net, obligations, warnings, errors));
  }
}
