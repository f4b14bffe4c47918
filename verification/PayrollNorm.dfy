/**
 * What a payroll owes: every line in exact arithmetic, stated on the input apart from the engine's procedure, and the
 * proof that the engine pays these lines, in this order, and no others.
 */
module PayrollNorm {
  import opened Calendar
  import opened Common
  import opened Decimals
  import opened Money
  import opened Sorting
  import opened PayrollParameters
  import opened PayrollEngine
  import opened PayrollConservation
  import opened PayrollPrecision

  /** What the base column of a line shows: a value after some roundings to 28 digits, or the line's own amount. */
  datatype Basis = Value(exact: real, roundings: nat) | Itself

  /** One line that is owed: its exact amount, and how many roundings to 28 digits the engine may spend on it. */
  datatype Claim = Claim(code: string, sign: Sign, basis: Basis, exact: real, roundings: nat)

  /** The exact value but for some roundings to 28 digits, rounded to the decimals of concepts in the version's mode. */
  ghost predicate Meets(i: PayrollInput, amount: Amount, exact: real, roundings: nat) {
    && i.parameters.rounding.conceptDecimals >= 0
    && exists x :: Within(x, exact, roundings) &&
                   amount == RoundTo(x, i.parameters.rounding.conceptDecimals, i.parameters.rounding.mode)
  }

  ghost predicate Shows(base: Amount, amount: Amount, basis: Basis) {
    match basis
    case Value(exact, roundings) => Within(base, exact, roundings)
    case Itself => base == amount
  }

  ghost predicate Pays(i: PayrollInput, l: Line, c: Claim) {
    && l.code == c.code && l.sign == c.sign && Shows(l.base, l.amount, c.basis)
    && Meets(i, l.amount, c.exact, c.roundings)
  }

  ghost predicate PaysAll(i: PayrollInput, lines: seq<Line>, claims: seq<Claim>) {
    |lines| == |claims| && forall k :: 0 <= k < |lines| ==> Pays(i, lines[k], claims[k])
  }

  // ---------------------------------------------------------------- the claims

  /** The claims of each element, in order. */
  function Each<T>(xs: seq<T>, claims: T -> seq<Claim>): seq<Claim> {
    if xs == [] then [] else Each(xs[..|xs| - 1], claims) + claims(xs[|xs| - 1])
  }

  /** Roundings in the hourly value: a monthly salary is divided. */
  function HourlyRoundings(i: PayrollInput): nat {
    if i.scheme == Monthly then 1 else 0
  }

  function HourlyBasis(i: PayrollInput): Basis {
    Value(ExactHourly(i), HourlyRoundings(i))
  }

  /** The agreed salary, or the hours worked at the agreed hourly value. */
  function BaseClaim(i: PayrollInput): Claim {
    if i.scheme == Monthly then Claim("BASE_MONTHLY", Credit, Value(i.agreed, 0), i.agreed, 0)
    else Claim("BASE_HOURLY", Credit, Value(i.agreed, 0), ExactPay(i.agreed, i.normalMinutes), 2)
  }

  /** Time at the hourly value with a multiplier. */
  function TimeClaim(i: PayrollInput, code: string, multiplier: real, minutes: int): Claim {
    Claim(code, Credit, HourlyBasis(i), ExactPay(Times(ExactHourly(i), multiplier), minutes), HourlyRoundings(i) + 3)
  }

  function OvertimeClaim(i: PayrollInput, e: OvertimeEntry): seq<Claim> {
    var kinds := First(i.parameters.overtime.kinds, (k: OvertimeKind) => k.code == e.kindCode);
    if e.minutes == 0 || kinds == [] then [] else [TimeClaim(i, "OVERTIME:" + e.kindCode, kinds[0].multiplier, e.minutes)]
  }

  function OvertimeClaims(i: PayrollInput): seq<Claim> {
    if i.parameters.overtime.enabled then Each(i.overtime, (e: OvertimeEntry) => OvertimeClaim(i, e)) else []
  }

  function HolidayClaims(i: PayrollInput): seq<Claim> {
    if i.parameters.holiday.enabled && i.holidayMinutes > 0 then
      [TimeClaim(i, "HOLIDAY_WORKED", i.parameters.holiday.workedMultiplier, i.holidayMinutes)]
    else []
  }

  function OverDivisor(x: real, divisor: real): real {
    if divisor == 0.0 then 0.0 else x / divisor
  }

  /** A percentage of an amount. */
  function PercentClaim(code: string, sign: Sign, percentage: real, of: Amount): Claim {
    Claim(code, sign, Value(of, 0), OverDivisor(Times(of, percentage), 100.0), 2)
  }

  /** What was paid as base, which is the first line. */
  function BasePaid(paid: seq<Line>): Amount {
    if paid == [] then 0.0 else paid[0].amount
  }

  /** What was paid as overtime, which is the lines after it. */
  function OvertimePaid(i: PayrollInput, paid: seq<Line>): Amount {
    var n := |OvertimeClaims(i)|;
    if n + 1 <= |paid| then Sum(AmountsOf(paid[1..n + 1])) else 0.0
  }

  /** The percentage of the tier of the completed years, on the base or on base and overtime. */
  function SeniorityClaims(i: PayrollInput, paid: seq<Line>): seq<Claim> {
    var years := CompletedYears(i.startDate, i.period.to);
    var tiers := First(i.parameters.seniority.tiers,
                       (t: SeniorityTier) => t.fromYears <= years && (t.toYears.Some? ==> years <= t.toYears.value));
    if !i.parameters.seniority.enabled || tiers == [] then []
    else [PercentClaim("SENIORITY", Credit, tiers[0].percentage,
                       if i.parameters.seniority.basePlusOvertime then Add(BasePaid(paid), OvertimePaid(i, paid)) else BasePaid(paid))]
  }

  function ZoneClaims(i: PayrollInput, paid: seq<Line>): seq<Claim> {
    match (i.zoneCode, i.parameters.unfavorableZone)
    case (Some(code), Some(rule)) =>
      var zones := First(rule.zones, (z: Zone) => z.code == code);
      if rule.enabled && zones != [] then [PercentClaim("UNFAVORABLE_ZONE", Credit, zones[0].percentage, BasePaid(paid))] else []
    case _ => []
  }

  /** The days of approved events of a kind. */
  function DaysTaken(events: seq<Event>, kind: EventType): int {
    if events == [] then 0
    else (if events[0].approved && events[0].kind == kind then events[0].days else 0) + DaysTaken(events[1..], kind)
  }

  /** Days at a daily value of the agreed remuneration. */
  function DaysClaims(i: PayrollInput, code: string, sign: Sign, rule: DivisorRule, days: int): seq<Claim> {
    if rule.enabled && days > 0 then
      [Claim(code, sign, Value(i.agreed, 0), Times(OverDivisor(i.agreed, rule.divisor), days as real), 2)]
    else []
  }

  /** The months of the half-year that count. */
  function MonthsOfHalfYear(months: int): int {
    if months < 0 then 0 else if months > 6 then 6 else months
  }

  function BonusClaims(i: PayrollInput): seq<Claim> {
    if i.parameters.annualBonus.enabled && i.annualBonus.applies then
      [Claim("ANNUAL_BONUS", Credit, Value(i.annualBonus.best, 0),
             OverDivisor(Times(OverDivisor(i.annualBonus.best, i.parameters.annualBonus.divisor),
                               MonthsOfHalfYear(i.annualBonus.months) as real), 6.0), 3)]
    else []
  }

  /** An amount as it stands. */
  function PlainClaim(code: string, sign: Sign, amount: Amount): Claim {
    Claim(code, sign, Itself, amount, 0)
  }

  function AdvanceClaim(e: Event): seq<Claim> {
    if e.kind == Advance && e.approved then
      [PlainClaim("ADVANCE_DEDUCTION", Debit, match e.amount case None => 0.0 case Some(a) => a)]
    else []
  }

  /** A discount is taken when it is justified, a payment always. */
  function ConceptClaim(c: Concept): seq<Claim> {
    if !c.isDebit then [PlainClaim("ADDITIONAL:" + c.code, Credit, c.amount)]
    else if HasText(c.justification) then [PlainClaim("ADDITIONAL:" + c.code, Debit, c.amount)]
    else []
  }

  /** A share of the gross or a fixed amount. */
  function ShareClaim(code: string, sign: Sign, fixedAmount: Option<real>, percentage: real, gross: Amount): Claim {
    match fixedAmount
    case Some(a) => Claim(code, sign, Value(0.0, 0), a, 0)
    case None => PercentClaim(code, sign, percentage, gross)
  }

  function FixedOf(c: Contribution): Option<real> {
    if !c.isFixed then None else if c.fixedAmount.None? then Some(0.0) else c.fixedAmount
  }

  /** The worker's contributions are discounts, the employer's only information. */
  function ContributionClaim(c: Contribution, gross: Amount): seq<Claim> {
    if c.borneByWorker then [ShareClaim("WORKER_CONTRIBUTION:" + c.code, Debit, FixedOf(c), c.percentage, gross)]
    else [ShareClaim("EMPLOYER_CONTRIBUTION:" + c.code, Informational, FixedOf(c), c.percentage, gross)]
  }

  function RiskClaims(i: PayrollInput, gross: Amount): seq<Claim> {
    var w := i.parameters.workRisk;
    if w.enabled then [ShareClaim("WORK_RISK_INSURANCE", Informational, w.fixedAmount, w.percentage, gross)] else []
  }

  /** All that is owed, given the gross and the first lines as they were paid. */
  function Owed(i: PayrollInput, gross: Amount, paid: seq<Line>): seq<Claim> {
    [BaseClaim(i)] + OvertimeClaims(i) + HolidayClaims(i) + SeniorityClaims(i, paid) + ZoneClaims(i, paid) +
    DaysClaims(i, "VACATION", Credit, i.parameters.vacation, DaysTaken(i.events, Vacation)) +
    BonusClaims(i) +
    DaysClaims(i, "ABSENCE_DEDUCTION", Debit, i.parameters.absence,
               DaysTaken(i.events, AbsenceUnjustified) + DaysTaken(i.events, UnpaidLeave)) +
    Each(i.events, AdvanceClaim) + Each(i.concepts, ConceptClaim) +
    Each(i.parameters.contributions, (c: Contribution) => ContributionClaim(c, gross)) + RiskClaims(i, gross)
  }

  // ---------------------------------------------------------------- one amount

  lemma MeetsRounded(i: PayrollInput, x: Amount, exact: real, n: nat)
    requires Computable(i) && Within(x, exact, n)
    ensures Meets(i, RoundConcept(i, x), exact, n)
  {
    RoundConceptIs(i, x);
    hide Computable;
    hide RoundConcept;
    hide RoundTo;
    hide Within;
  }

  lemma PaysOne(i: PayrollInput, l: Line, c: Claim)
    requires Pays(i, l, c)
    ensures PaysAll(i, [l], [c])
  {
    hide Pays;
  }

  lemma PaysNothing(i: PayrollInput)
    ensures PaysAll(i, [], [])
  {
  }

  lemma PaysMore(i: PayrollInput, a: seq<Line>, ca: seq<Claim>, b: seq<Line>, cb: seq<Claim>)
    requires PaysAll(i, a, ca) && PaysAll(i, b, cb)
    ensures PaysAll(i, a + b, ca + cb)
  {
    hide Pays;
    forall k | 0 <= k < |a + b|
      ensures Pays(i, (a + b)[k], (ca + cb)[k])
    {
      assert k < |a| ==> (a + b)[k] == a[k] && (ca + cb)[k] == ca[k];
      assert k >= |a| ==> (a + b)[k] == b[k - |a|] && (ca + cb)[k] == cb[k - |a|];
    }
  }

  lemma {:induction false} FirstAgrees<T>(xs: seq<T>, p: T -> bool, q: T -> bool)
    requires forall x :: x in xs ==> p(x) == q(x)
    ensures First(xs, p) == First(xs, q)
  {
    if xs != [] {
      FirstAgrees(xs[1..], p, q);
    }
  }

  lemma DividedWithin(a: Amount, exact: real, n: nat, divisor: real)
    requires Within(a, exact, n) && divisor != 0.0
    ensures Within(Divide(a, divisor), OverDivisor(exact, divisor), n + 1)
  {
    hide Within;
    hide Divide;
    WithinQuotient(a, exact, n, divisor);
  }

  lemma PlainPaid(i: PayrollInput, code: string, sign: Sign, amount: Amount)
    requires Computable(i)
    ensures Pays(i, Line(code, sign, RoundConcept(i, amount), RoundConcept(i, amount)), PlainClaim(code, sign, amount))
  {
    hide RoundConcept;
    hide Computable;
    hide Within;
    WithinExact(amount);
    MeetsRounded(i, amount, amount, 0);
    hide Meets;
  }

  lemma PercentPaid(i: PayrollInput, code: string, sign: Sign, percentage: real, of: Amount)
    requires Computable(i)
    ensures Pays(i, Line(code, sign, of, RoundConcept(i, ApplyPercentage(of, percentage))), PercentClaim(code, sign, percentage, of))
  {
    hide RoundConcept;
    hide Computable;
    hide Within;
    hide Times;
    hide Multiply;
    hide Divide;
    WithinExact(of);
    WithinExact(percentage);
    WithinProduct(of, of, 0, percentage, percentage, 0);
    DividedWithin(Multiply(of, percentage), Times(of, percentage), 1, 100.0);
    hide OverDivisor;
    MeetsRounded(i, ApplyPercentage(of, percentage), OverDivisor(Times(of, percentage), 100.0), 2);
    hide Meets;
  }

  // ---------------------------------------------------------------- section by section

  lemma BaseMeets(i: PayrollInput)
    requires Computable(i)
    ensures Pays(i, BaseLine(i), BaseClaim(i))
  {
    hide RoundConcept;
    hide Computable;
    hide Within;
    hide Multiply;
    hide ToHours;
    hide Times;
    WithinExact(i.agreed);
    if i.scheme == Monthly {
      MeetsRounded(i, i.agreed, i.agreed, 0);
    } else {
      HoursWithin(i.normalMinutes);
      WithinProduct(i.agreed, i.agreed, 0, ToHours(i.normalMinutes), i.normalMinutes as real / 60.0, 1);
      MeetsRounded(i, Multiply(i.agreed, ToHours(i.normalMinutes)), ExactPay(i.agreed, i.normalMinutes), 2);
    }
    hide Meets;
  }

  lemma TimeMeets(i: PayrollInput, code: string, multiplier: real, minutes: int)
    requires Computable(i)
    ensures Pays(i, Line(code, Credit, HourlyValue(i), OvertimeAmount(i, multiplier, minutes)), TimeClaim(i, code, multiplier, minutes))
  {
    hide RoundConcept;
    hide Computable;
    hide Within;
    hide Multiply;
    hide ToHours;
    hide Times;
    hide HourlyValue;
    hide ExactHourly;
    var h, rate := HourlyRoundings(i), Multiply(HourlyValue(i), multiplier);
    HourlyWithin(i);
    WithinExact(multiplier);
    HoursWithin(minutes);
    WithinProduct(HourlyValue(i), ExactHourly(i), h, multiplier, multiplier, 0);
    WithinProduct(rate, Times(ExactHourly(i), multiplier), h + 1, ToHours(minutes), minutes as real / 60.0, 1);
    MeetsRounded(i, Multiply(rate, ToHours(minutes)), ExactPay(Times(ExactHourly(i), multiplier), minutes), h + 3);
    hide Meets;
  }

  lemma OneOvertimePaid(i: PayrollInput, e: OvertimeEntry)
    requires Computable(i)
    ensures PaysAll(i, OvertimeLine(i, e), OvertimeClaim(i, e))
  {
    hide Computable;
    hide Pays;
    hide OvertimeAmount;
    hide HourlyValue;
    hide TimeClaim;
    var kinds := KindOf(i, e.kindCode);
    FirstFound(i.parameters.overtime.kinds, (k: OvertimeKind) => k.code == e.kindCode);
    FirstAgrees(i.parameters.overtime.kinds, (k: OvertimeKind) => k.code == e.kindCode, (k: OvertimeKind) => k.code == e.kindCode);
    if kinds != [] {
      TimeMeets(i, "OVERTIME:" + e.kindCode, kinds[0].multiplier, e.minutes);
    }
  }

  lemma {:induction false} OvertimeIsPaid(i: PayrollInput, entries: seq<OvertimeEntry>, claims: OvertimeEntry -> seq<Claim>)
    requires Computable(i) && forall e :: claims(e) == OvertimeClaim(i, e)
    ensures PaysAll(i, OvertimeLines(i, entries), Each(entries, claims))
  {
    hide Computable;
    hide OvertimeLine;
    hide OvertimeClaim;
    hide PaysAll;
    PaysNothing(i);
    if entries != [] {
      var front, e := entries[..|entries| - 1], entries[|entries| - 1];
      OvertimeIsPaid(i, front, claims);
      OneOvertimePaid(i, e);
      PaysMore(i, OvertimeLines(i, front), Each(front, claims), OvertimeLine(i, e), claims(e));
    }
  }

  lemma EnabledOvertimeIsPaid(i: PayrollInput)
    requires Computable(i)
    ensures PaysAll(i, OvertimeLines(i, EnabledOvertime(i)), OvertimeClaims(i))
  {
    hide Computable;
    hide OvertimeClaim;
    hide PaysAll;
    PaysNothing(i);
    OvertimeIsPaid(i, i.overtime, (e: OvertimeEntry) => OvertimeClaim(i, e));
  }

  lemma HolidaysArePaid(i: PayrollInput)
    requires Computable(i)
    ensures PaysAll(i, HolidayLines(i), HolidayClaims(i))
  {
    hide Computable;
    hide Pays;
    hide OvertimeAmount;
    hide HourlyValue;
    hide TimeClaim;
    TimeMeets(i, "HOLIDAY_WORKED", i.parameters.holiday.workedMultiplier, i.holidayMinutes);
  }

  /** The lines paid so far begin with the base and the overtime. */
  predicate BeginsWith(paid: seq<Line>, i: PayrollInput) {
    var overtime := OvertimeLines(i, EnabledOvertime(i));
    |paid| >= 1 + |overtime| && paid[0] == BaseLine(i) && paid[1..1 + |overtime|] == overtime
  }

  lemma PaidParts(i: PayrollInput, paid: seq<Line>)
    requires Computable(i) && BeginsWith(paid, i)
    ensures BasePaid(paid) == BaseAmount(i) && OvertimePaid(i, paid) == OvertimeTotal(i)
  {
    hide Computable;
    EnabledOvertimeIsPaid(i);
    hide OvertimeClaims;
    hide OvertimeLines;
    hide Pays;
    hide BaseAmount;
    hide Sum;
    hide AmountsOf;
  }

  lemma SeniorityIsPaid(i: PayrollInput, paid: seq<Line>)
    requires Computable(i) && BeginsWith(paid, i)
    ensures PaysAll(i, SeniorityLines(i), SeniorityClaims(i, paid))
  {
    hide Computable;
    hide Pays;
    hide BaseAmount;
    hide OvertimeTotal;
    hide BeginsWith;
    hide BasePaid;
    hide OvertimePaid;
    hide Add;
    hide RoundConcept;
    hide ApplyPercentage;
    hide PercentClaim;
    PaidParts(i, paid);
    var years := CompletedYears(i.startDate, i.period.to);
    FirstAgrees(i.parameters.seniority.tiers, (t: SeniorityTier) => InTier(t, years),
                (t: SeniorityTier) => t.fromYears <= years && (t.toYears.Some? ==> years <= t.toYears.value));
    if TierOf(i) != [] {
      PercentPaid(i, "SENIORITY", Credit, TierOf(i)[0].percentage, SeniorityBase(i));
    }
  }

  lemma ZoneIsPaid(i: PayrollInput, paid: seq<Line>)
    requires Computable(i) && BeginsWith(paid, i)
    ensures PaysAll(i, ZoneLines(i), ZoneClaims(i, paid))
  {
    hide Computable;
    hide Pays;
    hide BaseAmount;
    hide BeginsWith;
    hide BasePaid;
    hide RoundConcept;
    hide ApplyPercentage;
    hide PercentClaim;
    PaidParts(i, paid);
    if i.zoneCode.Some? && i.parameters.unfavorableZone.Some? {
      FirstAgrees(i.parameters.unfavorableZone.value.zones, (z: Zone) => z.code == i.zoneCode.value, (z: Zone) => z.code == i.zoneCode.value);
    }
    if ZoneOf(i) != [] {
      PercentPaid(i, "UNFAVORABLE_ZONE", Credit, ZoneOf(i)[0].percentage, BaseAmount(i));
    }
  }

  lemma {:induction false} DaysAreApproved(events: seq<Event>, kind: EventType)
    ensures DaysTaken(events, kind) == ApprovedDays(events, kind)
  {
    if |events| == 1 {
      assert events[1..] == [] && events[..0] == [];
    } else if |events| > 1 {
      var middle := events[1..|events| - 1];
      DaysAreApproved(events[1..], kind);
      DaysAreApproved(events[..|events| - 1], kind);
      DaysAreApproved(middle, kind);
      assert events[1..][..|events| - 2] == middle && events[..|events| - 1][1..] == middle;
      assert events[..|events| - 1][0] == events[0] && events[1..][|events| - 2] == events[|events| - 1];
    }
  }

  lemma DaysMeet(i: PayrollInput, divisor: real, days: int)
    requires Computable(i)
    ensures Meets(i, RoundConcept(i, Multiply(Quotient(i.agreed, divisor), days as real)),
                  Times(OverDivisor(i.agreed, divisor), days as real), 2)
  {
    hide RoundConcept;
    hide Computable;
    hide Within;
    hide Meets;
    hide Multiply;
    hide Divide;
    hide Times;
    QuotientWithin(i.agreed, divisor);
    WithinExact(days as real);
    WithinProduct(Quotient(i.agreed, divisor), OverDivisor(i.agreed, divisor), 1, days as real, days as real, 0);
    MeetsRounded(i, Multiply(Quotient(i.agreed, divisor), days as real), Times(OverDivisor(i.agreed, divisor), days as real), 2);
  }

  lemma QuotientWithin(x: Amount, divisor: real)
    ensures Within(Quotient(x, divisor), OverDivisor(x, divisor), 1)
  {
    hide Within;
    WithinExact(x);
    if divisor != 0.0 {
      WithinQuotient(x, x, 0, divisor);
    } else {
      WithinExact(0.0);
      WithinRounded(0.0, 0.0, 0);
      assert Round28(0.0) == 0.0;
    }
  }

  lemma LeaveIsPaid(i: PayrollInput)
    requires Computable(i)
    ensures PaysAll(i, VacationLines(i), DaysClaims(i, "VACATION", Credit, i.parameters.vacation, DaysTaken(i.events, Vacation)))
    ensures PaysAll(i, AbsenceLines(i),
                    DaysClaims(i, "ABSENCE_DEDUCTION", Debit, i.parameters.absence,
                               DaysTaken(i.events, AbsenceUnjustified) + DaysTaken(i.events, UnpaidLeave)))
  {
    hide Computable;
    hide RoundConcept;
    hide Meets;
    hide Multiply;
    hide Quotient;
    hide OverDivisor;
    hide Times;
    hide Within;
    hide ApprovedDays;
    hide DaysTaken;
    DaysAreApproved(i.events, Vacation);
    DaysAreApproved(i.events, AbsenceUnjustified);
    DaysAreApproved(i.events, UnpaidLeave);
    DaysMeet(i, i.parameters.vacation.divisor, ApprovedDays(i.events, Vacation));
    DaysMeet(i, i.parameters.absence.divisor, UnpaidDays(i));
    WithinExact(i.agreed);
  }

  lemma BonusIsPaid(i: PayrollInput)
    requires Computable(i)
    ensures PaysAll(i, BonusLines(i), BonusClaims(i))
  {
    hide Computable;
    hide RoundConcept;
    hide Meets;
    hide Multiply;
    hide Divide;
    hide Quotient;
    hide OverDivisor;
    hide Times;
    hide Within;
    var best, divisor, months := i.annualBonus.best, i.parameters.annualBonus.divisor, MonthsOfHalfYear(i.annualBonus.months) as real;
    QuotientWithin(best, divisor);
    WithinExact(months);
    WithinExact(best);
    WithinProduct(Quotient(best, divisor), OverDivisor(best, divisor), 1, months, months, 0);
    DividedWithin(Multiply(Quotient(best, divisor), months), Times(OverDivisor(best, divisor), months), 2, 6.0);
    MeetsRounded(i, Divide(Multiply(Quotient(best, divisor), months), 6.0), OverDivisor(Times(OverDivisor(best, divisor), months), 6.0), 3);
  }

  lemma {:induction false} AdvancesAreTaken(i: PayrollInput, events: seq<Event>)
    requires Computable(i)
    ensures PaysAll(i, AdvanceLines(i, events), Each(events, AdvanceClaim))
  {
    hide Computable;
    hide Pays;
    hide RoundConcept;
    PaysNothing(i);
    if events != [] {
      var front, e := events[..|events| - 1], events[|events| - 1];
      AdvancesAreTaken(i, front);
      var amount := if e.amount.Some? then e.amount.value else 0.0;
      PlainPaid(i, "ADVANCE_DEDUCTION", Debit, amount);
      PaysMore(i, AdvanceLines(i, front), Each(front, AdvanceClaim), AdvanceLine(i, e), AdvanceClaim(e));
    }
  }

  lemma {:induction false} ConceptsAreApplied(i: PayrollInput, concepts: seq<Concept>)
    requires Computable(i)
    ensures PaysAll(i, ConceptLines(i, concepts), Each(concepts, ConceptClaim))
  {
    hide Computable;
    hide Pays;
    hide RoundConcept;
    hide HasText;
    PaysNothing(i);
    if concepts != [] {
      var front, c := concepts[..|concepts| - 1], concepts[|concepts| - 1];
      ConceptsAreApplied(i, front);
      PlainPaid(i, "ADDITIONAL:" + c.code, if c.isDebit then Debit else Credit, c.amount);
      PaysMore(i, ConceptLines(i, front), Each(front, ConceptClaim), ConceptLine(i, c), ConceptClaim(c));
    }
  }

  lemma SharePaid(i: PayrollInput, code: string, sign: Sign, fixedAmount: Option<real>, percentage: real, gross: Amount)
    requires Computable(i)
    ensures var base := if fixedAmount.Some? then 0.0 else gross;
            var amount := if fixedAmount.Some? then RoundConcept(i, fixedAmount.value) else RoundConcept(i, ApplyPercentage(gross, percentage));
            Pays(i, Line(code, sign, base, amount), ShareClaim(code, sign, fixedAmount, percentage, gross))
  {
    hide Computable;
    hide RoundConcept;
    hide ApplyPercentage;
    hide Meets;
    hide Within;
    WithinExact(0.0);
    match fixedAmount
    case Some(a) =>
      WithinExact(a);
      MeetsRounded(i, a, a, 0);
    case None => PercentPaid(i, code, sign, percentage, gross);
  }

  lemma ContributionPaid(i: PayrollInput, c: Contribution, gross: Amount)
    requires Computable(i)
    ensures PaysAll(i, [ContributionLine(i, c, gross)], ContributionClaim(c, gross))
  {
    hide Computable;
    hide RoundConcept;
    hide ApplyPercentage;
    hide Pays;
    hide ShareClaim;
    SharePaid(i, if c.borneByWorker then "WORKER_CONTRIBUTION:" + c.code else "EMPLOYER_CONTRIBUTION:" + c.code,
              if c.borneByWorker then Debit else Informational, FixedOf(c), c.percentage, gross);
  }

  lemma {:induction false} ContributionsAreTaken(i: PayrollInput, cs: seq<Contribution>, gross: Amount, claims: Contribution -> seq<Claim>)
    requires Computable(i) && forall c :: claims(c) == ContributionClaim(c, gross)
    ensures PaysAll(i, ContributionLines(i, cs, gross), Each(cs, claims))
  {
    hide Computable;
    hide PaysAll;
    hide ContributionLine;
    hide ContributionClaim;
    PaysNothing(i);
    if cs != [] {
      var front, c := cs[..|cs| - 1], cs[|cs| - 1];
      ContributionsAreTaken(i, front, gross, claims);
      ContributionPaid(i, c, gross);
      PaysMore(i, ContributionLines(i, front, gross), Each(front, claims), [ContributionLine(i, c, gross)], claims(c));
    }
  }

  lemma RiskIsShown(i: PayrollInput, gross: Amount)
    requires Computable(i)
    ensures PaysAll(i, WorkRiskLines(i, gross), RiskClaims(i, gross))
  {
    hide Computable;
    hide RoundConcept;
    hide ApplyPercentage;
    hide Pays;
    hide ShareClaim;
    var w := i.parameters.workRisk;
    SharePaid(i, "WORK_RISK_INSURANCE", Informational, w.fixedAmount, w.percentage, gross);
  }

  // ---------------------------------------------------------------- all lines

  lemma FirstLines(i: PayrollInput)
    ensures BeginsWith(AllLines(i), i)
  {
    hide Gross;
    hide BaseLine;
    hide OvertimeLines;
    hide HolidayLines;
    hide SeniorityLines;
    hide ZoneLines;
    hide VacationLines;
    hide BonusLines;
    hide AbsenceLines;
    hide AdvanceLines;
    hide ConceptLines;
    hide ContributionLines;
    hide WorkRiskLines;
    var base, overtime := [BaseLine(i)], OvertimeLines(i, EnabledOvertime(i));
    var rest := HolidayLines(i) + SeniorityLines(i) + ZoneLines(i) + VacationLines(i) + BonusLines(i) + AbsenceLines(i) +
                AdvanceLines(i, i.events) + ConceptLines(i, i.concepts) +
                ContributionLines(i, i.parameters.contributions, Gross(i)) + WorkRiskLines(i, Gross(i));
    assert AllLines(i) == base + overtime + rest;
  }

  lemma EarlyLinesArePaid(i: PayrollInput, paid: seq<Line>)
    requires Computable(i) && BeginsWith(paid, i)
    ensures PaysAll(i, EarlyLines(i),
                    [BaseClaim(i)] + OvertimeClaims(i) + HolidayClaims(i) + SeniorityClaims(i, paid) + ZoneClaims(i, paid) +
                    DaysClaims(i, "VACATION", Credit, i.parameters.vacation, DaysTaken(i.events, Vacation)) +
                    BonusClaims(i) +
                    DaysClaims(i, "ABSENCE_DEDUCTION", Debit, i.parameters.absence,
                               DaysTaken(i.events, AbsenceUnjustified) + DaysTaken(i.events, UnpaidLeave)) +
                    Each(i.events, AdvanceClaim) + Each(i.concepts, ConceptClaim))
  {
    EarlyLinesAre(i);
    hide *;
    BaseMeets(i);
    PaysOne(i, BaseLine(i), BaseClaim(i));
    EnabledOvertimeIsPaid(i);
    HolidaysArePaid(i);
    SeniorityIsPaid(i, paid);
    ZoneIsPaid(i, paid);
    LeaveIsPaid(i);
    BonusIsPaid(i);
    AdvancesAreTaken(i, i.events);
    ConceptsAreApplied(i, i.concepts);
    var l, c := [BaseLine(i)], [BaseClaim(i)];
    l, c := Joined(i, l, c, OvertimeLines(i, EnabledOvertime(i)), OvertimeClaims(i));
    l, c := Joined(i, l, c, HolidayLines(i), HolidayClaims(i));
    l, c := Joined(i, l, c, SeniorityLines(i), SeniorityClaims(i, paid));
    l, c := Joined(i, l, c, ZoneLines(i), ZoneClaims(i, paid));
    l, c := Joined(i, l, c, VacationLines(i), DaysClaims(i, "VACATION", Credit, i.parameters.vacation, DaysTaken(i.events, Vacation)));
    l, c := Joined(i, l, c, BonusLines(i), BonusClaims(i));
    l, c := Joined(i, l, c, AbsenceLines(i),
                   DaysClaims(i, "ABSENCE_DEDUCTION", Debit, i.parameters.absence,
                              DaysTaken(i.events, AbsenceUnjustified) + DaysTaken(i.events, UnpaidLeave)));
    l, c := Joined(i, l, c, AdvanceLines(i, i.events), Each(i.events, AdvanceClaim));
    l, c := Joined(i, l, c, ConceptLines(i, i.concepts), Each(i.concepts, ConceptClaim));
  }

  lemma Joined(i: PayrollInput, a: seq<Line>, ca: seq<Claim>, b: seq<Line>, cb: seq<Claim>) returns (l: seq<Line>, c: seq<Claim>)
    requires PaysAll(i, a, ca) && PaysAll(i, b, cb)
    ensures l == a + b && c == ca + cb && PaysAll(i, l, c)
  {
    hide *;
    PaysMore(i, a, ca, b, cb);
    l, c := a + b, ca + cb;
  }

  lemma EarlyLinesAre(i: PayrollInput)
    ensures EarlyLines(i) ==
            [BaseLine(i)] + OvertimeLines(i, EnabledOvertime(i)) + HolidayLines(i) + SeniorityLines(i) + ZoneLines(i) +
            VacationLines(i) + BonusLines(i) + AbsenceLines(i) + AdvanceLines(i, i.events) + ConceptLines(i, i.concepts)
    ensures AllLines(i) ==
            EarlyLines(i) + ContributionLines(i, i.parameters.contributions, Gross(i)) + WorkRiskLines(i, Gross(i))
  {
  }

  lemma OwedIs(i: PayrollInput, gross: Amount, paid: seq<Line>)
    ensures Owed(i, gross, paid) ==
            [BaseClaim(i)] + OvertimeClaims(i) + HolidayClaims(i) + SeniorityClaims(i, paid) + ZoneClaims(i, paid) +
            DaysClaims(i, "VACATION", Credit, i.parameters.vacation, DaysTaken(i.events, Vacation)) +
            BonusClaims(i) +
            DaysClaims(i, "ABSENCE_DEDUCTION", Debit, i.parameters.absence,
                       DaysTaken(i.events, AbsenceUnjustified) + DaysTaken(i.events, UnpaidLeave)) +
            Each(i.events, AdvanceClaim) + Each(i.concepts, ConceptClaim) +
            Each(i.parameters.contributions, (c: Contribution) => ContributionClaim(c, gross)) + RiskClaims(i, gross)
  {
  }

  lemma AllLinesArePaid(i: PayrollInput)
    requires Computable(i)
    ensures PaysAll(i, AllLines(i), Owed(i, Gross(i), AllLines(i)))
  {
    hide *;
    var paid, gross := AllLines(i), Gross(i);
    FirstLines(i);
    EarlyLinesAre(i);
    EarlyLinesArePaid(i, paid);
    OwedIs(i, gross, paid);
    var claims := (c: Contribution) => ContributionClaim(c, gross);
    ContributionsAreTaken(i, i.parameters.contributions, gross, claims);
    RiskIsShown(i, gross);
    PaysMore(i, EarlyLines(i),
             [BaseClaim(i)] + OvertimeClaims(i) + HolidayClaims(i) + SeniorityClaims(i, paid) + ZoneClaims(i, paid) +
             DaysClaims(i, "VACATION", Credit, i.parameters.vacation, DaysTaken(i.events, Vacation)) +
             BonusClaims(i) +
             DaysClaims(i, "ABSENCE_DEDUCTION", Debit, i.parameters.absence,
                        DaysTaken(i.events, AbsenceUnjustified) + DaysTaken(i.events, UnpaidLeave)) +
             Each(i.events, AdvanceClaim) + Each(i.concepts, ConceptClaim),
             ContributionLines(i, i.parameters.contributions, gross), Each(i.parameters.contributions, claims));
    PaysMore(i, EarlyLines(i) + ContributionLines(i, i.parameters.contributions, gross),
             [BaseClaim(i)] + OvertimeClaims(i) + HolidayClaims(i) + SeniorityClaims(i, paid) + ZoneClaims(i, paid) +
             DaysClaims(i, "VACATION", Credit, i.parameters.vacation, DaysTaken(i.events, Vacation)) +
             BonusClaims(i) +
             DaysClaims(i, "ABSENCE_DEDUCTION", Debit, i.parameters.absence,
                        DaysTaken(i.events, AbsenceUnjustified) + DaysTaken(i.events, UnpaidLeave)) +
             Each(i.events, AdvanceClaim) + Each(i.concepts, ConceptClaim) + Each(i.parameters.contributions, claims),
             WorkRiskLines(i, gross), RiskClaims(i, gross));
  }

  // ---------------------------------------------------------------- the outcome

  /** The version has a scale for the category and mode of the relationship. */
  predicate InScale(i: PayrollInput) {
    exists k :: 0 <= k < |i.parameters.categories| && i.parameters.categories[k].categoryCode == i.categoryCode &&
                i.parameters.categories[k].liveInMode == i.liveInMode
  }

  lemma ScaleIsFound(i: PayrollInput)
    ensures HasScale(i) <==> InScale(i)
  {
    var scales := i.parameters.categories;
    FirstFound(scales, (s: CategoryScale) => Matches(s, i.categoryCode, i.liveInMode));
    if HasScale(i) {
      var s := FindCategoryScale(i.parameters, i.categoryCode, i.liveInMode)[0];
      var k :| 0 <= k < |scales| && scales[k] == s;
    }
    if InScale(i) {
      var k :| 0 <= k < |scales| && scales[k].categoryCode == i.categoryCode && scales[k].liveInMode == i.liveInMode;
      assert scales[k] in scales;
    }
  }

  /** An obligation of an authority: the share or fixed amount of one contribution. */
  ghost predicate Obliges(i: PayrollInput, o: Obligation, code: string, borneByWorker: bool, fixedAmount: Option<real>,
                          percentage: real, gross: Amount) {
    && o.code == code && o.borneByWorker == borneByWorker
    && Pays(i, Line(code, Debit, o.base, o.amount), ShareClaim(code, Debit, fixedAmount, percentage, gross))
  }

  /** One obligation for each contribution, in order, and one for the work-risk insurance. */
  ghost predicate ObligesAll(i: PayrollInput, obligations: seq<Obligation>, gross: Amount) {
    var cs, w := i.parameters.contributions, i.parameters.workRisk;
    && |obligations| == |cs| + (if w.enabled then 1 else 0)
    && (forall k :: 0 <= k < |cs| ==>
          Obliges(i, obligations[k], cs[k].code, cs[k].borneByWorker, FixedOf(cs[k]), cs[k].percentage, gross))
    && (w.enabled ==> Obliges(i, obligations[|cs|], w.code, false, w.fixedAmount, w.percentage, gross))
  }

  lemma ContributionObliges(i: PayrollInput, c: Contribution, gross: Amount)
    requires Computable(i)
    ensures Obliges(i, ContributionObligation(i, c, gross), c.code, c.borneByWorker, FixedOf(c), c.percentage, gross)
  {
    hide Computable;
    hide RoundConcept;
    hide ApplyPercentage;
    hide Pays;
    hide ShareClaim;
    SharePaid(i, c.code, Debit, FixedOf(c), c.percentage, gross);
  }

  lemma RiskObliges(i: PayrollInput, gross: Amount)
    requires Computable(i)
    ensures var w := i.parameters.workRisk;
            && |WorkRiskObligations(i, gross)| == (if w.enabled then 1 else 0)
            && (w.enabled ==> Obliges(i, WorkRiskObligations(i, gross)[0], w.code, false, w.fixedAmount, w.percentage, gross))
  {
    hide Computable;
    hide RoundConcept;
    hide ApplyPercentage;
    hide Pays;
    hide ShareClaim;
    var w := i.parameters.workRisk;
    SharePaid(i, w.code, Debit, w.fixedAmount, w.percentage, gross);
  }

  lemma {:induction false} ObligationsAre(i: PayrollInput, cs: seq<Contribution>, gross: Amount)
    requires Computable(i)
    ensures |Obligations(i, cs, gross)| == |cs|
    ensures forall k :: 0 <= k < |cs| ==>
              Obliges(i, Obligations(i, cs, gross)[k], cs[k].code, cs[k].borneByWorker, FixedOf(cs[k]), cs[k].percentage, gross)
  {
    hide Computable;
    hide Obliges;
    hide ContributionObligation;
    hide FixedOf;
    if cs != [] {
      ObligationsAre(i, cs[..|cs| - 1], gross);
      ContributionObliges(i, cs[|cs| - 1], gross);
    }
  }

  lemma AllObligations(i: PayrollInput, gross: Amount)
    requires Computable(i)
    ensures ObligesAll(i, Obligations(i, i.parameters.contributions, gross) + WorkRiskObligations(i, gross), gross)
  {
    hide Computable;
    hide Obliges;
    hide Obligations;
    hide WorkRiskObligations;
    hide FixedOf;
    ObligationsAre(i, i.parameters.contributions, gross);
    RiskObliges(i, gross);
  }

  /** What makes the calculation throw: decimals it cannot round to, a divisor of zero, negative time. */
  predicate CannotBeComputed(i: PayrollInput) {
    var p := i.parameters;
    || !(0 <= p.rounding.conceptDecimals <= 8) || !(0 <= p.rounding.totalDecimals <= 8)
    || i.normalMinutes < 0
    || (p.overtime.enabled && exists k :: 0 <= k < |i.overtime| && i.overtime[k].minutes < 0 &&
                                          exists x :: x in p.overtime.kinds && x.code == i.overtime[k].kindCode)
    || (i.scheme == Monthly && p.overtime.monthlyHoursDivisor == 0.0)
    || (p.vacation.enabled && DaysTaken(i.events, Vacation) > 0 && p.vacation.divisor == 0.0)
    || (p.annualBonus.enabled && i.annualBonus.applies && p.annualBonus.divisor == 0.0)
    || (p.absence.enabled && DaysTaken(i.events, AbsenceUnjustified) + DaysTaken(i.events, UnpaidLeave) > 0 && p.absence.divisor == 0.0)
  }

  lemma ComputableExactly(i: PayrollInput)
    ensures Computable(i) <==> !CannotBeComputed(i)
  {
    hide ApprovedDays;
    hide DaysTaken;
    DaysAreApproved(i.events, Vacation);
    DaysAreApproved(i.events, AbsenceUnjustified);
    DaysAreApproved(i.events, UnpaidLeave);
    forall k | 0 <= k < |i.overtime|
      ensures Liquidated(i, i.overtime[k]) <==>
              i.overtime[k].minutes != 0 && exists x :: x in i.parameters.overtime.kinds && x.code == i.overtime[k].kindCode
    {
      FirstFound(i.parameters.overtime.kinds, (x: OvertimeKind) => x.code == i.overtime[k].kindCode);
    }
    hide Liquidated;
  }

  /**
   * The calculation raises exactly when it cannot be computed. Otherwise it pays what is owed, line by line and in order,
   * rounds the totals of each sign to their decimals, and obliges to each contribution; without a scale all is empty.
   */
  lemma PaysWhatIsOwed(i: PayrollInput)
    ensures Payroll(i).Raised? <==> InScale(i) && CannotBeComputed(i)
    ensures Payroll(i).Done? ==>
              var r, t, mode := Payroll(i).result, i.parameters.rounding.totalDecimals, i.parameters.rounding.mode;
              if InScale(i) then
                && PaysAll(i, r.lines, Owed(i, r.gross, r.lines))
                && t >= 0
                && r.gross == RoundTo(Sum(Amounts(r.lines, Credit)), t, mode)
                && r.deductions == RoundTo(Sum(Amounts(r.lines, Debit)), t, mode)
                && r.net == RoundTo(Subtract(r.gross, r.deductions), t, mode)
                && ObligesAll(i, r.obligations, r.gross)
              else r.lines == [] && r.obligations == [] && r.gross == r.deductions == r.net == 0.0
  {
    hide *;
    ScaleIsFound(i);
    ComputableExactly(i);
    OutcomeTotals(i);
    OutcomeObligations(i);
    if HasScale(i) && Computable(i) {
      Folded(i);
      TotalsAreOfTheFinalLines(i);
      AllLinesArePaid(i);
      AllObligations(i, Gross(i));
    }
  }

  lemma OutcomeObligations(i: PayrollInput)
    ensures !HasScale(i) ==> Payroll(i).result.obligations == []
    ensures HasScale(i) && Computable(i) ==>
              Payroll(i).result.obligations == Obligations(i, i.parameters.contributions, Gross(i)) + WorkRiskObligations(i, Gross(i))
  {
    hide HasScale;
    hide Computable;
    hide Gross;
    hide Obligations;
    hide WorkRiskObligations;
    hide PreviousErrors;
    hide MinimumErrors;
    hide ConceptErrors;
    hide FixtureWarnings;
    hide MiddleWarnings;
  }

  /** What is paid differs from what is owed by the rounding of concepts and the drift of the 28-digit roundings. */
  lemma PaidWithin(i: PayrollInput, l: Line, c: Claim)
    requires Computable(i) && Pays(i, l, c)
    ensures Abs(l.amount - c.exact) <= Tolerance(i, c.exact, c.roundings)
  {
    var x :| Within(x, c.exact, c.roundings) &&
             l.amount == RoundTo(x, i.parameters.rounding.conceptDecimals, i.parameters.rounding.mode);
    hide Within;
    RoundConceptIs(i, x);
    hide Computable;
    hide RoundConcept;
    hide Tolerance;
    hide RoundTo;
    RoundedWithin(i, x, c.exact, c.roundings);
  }
}
