/** What rounding can and cannot do to an amount: monotonicity in worked time, and a bound on the error. */
module PayrollPrecision {
  import opened Common
  import opened Decimals
  import opened Money
  import opened PayrollConservation
  import opened PayrollEngine
  import opened PayrollParameters
  import opened PayrollTwoRuns
  import opened Sorting

  // ---------------------------------------------------------------- zeros do not disturb a sum

  function DropZeros(items: seq<Amount>): seq<Amount> {
    if items == [] then []
    else
      var last := items[|items| - 1];
      DropZeros(items[..|items| - 1]) + (if last == 0.0 then [] else [last])
  }

  lemma {:induction false} DropZerosAppend(a: seq<Amount>, b: seq<Amount>)
    ensures DropZeros(a + b) == DropZeros(a) + DropZeros(b)
    decreases |b|
  {
    if b == [] {
      assert a + b == a;
    } else {
      var front, last := b[..|b| - 1], b[|b| - 1];
      DropZerosAppend(a, front);
      assert (a + b)[..|a + b| - 1] == a + front;
    }
  }

  lemma {:induction false} SumIgnoresZeros(items: seq<Amount>)
    ensures Sum(DropZeros(items)) == Sum(items)
  {
    hide Add;
    if items != [] {
      var front, last := items[..|items| - 1], items[|items| - 1];
      SumIgnoresZeros(front);
      if last == 0.0 {
        SumIsRounded(front);
        assert DropZeros(items) == DropZeros(front);
      } else {
        SumAppend(DropZeros(front), last);
      }
    }
  }

  lemma SameNonZeros(a: seq<Amount>, b: seq<Amount>)
    requires DropZeros(a) == DropZeros(b)
    ensures Sum(a) == Sum(b)
  {
    SumIgnoresZeros(a);
    SumIgnoresZeros(b);
  }

  // ---------------------------------------------------------------- more time is never paid less

  /** `j` is `i` with at least as much time of every kind. */
  predicate MoreTime(i: PayrollInput, j: PayrollInput) {
    && j == i.(normalMinutes := j.normalMinutes, overtime := j.overtime, holidayMinutes := j.holidayMinutes)
    && i.normalMinutes <= j.normalMinutes && i.holidayMinutes <= j.holidayMinutes
    && |i.overtime| == |j.overtime|
    && forall k :: 0 <= k < |i.overtime| ==>
         i.overtime[k].kindCode == j.overtime[k].kindCode && i.overtime[k].minutes <= j.overtime[k].minutes
  }

  /** Nothing that multiplies time is negative. */
  predicate NonNegativeRates(i: PayrollInput) {
    && i.agreed >= 0.0
    && (i.scheme == Monthly ==> i.parameters.overtime.monthlyHoursDivisor > 0.0)
    && i.parameters.holiday.workedMultiplier >= 0.0
    && (forall k :: k in i.parameters.overtime.kinds ==> k.multiplier >= 0.0)
    && (forall t :: t in i.parameters.seniority.tiers ==> t.percentage >= 0.0)
    && (i.parameters.unfavorableZone.Some? ==>
          forall z :: z in i.parameters.unfavorableZone.value.zones ==> z.percentage >= 0.0)
  }

  lemma RoundConceptMonotone(i: PayrollInput, x: Amount, y: Amount)
    requires x <= y
    ensures RoundConcept(i, x) <= RoundConcept(i, y)
    ensures x >= 0.0 ==> RoundConcept(i, x) >= 0.0
  {
    if RoundableTo(i.parameters.rounding.conceptDecimals) {
      RoundToLaws(x, y, i.parameters.rounding.conceptDecimals, i.parameters.rounding.mode);
      RoundToLaws(0.0, x, i.parameters.rounding.conceptDecimals, i.parameters.rounding.mode);
      RoundToLaws(0.0, 0.0, i.parameters.rounding.conceptDecimals, i.parameters.rounding.mode);
    }
    hide RoundTo;
  }

  lemma TimesMonotone(a: real, b: real, factor: real)
    requires a <= b && factor >= 0.0
    ensures Times(a, factor) <= Times(b, factor) && (a >= 0.0 ==> Times(a, factor) >= 0.0)
  {
    if factor > 0.0 {
      ScaleKeepsOrder(a, b, factor);
      if a >= 0.0 {
        ScaleKeepsOrder(0.0, a, factor);
      }
    }
  }

  lemma Product(a: Amount, factor: real)
    ensures Multiply(a, factor) == Round28(Times(a, factor)) && Multiply(factor, a) == Multiply(a, factor)
  {
    hide Round28;
    assert a * factor == factor * a;
  }

  lemma MultiplyMonotone(a: Amount, b: Amount, factor: real)
    requires a <= b && factor >= 0.0
    ensures Multiply(a, factor) <= Multiply(b, factor) && Multiply(factor, a) <= Multiply(factor, b)
    ensures a >= 0.0 ==> Multiply(a, factor) >= 0.0 && Multiply(factor, a) >= 0.0
  {
    hide *;
    TimesMonotone(a, b, factor);
    Product(a, factor);
    Product(b, factor);
    Round28Monotone(Times(a, factor), Times(b, factor));
    Round28Sign(Times(a, factor));
  }

  lemma DivideMonotone(a: Amount, b: Amount, divisor: real)
    requires a <= b && divisor > 0.0
    ensures Divide(a, divisor) <= Divide(b, divisor)
    ensures a >= 0.0 ==> Divide(a, divisor) >= 0.0
  {
    hide Round28;
    UnscaleKeepsOrder(a, b, divisor);
    Round28Monotone(a / divisor, b / divisor);
    if a >= 0.0 {
      UnscaleKeepsOrder(0.0, a, divisor);
      Round28Sign(a / divisor);
    }
  }

  lemma PercentageMonotone(a: Amount, b: Amount, percentage: real)
    requires a <= b && percentage >= 0.0
    ensures ApplyPercentage(a, percentage) <= ApplyPercentage(b, percentage)
    ensures a >= 0.0 ==> ApplyPercentage(a, percentage) >= 0.0
  {
    hide Multiply;
    hide Divide;
    MultiplyMonotone(a, b, percentage);
    DivideMonotone(Multiply(a, percentage), Multiply(b, percentage), 100.0);
  }

  lemma HourlyNonNegative(i: PayrollInput)
    requires NonNegativeRates(i)
    ensures HourlyValue(i) >= 0.0
  {
    hide Divide;
    if i.scheme == Monthly {
      DivideMonotone(i.agreed, i.agreed, i.parameters.overtime.monthlyHoursDivisor);
    }
  }

  lemma TimePaidMonotone(i: PayrollInput, rate: Amount, m: int, n: int)
    requires 0 <= m <= n && rate >= 0.0
    ensures 0.0 <= RoundConcept(i, Multiply(rate, ToHours(m))) <= RoundConcept(i, Multiply(rate, ToHours(n)))
  {
    DivideMonotone(m as real, n as real, 60.0);
    hide Multiply;
    hide Divide;
    MultiplyMonotone(ToHours(m), ToHours(n), rate);
    RoundConceptMonotone(i, Multiply(rate, ToHours(m)), Multiply(rate, ToHours(n)));
    hide RoundConcept;
  }

  lemma OvertimeAmountMonotone(i: PayrollInput, multiplier: real, m: int, n: int)
    requires NonNegativeRates(i) && multiplier >= 0.0 && 0 <= m <= n
    ensures 0.0 <= OvertimeAmount(i, multiplier, m) <= OvertimeAmount(i, multiplier, n)
  {
    HourlyNonNegative(i);
    hide NonNegativeRates;
    hide HourlyValue;
    hide RoundConcept;
    hide ToHours;
    MultiplyMonotone(HourlyValue(i), HourlyValue(i), multiplier);
    hide Multiply;
    TimePaidMonotone(i, Multiply(HourlyValue(i), multiplier), m, n);
  }

  /** The amount of an overtime entry, zero where the entry is skipped. */
  function EntryAmount(i: PayrollInput, e: OvertimeEntry): Amount {
    if Liquidated(i, e) then OvertimeAmount(i, KindOf(i, e.kindCode)[0].multiplier, e.minutes) else 0.0
  }

  function EntryAmounts(i: PayrollInput, entries: seq<OvertimeEntry>): seq<Amount> {
    if entries == [] then []
    else EntryAmounts(i, entries[..|entries| - 1]) + [EntryAmount(i, entries[|entries| - 1])]
  }

  lemma OneEntryPad(i: PayrollInput, e: OvertimeEntry)
    ensures DropZeros([EntryAmount(i, e)]) == DropZeros(Amounts(OvertimeLine(i, e), Credit))
    ensures AmountsOf(OvertimeLine(i, e)) == Amounts(OvertimeLine(i, e), Credit)
  {
    hide KindOf;
    hide OvertimeAmount;
    hide HourlyValue;
    assert [EntryAmount(i, e)][..0] == [];
    if Liquidated(i, e) {
      AmountsOne(OvertimeLine(i, e)[0], Credit);
      assert Amounts(OvertimeLine(i, e), Credit) == [EntryAmount(i, e)];
    }
  }

  lemma AmountsOfAppend(a: seq<Line>, b: seq<Line>)
    ensures AmountsOf(a + b) == AmountsOf(a) + AmountsOf(b)
  {
  }

  /** Padding the skipped entries with zeros changes no sum. */
  lemma {:induction false} EntryAmountsPad(i: PayrollInput, entries: seq<OvertimeEntry>)
    ensures DropZeros(EntryAmounts(i, entries)) == DropZeros(Amounts(OvertimeLines(i, entries), Credit))
    ensures AmountsOf(OvertimeLines(i, entries)) == Amounts(OvertimeLines(i, entries), Credit)
  {
    hide Liquidated;
    hide OvertimeLine;
    hide EntryAmount;
    if entries != [] {
      var front, e := entries[..|entries| - 1], entries[|entries| - 1];
      assert EntryAmounts(i, entries) == EntryAmounts(i, front) + [EntryAmount(i, e)];
      assert OvertimeLines(i, entries) == OvertimeLines(i, front) + OvertimeLine(i, e);
      hide *;
      EntryAmountsPad(i, front);
      OneEntryPad(i, e);
      AmountsAppend(OvertimeLines(i, front), OvertimeLine(i, e), Credit);
      AmountsOfAppend(OvertimeLines(i, front), OvertimeLine(i, e));
      DropZerosAppend(EntryAmounts(i, front), [EntryAmount(i, e)]);
      DropZerosAppend(Amounts(OvertimeLines(i, front), Credit), Amounts(OvertimeLine(i, e), Credit));
    }
  }

  lemma {:induction false} EntryAmountsAt(i: PayrollInput, entries: seq<OvertimeEntry>)
    ensures |EntryAmounts(i, entries)| == |entries|
    ensures forall k :: 0 <= k < |entries| ==> EntryAmounts(i, entries)[k] == EntryAmount(i, entries[k])
  {
    hide EntryAmount;
    if entries != [] {
      EntryAmountsAt(i, entries[..|entries| - 1]);
    }
  }

  lemma EntryAmountMonotone(i: PayrollInput, j: PayrollInput, e: OvertimeEntry, f: OvertimeEntry)
    requires MoreTime(i, j) && NonNegativeRates(i)
    requires e.kindCode == f.kindCode && e.minutes <= f.minutes
    requires (Liquidated(i, e) ==> e.minutes >= 0) && (Liquidated(j, f) ==> f.minutes >= 0)
    ensures EntryAmount(i, e) <= EntryAmount(j, f)
  {
    FirstFound(i.parameters.overtime.kinds, (k: OvertimeKind) => k.code == e.kindCode);
    assert KindOf(i, e.kindCode) == KindOf(j, f.kindCode);
    var kinds := KindOf(i, e.kindCode);
    if kinds != [] {
      assert kinds[0].multiplier >= 0.0;
      var m := kinds[0].multiplier;
      assert OvertimeAmount(j, m, f.minutes) == OvertimeAmount(i, m, f.minutes);
      hide KindOf;
      hide OvertimeAmount;
      if Liquidated(j, f) && f.minutes > 0 {
        if Liquidated(i, e) {
          OvertimeAmountMonotone(i, m, e.minutes, f.minutes);
        } else {
          OvertimeAmountMonotone(i, m, f.minutes, f.minutes);
        }
      }
    }
  }

  lemma EntryAmountsMonotone(i: PayrollInput, j: PayrollInput)
    requires MoreTime(i, j) && NonNegativeRates(i) && Computable(i) && Computable(j)
    ensures PointwiseAtMost(EntryAmounts(i, EnabledOvertime(i)), EntryAmounts(j, EnabledOvertime(j)))
  {
    EntryAmountsAt(i, EnabledOvertime(i));
    EntryAmountsAt(j, EnabledOvertime(j));
    hide EntryAmounts;
    hide EntryAmount;
    hide NonNegativeRates;
    hide ApprovedDays;
    hide Liquidated;
    forall k | 0 <= k < |EnabledOvertime(i)|
      ensures EntryAmount(i, EnabledOvertime(i)[k]) <= EntryAmount(j, EnabledOvertime(j)[k])
    {
      EntryAmountMonotone(i, j, i.overtime[k], j.overtime[k]);
    }
  }

  lemma OvertimeTotalMonotone(i: PayrollInput, j: PayrollInput)
    requires MoreTime(i, j) && NonNegativeRates(i) && Computable(i) && Computable(j)
    ensures OvertimeTotal(i) <= OvertimeTotal(j)
  {
    EntryAmountsMonotone(i, j);
    EntryAmountsPad(i, EnabledOvertime(i));
    EntryAmountsPad(j, EnabledOvertime(j));
    hide EntryAmounts;
    hide OvertimeLines;
    hide Amounts;
    hide AmountsOf;
    hide DropZeros;
    hide Sum;
    hide Computable;
    hide NonNegativeRates;
    SameNonZeros(EntryAmounts(i, EnabledOvertime(i)), AmountsOf(OvertimeLines(i, EnabledOvertime(i))));
    SameNonZeros(EntryAmounts(j, EnabledOvertime(j)), AmountsOf(OvertimeLines(j, EnabledOvertime(j))));
    SumMonotone(EntryAmounts(i, EnabledOvertime(i)), EntryAmounts(j, EnabledOvertime(j)));
  }

  lemma MoreTimeSameRates(i: PayrollInput, j: PayrollInput)
    requires MoreTime(i, j)
    ensures HourlyValue(i) == HourlyValue(j) && TierOf(i) == TierOf(j) && ZoneOf(i) == ZoneOf(j)
    ensures forall x :: RoundConcept(i, x) == RoundConcept(j, x)
    ensures forall x :: RoundTotal(i, x) == RoundTotal(j, x)
    ensures VacationLines(i) == VacationLines(j) && BonusLines(i) == BonusLines(j) && AbsenceLines(i) == AbsenceLines(j)
    ensures AdvanceLines(i, i.events) == AdvanceLines(j, j.events)
    ensures ConceptLines(i, i.concepts) == ConceptLines(j, j.concepts)
  {
    hide RoundTo;
    AlikeAdvances(i, j, i.events);
    AlikeConcepts(i, j, i.concepts);
    hide AdvanceLines;
    hide ConceptLines;
    hide ApprovedDays;
    hide PayrollParameters.FindTier;
    hide Multiply;
    hide Divide;
  }

  lemma BaseMonotone(i: PayrollInput, j: PayrollInput)
    requires MoreTime(i, j) && NonNegativeRates(i) && Computable(i) && Computable(j)
    ensures 0.0 <= BaseAmount(i) <= BaseAmount(j)
  {
    MoreTimeSameRates(i, j);
    HourlyNonNegative(i);
    hide RoundConcept;
    hide HourlyValue;
    hide Multiply;
    hide ToHours;
    assert i.normalMinutes >= 0 && i.agreed >= 0.0;
    hide Computable;
    hide NonNegativeRates;
    if i.scheme == Monthly {
      RoundConceptMonotone(i, i.agreed, i.agreed);
    } else {
      TimePaidMonotone(i, HourlyValue(i), i.normalMinutes, j.normalMinutes);
    }
  }

  /** The amounts that follow the overtime, zero where the section pays nothing. */
  function HolidayAmount(i: PayrollInput): Amount {
    if HolidayLines(i) == [] then 0.0 else HolidayLines(i)[0].amount
  }

  function SeniorityAmount(i: PayrollInput): Amount {
    if SeniorityLines(i) == [] then 0.0 else SeniorityLines(i)[0].amount
  }

  function ZoneAmount(i: PayrollInput): Amount {
    if ZoneLines(i) == [] then 0.0 else ZoneLines(i)[0].amount
  }

  lemma HolidayMonotone(i: PayrollInput, j: PayrollInput)
    requires MoreTime(i, j) && NonNegativeRates(i)
    ensures HolidayAmount(i) <= HolidayAmount(j)
  {
    var multiplier := i.parameters.holiday.workedMultiplier;
    assert multiplier >= 0.0;
    MoreTimeSameRates(i, j);
    assert OvertimeAmount(i, multiplier, j.holidayMinutes) == OvertimeAmount(j, multiplier, j.holidayMinutes) by {
      hide RoundConcept;
      hide HourlyValue;
      hide NonNegativeRates;
    }
    hide OvertimeAmount;
    hide HourlyValue;
    hide NonNegativeRates;
    if j.holidayMinutes > 0 {
      OvertimeAmountMonotone(i, multiplier, Max(i.holidayMinutes, 0), j.holidayMinutes);
    }
  }

  lemma TierFound(tiers: seq<SeniorityTier>, years: int)
    ensures FindTier(tiers, years) != [] ==> FindTier(tiers, years)[0] in tiers
  {
    FirstFound(tiers, (t: SeniorityTier) => InTier(t, years));
  }

  lemma SeniorityBaseIs(i: PayrollInput)
    ensures SeniorityBase(i) == if i.parameters.seniority.basePlusOvertime then Round28(BaseAmount(i) + OvertimeTotal(i)) else BaseAmount(i)
  {
    hide BaseAmount;
    hide OvertimeTotal;
    hide Round28;
  }

  lemma MoreTimeSameParameters(i: PayrollInput, j: PayrollInput)
    requires MoreTime(i, j)
    ensures i.parameters == j.parameters
  {
  }

  lemma SeniorityBaseMonotone(i: PayrollInput, j: PayrollInput)
    requires MoreTime(i, j) && NonNegativeRates(i) && Computable(i) && Computable(j)
    ensures SeniorityBase(i) <= SeniorityBase(j)
  {
    hide *;
    MoreTimeSameParameters(i, j);
    SeniorityBaseIs(i);
    SeniorityBaseIs(j);
    BaseMonotone(i, j);
    OvertimeTotalMonotone(i, j);
    Round28Monotone(BaseAmount(i) + OvertimeTotal(i), BaseAmount(j) + OvertimeTotal(j));
  }

  lemma SeniorityAmountIs(i: PayrollInput)
    ensures i.parameters.seniority.enabled && TierOf(i) != [] ==>
              SeniorityAmount(i) == RoundConcept(i, ApplyPercentage(SeniorityBase(i), TierOf(i)[0].percentage))
    ensures !(i.parameters.seniority.enabled && TierOf(i) != []) ==> SeniorityAmount(i) == 0.0
    ensures NonNegativeRates(i) && TierOf(i) != [] ==> TierOf(i)[0].percentage >= 0.0
  {
    TierFound(i.parameters.seniority.tiers, CompletedYears(i.startDate, i.period.to));
    hide RoundConcept;
    hide ApplyPercentage;
    hide SeniorityBase;
  }

  lemma SeniorityMonotone(i: PayrollInput, j: PayrollInput)
    requires MoreTime(i, j) && NonNegativeRates(i) && Computable(i) && Computable(j)
    ensures SeniorityAmount(i) <= SeniorityAmount(j)
  {
    hide *;
    MoreTimeSameParameters(i, j);
    MoreTimeSameRates(i, j);
    SeniorityBaseMonotone(i, j);
    SeniorityAmountIs(i);
    SeniorityAmountIs(j);
    if i.parameters.seniority.enabled && TierOf(i) != [] {
      var percentage := TierOf(i)[0].percentage;
      PercentageMonotone(SeniorityBase(i), SeniorityBase(j), percentage);
      RoundConceptMonotone(i, ApplyPercentage(SeniorityBase(i), percentage), ApplyPercentage(SeniorityBase(j), percentage));
    }
  }

  lemma ZoneMonotone(i: PayrollInput, j: PayrollInput)
    requires MoreTime(i, j) && NonNegativeRates(i) && Computable(i) && Computable(j)
    ensures ZoneAmount(i) <= ZoneAmount(j)
  {
    MoreTimeSameRates(i, j);
    BaseMonotone(i, j);
    hide BaseAmount;
    hide Computable;
    hide RoundConcept;
    hide ApplyPercentage;
    if ZoneLines(i) != [] {
      FirstFound(i.parameters.unfavorableZone.value.zones, (z: Zone) => z.code == i.zoneCode.value);
      var percentage := ZoneOf(i)[0].percentage;
      assert percentage >= 0.0;
      PercentageMonotone(BaseAmount(i), BaseAmount(j), percentage);
      RoundConceptMonotone(i, ApplyPercentage(BaseAmount(i), percentage), ApplyPercentage(BaseAmount(j), percentage));
    }
  }

  // ---------------------------------------------------------------- the gross

  /** The credits before the contributions, with zeros where a section pays nothing. */
  function PaddedCredits(i: PayrollInput): seq<Amount> {
    [BaseAmount(i)] + EntryAmounts(i, EnabledOvertime(i)) + [HolidayAmount(i), SeniorityAmount(i), ZoneAmount(i)]
  }

  /** The lines that do not depend on time. */
  function TimelessLines(i: PayrollInput): seq<Line> {
    VacationLines(i) + BonusLines(i) + AbsenceLines(i) + AdvanceLines(i, i.events) + ConceptLines(i, i.concepts)
  }

  lemma OneLinePad(lines: seq<Line>, amount: Amount)
    requires |lines| <= 1 && forall l :: l in lines ==> l.sign == Credit
    requires amount == if lines == [] then 0.0 else lines[0].amount
    ensures DropZeros([amount]) == DropZeros(Amounts(lines, Credit))
  {
    assert [amount][..0] == [];
    if lines != [] {
      AmountsOne(lines[0], Credit);
      assert lines == [lines[0]];
    }
  }

  lemma SingleLines(i: PayrollInput)
    ensures DropZeros([BaseAmount(i)]) == DropZeros(Amounts([BaseLine(i)], Credit))
    ensures DropZeros([HolidayAmount(i)]) == DropZeros(Amounts(HolidayLines(i), Credit))
    ensures DropZeros([SeniorityAmount(i)]) == DropZeros(Amounts(SeniorityLines(i), Credit))
    ensures DropZeros([ZoneAmount(i)]) == DropZeros(Amounts(ZoneLines(i), Credit))
  {
    hide DropZeros;
    hide Amounts;
    hide OvertimeAmount;
    hide HourlyValue;
    hide BaseAmount;
    hide SeniorityBase;
    hide TierOf;
    hide ZoneOf;
    hide RoundConcept;
    hide ApplyPercentage;
    OneLinePad([BaseLine(i)], BaseAmount(i));
    OneLinePad(HolidayLines(i), HolidayAmount(i));
    OneLinePad(SeniorityLines(i), SeniorityAmount(i));
    OneLinePad(ZoneLines(i), ZoneAmount(i));
  }

  /** Two lists of amounts that differ in zeros only. */
  predicate SameAmounts(a: seq<Amount>, b: seq<Amount>) {
    DropZeros(a) == DropZeros(b)
  }

  lemma SameAmountsAppend(a: seq<Amount>, lines: seq<Line>, b: seq<Amount>, more: seq<Line>)
    requires SameAmounts(a, Amounts(lines, Credit)) && SameAmounts(b, Amounts(more, Credit))
    ensures SameAmounts(a + b, Amounts(lines + more, Credit))
  {
    DropZerosAppend(a, b);
    DropZerosAppend(Amounts(lines, Credit), Amounts(more, Credit));
    AmountsAppend(lines, more, Credit);
    hide DropZeros;
    hide Amounts;
  }

  /** The lines that depend on time. */
  function TimedLines(i: PayrollInput): seq<Line> {
    [BaseLine(i)] + OvertimeLines(i, EnabledOvertime(i)) + HolidayLines(i) + SeniorityLines(i) + ZoneLines(i)
  }

  lemma PaddingChangesNothing(i: PayrollInput)
    ensures SameAmounts(PaddedCredits(i), Amounts(TimedLines(i), Credit))
  {
    SingleLines(i);
    EntryAmountsPad(i, EnabledOvertime(i));
    var base, entries, holiday, seniority, zone :=
      [BaseAmount(i)], EntryAmounts(i, EnabledOvertime(i)), [HolidayAmount(i)], [SeniorityAmount(i)], [ZoneAmount(i)];
    var overtime := OvertimeLines(i, EnabledOvertime(i));
    hide DropZeros;
    hide Amounts;
    hide BaseAmount;
    hide BaseLine;
    hide EntryAmounts;
    hide OvertimeLines;
    hide HolidayLines;
    hide HolidayAmount;
    hide SeniorityLines;
    hide SeniorityAmount;
    hide ZoneLines;
    hide ZoneAmount;
    assert PaddedCredits(i) == base + entries + holiday + seniority + zone;
    assert TimedLines(i) == [BaseLine(i)] + overtime + HolidayLines(i) + SeniorityLines(i) + ZoneLines(i);
    assert SameAmounts(base, Amounts([BaseLine(i)], Credit)) && SameAmounts(entries, Amounts(overtime, Credit));
    assert SameAmounts(holiday, Amounts(HolidayLines(i), Credit)) && SameAmounts(zone, Amounts(ZoneLines(i), Credit));
    assert SameAmounts(seniority, Amounts(SeniorityLines(i), Credit));
    hide *;
    SameAmountsAppend(base, [BaseLine(i)], entries, overtime);
    SameAmountsAppend(base + entries, [BaseLine(i)] + overtime, holiday, HolidayLines(i));
    SameAmountsAppend(base + entries + holiday, [BaseLine(i)] + overtime + HolidayLines(i), seniority, SeniorityLines(i));
    SameAmountsAppend(base + entries + holiday + seniority, [BaseLine(i)] + overtime + HolidayLines(i) + SeniorityLines(i),
                      zone, ZoneLines(i));
  }

  lemma TimedThenTimeless(i: PayrollInput)
    ensures EarlyLines(i) == TimedLines(i) + TimelessLines(i)
  {
    hide BaseLine;
    hide OvertimeLines;
    hide HolidayLines;
    hide SeniorityLines;
    hide ZoneLines;
    hide VacationLines;
    hide BonusLines;
    hide AbsenceLines;
    hide AdvanceLines;
    hide ConceptLines;
  }

  lemma CreditsPadded(i: PayrollInput)
    ensures Sum(Amounts(EarlyLines(i), Credit)) == Sum(PaddedCredits(i) + Amounts(TimelessLines(i), Credit))
  {
    assert SameAmounts(Amounts(TimelessLines(i), Credit), Amounts(TimelessLines(i), Credit));
    hide *;
    PaddingChangesNothing(i);
    TimedThenTimeless(i);
    SameAmountsAppend(PaddedCredits(i), TimedLines(i), Amounts(TimelessLines(i), Credit), TimelessLines(i));
    SameSums(PaddedCredits(i) + Amounts(TimelessLines(i), Credit), Amounts(EarlyLines(i), Credit));
  }

  lemma SameSums(a: seq<Amount>, b: seq<Amount>)
    requires SameAmounts(a, b)
    ensures Sum(a) == Sum(b)
  {
    SameNonZeros(a, b);
  }

  ghost predicate PointwiseAtMost(a: seq<Amount>, b: seq<Amount>) {
    |a| == |b| && forall k :: 0 <= k < |a| ==> a[k] <= b[k]
  }

  lemma ListsAtMost(x: Amount, a: seq<Amount>, h: Amount, n: Amount, z: Amount,
                    x': Amount, a': seq<Amount>, h': Amount, n': Amount, z': Amount)
    requires x <= x' && PointwiseAtMost(a, a') && h <= h' && n <= n' && z <= z'
    ensures PointwiseAtMost([x] + a + [h, n, z], [x'] + a' + [h', n', z'])
  {
  }

  lemma PaddedCreditsMonotone(i: PayrollInput, j: PayrollInput)
    requires MoreTime(i, j) && NonNegativeRates(i) && Computable(i) && Computable(j)
    ensures PointwiseAtMost(PaddedCredits(i), PaddedCredits(j))
  {
    BaseMonotone(i, j);
    EntryAmountsMonotone(i, j);
    HolidayMonotone(i, j);
    SeniorityMonotone(i, j);
    ZoneMonotone(i, j);
    hide BaseAmount;
    hide EntryAmounts;
    hide HolidayAmount;
    hide SeniorityAmount;
    hide ZoneAmount;
    hide EnabledOvertime;
    hide MoreTime;
    hide NonNegativeRates;
    hide Computable;
    ListsAtMost(BaseAmount(i), EntryAmounts(i, EnabledOvertime(i)), HolidayAmount(i), SeniorityAmount(i), ZoneAmount(i),
                BaseAmount(j), EntryAmounts(j, EnabledOvertime(j)), HolidayAmount(j), SeniorityAmount(j), ZoneAmount(j));
    hide PointwiseAtMost;
  }

  lemma SameTimeless(i: PayrollInput, j: PayrollInput)
    requires MoreTime(i, j)
    ensures TimelessLines(i) == TimelessLines(j)
  {
    MoreTimeSameRates(i, j);
    hide VacationLines;
    hide BonusLines;
    hide AbsenceLines;
    hide AdvanceLines;
    hide ConceptLines;
    hide MoreTime;
  }

  lemma SumsOfLonger(a: seq<Amount>, b: seq<Amount>, rest: seq<Amount>)
    requires PointwiseAtMost(a, b)
    ensures Sum(a + rest) <= Sum(b + rest)
  {
    hide Sum;
    SumMonotone(a + rest, b + rest);
  }

  lemma GrossIs(i: PayrollInput)
    ensures Gross(i) == RoundTotal(i, Sum(Amounts(EarlyLines(i), Credit)))
  {
  }

  lemma GrossOfMoreTime(i: PayrollInput, j: PayrollInput)
    requires MoreTime(i, j) && NonNegativeRates(i) && Computable(i) && Computable(j)
    ensures Gross(i) <= Gross(j)
  {
    hide *;
    var rest := Amounts(TimelessLines(i), Credit);
    SameTimeless(i, j);
    MoreTimeSameRates(i, j);
    PaddedCreditsMonotone(i, j);
    CreditsPadded(i);
    CreditsPadded(j);
    SumsOfLonger(PaddedCredits(i), PaddedCredits(j), rest);
    RoundTotalMonotone(i, Sum(PaddedCredits(i) + rest), Sum(PaddedCredits(j) + rest));
    GrossIs(i);
    GrossIs(j);
  }

  lemma MoreTimeSameScale(i: PayrollInput, j: PayrollInput)
    requires MoreTime(i, j)
    ensures HasScale(i) <==> HasScale(j)
  {
  }

  /** With non-negative pay, multipliers and percentages, more time of any kind never lowers the gross of the outcome. */
  lemma MoreTimeIsNeverPaidLess(i: PayrollInput, j: PayrollInput)
    requires MoreTime(i, j) && NonNegativeRates(i)
    requires Payroll(i).Done? && Payroll(j).Done?
    ensures Payroll(i).result.gross <= Payroll(j).result.gross
  {
    hide *;
    MoreTimeSameScale(i, j);
    OutcomeTotals(i);
    OutcomeTotals(j);
    if HasScale(i) {
      GrossOfMoreTime(i, j);
    }
  }

  lemma RoundTotalMonotone(i: PayrollInput, x: Amount, y: Amount)
    requires x <= y
    ensures RoundTotal(i, x) <= RoundTotal(i, y)
  {
    if RoundableTo(i.parameters.rounding.totalDecimals) {
      RoundToLaws(x, y, i.parameters.rounding.totalDecimals, i.parameters.rounding.mode);
    }
    hide RoundTo;
  }

  // ---------------------------------------------------------------- the error of an amount

  /** The upper side of a factor is the wider one. */
  lemma {:induction false} PowersBracketOne(u: real, n: nat)
    requires 0.0 <= u <= 1.0
    ensures Power(1.0 + u, n) >= Power(1.0 - u, n) >= 0.0
    ensures Power(1.0 + u, n) + Power(1.0 - u, n) >= 2.0
  {
    if n > 0 {
      hide Times;
      PowersBracketOne(u, n - 1);
      BracketStep(Power(1.0 + u, n - 1), Power(1.0 - u, n - 1), u);
    }
  }

  lemma BracketStep(p: real, q: real, u: real)
    requires 0.0 <= u <= 1.0 && p >= q >= 0.0 && p + q >= 2.0
    ensures Times(p, 1.0 + u) >= Times(q, 1.0 - u) >= 0.0
    ensures Times(p, 1.0 + u) + Times(q, 1.0 - u) >= 2.0
  {
    var pu, qu := p * u, q * u;
    assert 0.0 <= qu <= pu by {
      if u > 0.0 {
        ScaleKeepsOrder(q, p, u);
        ScaleKeepsOrder(0.0, q, u);
      }
    }
    assert qu <= q by {
      if q > 0.0 {
        ScaleKeepsOrder(u, 1.0, q);
      }
    }
    assert Times(p, 1.0 + u) == p + pu && Times(q, 1.0 - u) == q - qu;
  }

  /** What `n` roundings to 28 digits can add or take away, relative to the exact value. */
  function Drift(n: nat): real {
    Power(1.0 + HALF_ULP, n) - 1.0
  }

  lemma FactorIsNearOne(k: real, n: nat)
    requires Factor(k, n)
    ensures Abs(k - 1.0) <= Drift(n)
  {
    HalfUlpIsSmall();
    PowersBracketOne(HALF_ULP, n);
    hide Power;
    hide Ten;
  }

  lemma RelativeDriftPositive(exact: real, k: real, d: real)
    requires Abs(k - 1.0) <= d && exact > 0.0
    ensures -Times(exact, d) <= Times(exact, k) - exact <= Times(exact, d)
  {
    assert exact * k - exact == (k - 1.0) * exact;
    ScaleKeepsOrder(k - 1.0, d, exact);
    ScaleKeepsOrder(-d, k - 1.0, exact);
    ScaleNegates(d, exact);
  }

  lemma TimesNegated(x: real, k: real)
    ensures Times(-x, k) == -Times(x, k) && Times(0.0, k) == 0.0
  {
  }

  lemma RelativeDrift(exact: real, k: real, d: real)
    requires Abs(k - 1.0) <= d
    ensures Abs(Times(exact, k) - exact) <= Times(Abs(exact), d)
  {
    hide Times;
    TimesNegated(exact, k);
    TimesNegated(exact, d);
    if exact > 0.0 {
      RelativeDriftPositive(exact, k, d);
    } else if exact < 0.0 {
      RelativeDriftPositive(-exact, k, d);
    } else {
      TimesNegated(0.0, k);
      TimesNegated(0.0, d);
    }
  }

  /** Half a unit of the last kept decimal for the half modes, one unit for the others. */
  function RoundingUnit(places: nat, mode: RoundingMode): real {
    (if mode in {HalfUp, HalfEven} then 0.5 else 1.0) / Ten(places)
  }

  lemma ErrorOfChain(amount: Amount, exact: real, n: nat, places: nat, mode: RoundingMode)
    requires Approximates(amount, exact, n, places, mode)
    ensures Abs(amount - exact) <= RoundingUnit(places, mode) + Times(Abs(exact), Drift(n))
  {
    var x :| Within(x, exact, n) && Abs(amount - x) <= RoundingUnit(places, mode);
    var k :| Factor(k, n) && x == Times(exact, k);
    hide Times;
    hide RoundingUnit;
    hide Factor;
    hide Drift;
    FactorIsNearOne(k, n);
    RelativeDrift(exact, k, Drift(n));
  }

  /** The hourly value without rounding. */
  function ExactHourly(i: PayrollInput): real {
    if i.scheme != Monthly then i.agreed
    else if i.parameters.overtime.monthlyHoursDivisor == 0.0 then 0.0
    else i.agreed / i.parameters.overtime.monthlyHoursDivisor
  }

  /** The exact pay of some minutes at a rate. */
  function ExactPay(rate: real, minutes: int): real {
    Times(rate, minutes as real / 60.0)
  }

  lemma HoursWithin(minutes: int)
    ensures Within(ToHours(minutes), minutes as real / 60.0, 1)
  {
    var m := minutes as real;
    assert ToHours(minutes) == Divide(m, 60.0);
    hide *;
    WithinExact(m);
    WithinQuotient(m, m, 0, 60.0);
  }

  lemma HourlyWithin(i: PayrollInput)
    requires Computable(i)
    ensures Within(HourlyValue(i), ExactHourly(i), if i.scheme == Monthly then 1 else 0)
  {
    hide Within;
    hide Divide;
    WithinExact(i.agreed);
    if i.scheme == Monthly {
      WithinQuotient(i.agreed, i.agreed, 0, i.parameters.overtime.monthlyHoursDivisor);
    }
  }

  lemma RoundConceptIs(i: PayrollInput, x: Amount)
    requires Computable(i)
    ensures i.parameters.rounding.conceptDecimals >= 0
    ensures RoundConcept(i, x) == RoundTo(x, i.parameters.rounding.conceptDecimals, i.parameters.rounding.mode)
  {
    hide RoundTo;
  }

  /** The distance allowed between an amount after `n` roundings and its exact value. */
  function Tolerance(i: PayrollInput, exact: real, n: nat): real
    requires Computable(i)
  {
    RoundingUnit(i.parameters.rounding.conceptDecimals, i.parameters.rounding.mode) + Times(Abs(exact), Drift(n))
  }

  lemma RoundedWithin(i: PayrollInput, x: Amount, exact: real, n: nat)
    requires Computable(i) && Within(x, exact, n)
    ensures Abs(RoundConcept(i, x) - exact) <= Tolerance(i, exact, n)
  {
    var places, mode := i.parameters.rounding.conceptDecimals, i.parameters.rounding.mode;
    hide Within;
    hide RoundTo;
    hide Times;
    hide RoundingUnit;
    hide Drift;
    RoundConceptIs(i, x);
    hide Computable;
    hide RoundConcept;
    RoundedChain(x, exact, n, places, mode);
    hide Approximates;
    ErrorOfChain(RoundTo(x, places, mode), exact, n, places, mode);
  }

  /** The hourly base pay differs from the exact product by the rounding of concepts and two 28-digit roundings. */
  lemma BaseError(i: PayrollInput)
    requires Computable(i) && i.scheme == Hourly
    ensures var exact := ExactPay(ExactHourly(i), i.normalMinutes);
            Abs(BaseAmount(i) - exact) <= Tolerance(i, exact, 2)
  {
    assert BaseAmount(i) == RoundConcept(i, Multiply(HourlyValue(i), ToHours(i.normalMinutes)));
    assert ExactPay(ExactHourly(i), i.normalMinutes) == Times(ExactHourly(i), i.normalMinutes as real / 60.0);
    hide *;
    HourlyWithin(i);
    HoursWithin(i.normalMinutes);
    WithinProduct(HourlyValue(i), ExactHourly(i), 0, ToHours(i.normalMinutes), i.normalMinutes as real / 60.0, 1);
    RoundedWithin(i, Multiply(HourlyValue(i), ToHours(i.normalMinutes)), ExactPay(ExactHourly(i), i.normalMinutes), 2);
  }

  /** Overtime and holiday pay: three 28-digit roundings, and one more when the hourly value is itself a quotient. */
  lemma OvertimeError(i: PayrollInput, multiplier: real, minutes: int)
    requires Computable(i)
    ensures var exact := ExactPay(Times(ExactHourly(i), multiplier), minutes);
            Abs(OvertimeAmount(i, multiplier, minutes) - exact) <= Tolerance(i, exact, if i.scheme == Monthly then 4 else 3)
  {
    assert OvertimeAmount(i, multiplier, minutes) == RoundConcept(i, Multiply(Multiply(HourlyValue(i), multiplier), ToHours(minutes)));
    assert ExactPay(Times(ExactHourly(i), multiplier), minutes) == Times(Times(ExactHourly(i), multiplier), minutes as real / 60.0);
    hide *;
    var h := if i.scheme == Monthly then 1 else 0;
    var rate := Multiply(HourlyValue(i), multiplier);
    HourlyWithin(i);
    WithinExact(multiplier);
    HoursWithin(minutes);
    WithinProduct(HourlyValue(i), ExactHourly(i), h, multiplier, multiplier, 0);
    WithinProduct(rate, Times(ExactHourly(i), multiplier), h + 1, ToHours(minutes), minutes as real / 60.0, 1);
    RoundedWithin(i, Multiply(rate, ToHours(minutes)), ExactPay(Times(ExactHourly(i), multiplier), minutes), h + 3);
  }
}
