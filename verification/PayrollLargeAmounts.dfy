/** The exact bound, at every precision, up to which the order of the events cannot show in the deductions. */
module PayrollLargeAmounts {
  import opened Calendar
  import opened Common
  import opened Decimals
  import opened Money
  import opened PayrollConservation
  import opened PayrollEngine
  import opened PayrollParameters
  import opened PayrollTwoRuns

  /** An input with a scale and nothing but advances. */
  function AdvancesOnly(decimals: nat, events: seq<Event>): PayrollInput {
    var date := Date(2026, 1, 31);
    var off := DivisorRule(false, 1.0);
    var version := ParameterVersion(
      Published, "Official gazette", false, date, None, Rounding(decimals, decimals, HalfUp),
      [CategoryScale("C", WithWithdrawal, 0.0, 0.0)], SeniorityRule(false, [], false), OvertimeRule(false, [], 1.0), HolidayRule(false, 1.0), None, off, off, off, [],
      WorkRiskRule(false, "RISK", 0.0, None), None, None);
    PayrollInput(PayrollPeriod(date, date, 1, 31), "C", WithWithdrawal, Monthly, 0.0, version, 0, [], 0, date, None,
                 events, AnnualBonus(false, 0.0, 0), [])
  }

  function AdvanceOf(amount: Amount): Event {
    Event("e", EventType.Advance, 0, Some(amount), true)
  }

  // ---------------------------------------------------------------- just above the largest exact amount

  /** One unit of c decimals. */
  function Unit(c: int): Amount {
    Ten(-c)
  }

  /** The first amount that c decimals and 28 digits cannot tell from its neighbours. */
  function Large(c: int): Amount {
    Ten(PRECISION - c)
  }

  /** Several units. */
  function Units(k: int, c: int): Amount {
    Times(k as real, Unit(c))
  }

  lemma PointIs(n: int, x: real, s: real)
    requires s > 0.0 && Times(s, x) == n as real
    ensures GridPoint(n, s) == x
  {
    ScaleCancels(x, s);
  }

  lemma TimesSum(s: real, l: real, k: real, u: real)
    ensures Times(s, l + Times(k, u)) == Times(s, l) + Times(k, Times(s, u))
  {
    assert s * (k * u) == k * (s * u);
  }

  lemma TimesOrder(a: real, b: real, u: real)
    requires u > 0.0
    ensures a <= b ==> Times(a, u) <= Times(b, u)
    ensures a < b ==> Times(a, u) < Times(b, u)
    ensures Times(0.0, u) == 0.0 && Times(a, u) + Times(b, u) == Times(a + b, u)
  {
    assert b * u - a * u == (b - a) * u;
  }

  lemma UnitsAreOrdered(c: int, k: int)
    requires 0 <= k <= 10
    ensures 0.0 <= Units(k, c) <= Units(10, c) && (0 < k ==> 0.0 < Units(k, c)) && (k < 10 ==> Units(k, c) < Units(10, c))
    ensures Units(0, c) == 0.0 && Units(4, c) + Units(4, c) == Units(8, c)
  {
    var u := Unit(c);
    assert u > 0.0;
    hide Unit;
    hide Times;
    TimesOrder(0.0, k as real, u);
    TimesOrder(k as real, 10.0, u);
    TimesOrder(4.0, 4.0, u);
  }

  lemma UnitsOfTen(c: int)
    ensures Times(Ten(c), Unit(c)) == 1.0
    ensures Times(Ten(c - 1), Unit(c)) == 0.1
    ensures Times(Ten(c - 1), Large(c)) == Ten(PRECISION - 1) && Times(Ten(c), Large(c)) == Ten(PRECISION)
    ensures 0.0 < Units(10, c) <= Large(c)
  {
    TenSum(c, -c);
    TenSum(c - 1, -c);
    TenSum(c - 1, PRECISION - c);
    TenSum(c, PRECISION - c);
    TenStep(-c);
    TenMonotone(1 - c, PRECISION - c);
    assert Ten(0) == 1.0 && Ten(-1) == 0.1;
  }

  lemma ScaledUnits(s: real, l: real, c: int, k: int)
    ensures Times(s, Unit(c)) == 0.1 ==> Times(s, l + Units(k, c)) == Times(s, l) + k as real / 10.0
    ensures Times(s, Unit(c)) == 1.0 ==> Times(s, l + Units(k, c)) == Times(s, l) + k as real
  {
    TimesSum(s, l, k as real, Unit(c));
    assert Times(k as real, 0.1) == k as real / 10.0 && Times(k as real, 1.0) == k as real;
    hide Unit;
    hide Times;
  }

  lemma TenthsOf(l: real, c: int, s: real, whole: int, k: int)
    requires s > 0.0 && whole >= 0 && 0 <= k < 10
    requires Times(s, l) == whole as real && Times(s, Unit(c)) == 0.1
    ensures RoundGrid(l + Units(k, c), s, HalfUp) == if k < 5 then l else l + Units(10, c)
  {
    var x := l + Units(k, c);
    ScaledUnits(s, l, c, k);
    ScaledUnits(s, l, c, 10);
    assert Scaled(x, s) == Times(s, x);
    hide Times;
    hide Scaled;
    hide Units;
    hide Unit;
    var y := Scaled(x, s);
    assert y == whole as real + k as real / 10.0 && y.Floor == whole;
    var n := if k < 5 then whole else whole + 1;
    assert RoundInt(y, HalfUp) == n;
    assert RoundGrid(x, s, HalfUp) == GridPoint(n, s);
    hide *;
    PointIs(n, if k < 5 then l else l + Units(10, c), s);
  }

  /** The 28th digit above 10^(28-c) is worth ten units of c decimals. */
  lemma JustAbove(c: int, k: int)
    requires 0 <= k < 10
    ensures Round28(Large(c) + Units(k, c)) == Large(c) + (if k < 5 then 0.0 else Units(10, c))
  {
    var l, s := Large(c), Ten(c - 1);
    var x := l + Units(k, c);
    UnitsOfTen(c);
    UnitsAreOrdered(c, k);
    TenStep(PRECISION - c);
    TenWhole(PRECISION - 1);
    assert Large(c) == Ten(PRECISION - c);
    var whole := Ten(PRECISION - 1).Floor;
    hide *;
    ExponentIs(x, PRECISION - c);
    DigitGridOf(x);
    TenthsOf(l, c, s, whole, k);
  }

  lemma UnitsOnGrid(c: nat, k: int)
    ensures OnGrid(Units(k, c), Ten(c))
  {
    UnitsOfTen(c);
    ScaledUnits(Ten(c), 0.0, c, k);
    assert Times(Ten(c), 0.0) == 0.0;
    hide Ten;
    hide Times;
    hide Units;
    hide Unit;
    assert 0.0 + Units(k, c) == Units(k, c);
    PointIs(k, Units(k, c), Ten(c));
  }

  lemma SmallAmount(c: nat, k: int)
    requires 0 <= k < 10
    ensures Round28(Units(k, c)) == Units(k, c)
  {
    UnitsOfTen(c);
    UnitsAreOrdered(c, k);
    UnitsOnGrid(c, k);
    assert Abs(Units(k, c)) < Ten(PRECISION - c) by {
      hide Units;
      hide Ten;
      hide OnGrid;
      hide Times;
    }
    hide *;
    ExactOnGrid(Units(k, c), c);
  }

  lemma LargeAmount(c: nat)
    ensures OnGrid(Large(c), Ten(c))
  {
    UnitsOfTen(c);
    TenWhole(PRECISION);
    hide Ten;
    PointIs(Ten(PRECISION).Floor, Large(c), Ten(c));
  }

  lemma SumOfThree(x: Amount, y: Amount, z: Amount)
    ensures Sum([x, y, z]) == Add(Add(Round28(x), y), z)
    ensures AbsSum([x, y, z]) == Abs(x) + Abs(y) + Abs(z)
  {
    assert [] + [x] == [x] && [x] + [y] == [x, y] && [x, y] + [z] == [x, y, z];
    assert Sum([]) == 0.0 && AbsSum([]) == 0.0;
    hide Round28;
    hide Sum;
    hide AbsSum;
    SumAppend([], x);
    SumAppend([x], y);
    SumAppend([x, y], z);
  }

  lemma Unfolded(x: Amount, y: Amount)
    ensures Add(x, y) == Round28(x + y) && (x >= 0.0 ==> Abs(x) == x)
  {
    hide Round28;
  }

  lemma NegatedUnit(c: int)
    ensures Units(-1, c) == -Units(1, c) && Units(1, c) == Unit(c) && Units(1, c) + Units(1, c) == Units(2, c)
  {
    var u := Unit(c);
    hide Unit;
  }

  lemma JustBelow(c: nat)
    ensures Round28(Large(c) - Units(1, c)) == Large(c) - Units(1, c)
    ensures OnGrid(Large(c) - Units(1, c), Ten(c))
  {
    hide Ten;
    hide Times;
    hide Units;
    hide OnGrid;
    hide Round28;
    LargeAmount(c);
    UnitsOnGrid(c, 1);
    UnitsOfTen(c);
    UnitsAreOrdered(c, 1);
    assert Large(c) == Ten(PRECISION - c);
    GridSum(Large(c), Units(1, c), Ten(c));
    ExactOnGrid(Large(c) - Units(1, c), c);
  }

  lemma AddsAboveTheBound(c: nat)
    ensures var l, x, y := Large(c), Units(1, c), Units(-1, c);
            && Round28(l) == l && Round28(x) == x && Abs(l) == l && Abs(x) == x && Abs(y) == x
            && Add(l, x) == l && Add(l, y) == l - x && Add(x, y) == 0.0 && Add(0.0, l) == l
  {
    hide *;
    var l, x, y := Large(c), Units(1, c), Units(-1, c);
    UnitsOfTen(c);
    UnitsAreOrdered(c, 1);
    NegatedUnit(c);
    SmallAmount(c, 1);
    SmallAmount(c, 0);
    Unfolded(l, x);
    Unfolded(l, y);
    Unfolded(x, y);
    Unfolded(0.0, l);
    NegatedAbs(x);
    JustAbove(c, 0);
    JustAbove(c, 1);
    JustBelow(c);
    UnitsAreOrdered(c, 0);
  }

  lemma NegatedAbs(x: real)
    ensures x >= 0.0 ==> Abs(-x) == x
  {
  }

  /** Two units around the largest exact amount: in one order the first of them is lost, in the other nothing is. */
  lemma SumsAboveTheBound(c: nat)
    ensures var l, x, y := Large(c), Units(1, c), Units(-1, c);
            && Sum([l, x, y]) == l - x && Sum([x, y, l]) == l && AbsSum([l, x, y]) == l + Units(2, c)
  {
    hide *;
    AddsAboveTheBound(c);
    NegatedUnit(c);
    SumOfThree(Large(c), Units(1, c), Units(-1, c));
    SumOfThree(Units(1, c), Units(-1, c), Large(c));
  }

  // ---------------------------------------------------------------- the deductions of three advances

  lemma OnlyAdvancesAreDebits(c: nat, events: seq<Event>)
    ensures Amounts(AllLines(AdvancesOnly(c, events)), Debit) == Advances(AdvancesOnly(c, events), events)
  {
    var i := AdvancesOnly(c, events);
    var gross := Gross(i);
    hide Gross;
    assert BeforeAdvances(i) == [BaseLine(i)] by {
      hide BaseLine;
      hide ApprovedDays;
    }
    assert i.concepts == [] && i.parameters.contributions == [] && i.events == events;
    assert ConceptLines(i, []) == [] && ContributionLines(i, [], gross) == [];
    assert BaseLine(i).sign == Credit && SameWork(i, i);
    AmountsOne(BaseLine(i), Debit);
    assert Amounts([], Debit) == [];
    hide *;
    EarlyAmounts(i, i);
    FinalAmounts(i, Debit);
    assert [] + Advances(i, events) + [] + [] == Advances(i, events);
  }

  lemma ComputableAdvances(c: nat, events: seq<Event>)
    requires c <= MAX_ROUND_DECIMALS
    ensures HasScale(AdvancesOnly(c, events)) && Computable(AdvancesOnly(c, events))
    ensures forall x :: RoundTotal(AdvancesOnly(c, events), x) == RoundConcept(AdvancesOnly(c, events), x) == RoundTo(x, c, HalfUp)
  {
    hide ApprovedDays;
    hide RoundTo;
  }

  lemma OneAdvance(i: PayrollInput, events: seq<Event>, a: Amount)
    requires RoundConcept(i, a) == a
    ensures Advances(i, events + [AdvanceOf(a)]) == Advances(i, events) + [a]
  {
    hide RoundConcept;
    var line := Line("ADVANCE_DEDUCTION", Debit, a, a);
    assert AdvanceLine(i, AdvanceOf(a)) == [line];
    OneMoreAmount(i, events, AdvanceOf(a));
    AmountsOne(line, Debit);
  }

  lemma GridAmount(a: Amount, c: nat)
    requires OnGrid(a, Ten(c))
    ensures RoundTo(a, c, HalfUp) == a
  {
    RoundGridFixes(a, Ten(c), HalfUp);
  }

  lemma AmountsOfThree(i: PayrollInput, x: Amount, y: Amount, z: Amount)
    requires RoundConcept(i, x) == x && RoundConcept(i, y) == y && RoundConcept(i, z) == z
    ensures Advances(i, [AdvanceOf(x), AdvanceOf(y), AdvanceOf(z)]) == [x, y, z]
  {
    assert Advances(i, []) == [];
    var a, b, d := AdvanceOf(x), AdvanceOf(y), AdvanceOf(z);
    hide *;
    OneAdvance(i, [], x);
    assert [] + [a] == [a] && [] + [x] == [x];
    OneAdvance(i, [a], y);
    assert [a] + [b] == [a, b] && [x] + [y] == [x, y];
    OneAdvance(i, [a, b], z);
    assert [a, b] + [d] == [a, b, d] && [x, y] + [z] == [x, y, z];
  }

  lemma ThreeAdvances(c: nat, x: Amount, y: Amount, z: Amount)
    requires c <= MAX_ROUND_DECIMALS && OnGrid(x, Ten(c)) && OnGrid(y, Ten(c)) && OnGrid(z, Ten(c))
    ensures var i := AdvancesOnly(c, [AdvanceOf(x), AdvanceOf(y), AdvanceOf(z)]);
            && HasScale(i) && Computable(i) && Amounts(AllLines(i), Debit) == [x, y, z]
            && Deductions(i) == RoundTo(Sum([x, y, z]), c, HalfUp)
  {
    hide *;
    var events := [AdvanceOf(x), AdvanceOf(y), AdvanceOf(z)];
    var i := AdvancesOnly(c, events);
    ComputableAdvances(c, events);
    GridAmount(x, c);
    GridAmount(y, c);
    GridAmount(z, c);
    AmountsOfThree(i, x, y, z);
    OnlyAdvancesAreDebits(c, events);
    TotalsAreOfTheFinalLines(i);
  }

  lemma OnTheGrid(c: nat)
    ensures OnGrid(Large(c), Ten(c)) && OnGrid(Units(1, c), Ten(c)) && OnGrid(Units(-1, c), Ten(c))
  {
    LargeAmount(c);
    UnitsOnGrid(c, 1);
    UnitsOnGrid(c, -1);
  }

  lemma Rotated<T>(x: T, y: T, z: T)
    ensures multiset([x, y, z]) == multiset([y, z, x])
  {
  }

  lemma EventsOf(c: nat, events: seq<Event>)
    ensures AdvancesOnly(c, events).events == events && AdvancesOnly(c, events).parameters.rounding.conceptDecimals == c
    ensures forall others :: AdvancesOnly(c, others) == AdvancesOnly(c, events).(events := others)
  {
  }

  /**
   * Two units beyond 10^(28-c) the order shows: with that amount as one advance, an advance of one unit and its reversal
   * take one unit off the deductions when they come after it, and nothing when they come before.
   */
  lemma OrderShowsBeyond28Digits(c: nat) returns (i: PayrollInput, events: seq<Event>)
    requires c <= MAX_ROUND_DECIMALS
    ensures i.parameters.rounding.conceptDecimals == c && multiset(events) == multiset(i.events) && Computable(i)
    ensures AbsSum(Amounts(AllLines(i), Debit)) == Large(c) + Units(2, c)
    ensures var a, b := Payroll(i), Payroll(i.(events := events));
            && a.Done? && b.Done?
            && a.result.deductions == Large(c) - Units(1, c) && b.result.deductions == Large(c)
            && a.result.deductions != b.result.deductions
  {
    var large, up, down := AdvanceOf(Large(c)), AdvanceOf(Units(1, c)), AdvanceOf(Units(-1, c));
    i, events := AdvancesOnly(c, [large, up, down]), [up, down, large];
    hide *;
    Rotated(large, up, down);
    EventsOf(c, [large, up, down]);
    SumsAboveTheBound(c);
    OnTheGrid(c);
    ThreeAdvances(c, Large(c), Units(1, c), Units(-1, c));
    ThreeAdvances(c, Units(1, c), Units(-1, c), Large(c));
    JustBelow(c);
    GridAmount(Large(c), c);
    GridAmount(Large(c) - Units(1, c), c);
    OutcomeTotals(i);
    OutcomeTotals(i.(events := events));
    UnitsAreOrdered(c, 0);
    UnitIsPositive(c);
  }

  lemma UnitIsPositive(c: int)
    ensures Units(1, c) > 0.0
  {
    NegatedUnit(c);
    hide Units;
  }

  // ---------------------------------------------------------------- the exact bound

  /** No input of c concept decimals whose debit lines add up to at most a bound can tell one order from another. */
  ghost predicate OrderFreeUpTo(c: int, bound: real) {
    forall i, events :: InBound(i, c, bound) ==> OrderFree(i, events)
  }

  predicate InBound(i: PayrollInput, c: int, bound: real) {
    Computable(i) && i.parameters.rounding.conceptDecimals == c && AbsSum(Amounts(AllLines(i), Debit)) <= bound
  }

  /** Amounts of c decimals below two units beyond 10^(28-c) are at most one unit beyond it. */
  lemma NothingBetween(x: real, c: nat)
    requires OnGrid(x, Ten(c)) && x < Large(c) + Units(2, c)
    ensures x <= Ten(PRECISION - c) + Ten(-(c as int))
  {
    LargeAmount(c);
    UnitsOnGrid(c, 1);
    NegatedUnit(c);
    assert Unit(c) == Ten(-(c as int)) && Large(c) == Ten(PRECISION - c);
    hide Ten;
    hide OnGrid;
    hide Units;
    hide Unit;
    hide Large;
    GridSum(Large(c), Units(1, c), Ten(c));
    GridSum(x, Large(c) + Units(1, c), Ten(c));
    var d := x - (Large(c) + Units(1, c));
    if d > 0.0 {
      GridStep(d, c);
    }
  }

  lemma InBoundIs(i: PayrollInput, c: int, bound: real)
    requires InBound(i, c, bound)
    ensures Computable(i) && i.parameters.rounding.conceptDecimals == c && AbsSum(Amounts(AllLines(i), Debit)) <= bound
  {
    hide Computable;
    hide AllLines;
    hide Amounts;
    hide AbsSum;
  }

  lemma WithinTheBound(i: PayrollInput, events: seq<Event>, c: nat, bound: real)
    requires InBound(i, c, bound) && bound < Large(c) + Units(2, c)
    ensures OrderFree(i, events)
  {
    hide *;
    InBoundIs(i, c, bound);
    AmountsOnGrid(i, Debit);
    SumsOnGrid(Amounts(AllLines(i), Debit), c);
    NothingBetween(AbsSum(Amounts(AllLines(i), Debit)), c);
    FitBound(i);
    DeductionsAreOrderFree(i, events);
  }

  lemma BeyondTheBound(c: nat, bound: real) returns (i: PayrollInput, events: seq<Event>)
    requires c <= MAX_ROUND_DECIMALS && bound >= Large(c) + Units(2, c)
    ensures InBound(i, c, bound) && !OrderFree(i, events)
  {
    i, events := OrderShowsBeyond28Digits(c);
    hide Computable;
    hide Payroll;
    hide AllLines;
    hide Amounts;
    hide AbsSum;
    hide Large;
    hide Units;
  }

  /**
   * At c decimals, deductions and net are free of the order of the events for all inputs up to a bound exactly when the
   * bound stays below 10^(28-c) and two units.
   */
  lemma OrderFreeExactly(c: nat, bound: real)
    requires c <= MAX_ROUND_DECIMALS
    ensures OrderFreeUpTo(c, bound) <==> bound < Large(c) + Units(2, c)
  {
    hide InBound;
    hide OrderFree;
    hide Large;
    hide Units;
    if bound < Large(c) + Units(2, c) {
      forall i, events | InBound(i, c, bound)
        ensures OrderFree(i, events)
      {
        WithinTheBound(i, events, c, bound);
      }
    } else {
      var i, events := BeyondTheBound(c, bound);
      assert InBound(i, c, bound) && !OrderFree(i, events);
    }
  }
}
