/** Conservation: the totals are those of the final lines, and exact while they fit in 28 digits. */
module PayrollConservation {
  import opened Common
  import opened Decimals
  import opened Money
  import opened PayrollParameters
  import opened PayrollEngine

  // ---------------------------------------------------------------- amounts of concatenated lines

  lemma {:induction false} AmountsAppend(a: seq<Line>, b: seq<Line>, sign: Sign)
    ensures Amounts(a + b, sign) == Amounts(a, sign) + Amounts(b, sign)
    decreases |b|
  {
    if b == [] {
      assert a + b == a;
    } else {
      var front, last := b[..|b| - 1], b[|b| - 1];
      AmountsAppend(a, front, sign);
      assert (a + b)[..|a + b| - 1] == a + front;
    }
  }

  lemma AmountsOne(l: Line, sign: Sign)
    ensures Amounts([l], sign) == if l.sign == sign then [l.amount] else []
  {
    assert [l][..0] == [];
  }

  lemma {:induction false} AmountsAreOfLines(lines: seq<Line>, sign: Sign)
    ensures forall x :: x in Amounts(lines, sign) ==> exists l :: l in lines && l.amount == x
  {
    if lines != [] {
      AmountsAreOfLines(lines[..|lines| - 1], sign);
      forall x | x in Amounts(lines, sign)
        ensures exists l :: l in lines && l.amount == x
      {
        if x in Amounts(lines[..|lines| - 1], sign) {
          var l :| l in lines[..|lines| - 1] && l.amount == x;
          assert l in lines;
        } else {
          assert lines[|lines| - 1] in lines;
        }
      }
    }
  }

  // ---------------------------------------------------------------- the totals are those of the final lines

  lemma {:induction false} ContributionsAreNoCredit(i: PayrollInput, cs: seq<Contribution>, gross: Amount)
    ensures Amounts(ContributionLines(i, cs, gross), Credit) == []
  {
    hide RoundConcept;
    if cs != [] {
      ContributionsAreNoCredit(i, cs[..|cs| - 1], gross);
      AmountsAppend(ContributionLines(i, cs[..|cs| - 1], gross), [ContributionLine(i, cs[|cs| - 1], gross)], Credit);
      AmountsOne(ContributionLine(i, cs[|cs| - 1], gross), Credit);
    }
  }

  lemma ContributionStep(i: PayrollInput, start: Amount, cs: seq<Contribution>, gross: Amount)
    requires cs != []
    ensures var front, c := cs[..|cs| - 1], cs[|cs| - 1];
            var line := ContributionLine(i, c, gross);
            && ContributionLines(i, cs, gross) == ContributionLines(i, front, gross) + [line]
            && (c.borneByWorker <==> line.sign == Debit)
            && RunningDeductions(i, start, cs, gross) ==
               if c.borneByWorker then Add(RunningDeductions(i, start, front, gross), line.amount)
               else RunningDeductions(i, start, front, gross)
  {
    hide ContributionAmount;
    hide Add;
  }

  lemma NothingRuns(i: PayrollInput, start: Amount, gross: Amount)
    ensures RunningDeductions(i, start, [], gross) == start && Amounts(ContributionLines(i, [], gross), Debit) == []
  {
  }

  /** The deductions that accumulate while the contribution lines are appended are the sum over those lines. */
  lemma {:induction false} RunningIsSum(i: PayrollInput, debits: seq<Amount>, cs: seq<Contribution>, gross: Amount)
    ensures RunningDeductions(i, Sum(debits), cs, gross) ==
            Sum(debits + Amounts(ContributionLines(i, cs, gross), Debit))
  {
    hide RunningDeductions;
    hide ContributionLines;
    hide ContributionLine;
    hide Amounts;
    hide Sum;
    hide Add;
    if cs == [] {
      NothingRuns(i, Sum(debits), gross);
      assert debits + [] == debits;
    } else {
      var front, c := cs[..|cs| - 1], cs[|cs| - 1];
      var line := ContributionLine(i, c, gross);
      var before := debits + Amounts(ContributionLines(i, front, gross), Debit);
      ContributionStep(i, Sum(debits), cs, gross);
      RunningIsSum(i, debits, front, gross);
      AmountsAppend(ContributionLines(i, front, gross), [line], Debit);
      AmountsOne(line, Debit);
      SumAppend(before, line.amount);
      if c.borneByWorker {
        assert debits + Amounts(ContributionLines(i, cs, gross), Debit) == before + [line.amount];
      } else {
        assert debits + Amounts(ContributionLines(i, cs, gross), Debit) == before;
      }
    }
  }

  lemma RiskIsInformational(i: PayrollInput, gross: Amount)
    ensures WorkRiskLines(i, gross) == [] || (|WorkRiskLines(i, gross)| == 1 && WorkRiskLines(i, gross)[0].sign == Informational)
  {
  }

  lemma FinalAmounts(i: PayrollInput, sign: Sign)
    requires sign in {Credit, Debit}
    ensures Amounts(AllLines(i), sign) ==
            Amounts(EarlyLines(i), sign) + Amounts(ContributionLines(i, i.parameters.contributions, Gross(i)), sign)
  {
    var early, contributions, risk :=
      EarlyLines(i), ContributionLines(i, i.parameters.contributions, Gross(i)), WorkRiskLines(i, Gross(i));
    RiskIsInformational(i, Gross(i));
    hide Gross;
    hide EarlyLines;
    hide ContributionLines;
    hide WorkRiskLines;
    assert AllLines(i) == early + contributions + risk;
    hide *;
    AmountsAppend(early, contributions, sign);
    AmountsAppend(early + contributions, risk, sign);
    if risk == [] {
      assert early + contributions + risk == early + contributions;
    } else {
      AmountsOne(risk[0], sign);
      assert risk == [risk[0]];
    }
  }

  /**
   * Although the gross is taken before the contributions are appended and the deductions grow during that loop, both
   * totals are those of the final lines of their sign.
   */
  lemma TotalsAreOfTheFinalLines(i: PayrollInput)
    ensures Amounts(AllLines(i), Credit) == Amounts(EarlyLines(i), Credit)
    ensures Gross(i) == RoundTotal(i, Sum(Amounts(AllLines(i), Credit)))
    ensures Deductions(i) == RoundTotal(i, Sum(Amounts(AllLines(i), Debit)))
    ensures Net(i) == RoundTotal(i, Subtract(Gross(i), Deductions(i)))
  {
    hide AllLines;
    hide EarlyLines;
    hide ContributionLines;
    hide RunningDeductions;
    hide RoundTotal;
    hide Subtract;
    hide Add;
    hide Sum;
    hide Amounts;
    FinalAmounts(i, Credit);
    FinalAmounts(i, Debit);
    ContributionsAreNoCredit(i, i.parameters.contributions, Gross(i));
    RunningIsSum(i, Amounts(EarlyLines(i), Debit), i.parameters.contributions, Gross(i));
  }

  // ---------------------------------------------------------------- every amount is a rounded concept

  /** The amount of a line came out of the concept rounding. */
  ghost predicate IsRounded(i: PayrollInput, l: Line) {
    exists x :: l.amount == RoundConcept(i, x)
  }

  ghost predicate AllRounded(i: PayrollInput, lines: seq<Line>) {
    forall l :: l in lines ==> IsRounded(i, l)
  }

  lemma {:induction false} OvertimeRounded(i: PayrollInput, entries: seq<OvertimeEntry>)
    ensures AllRounded(i, OvertimeLines(i, entries))
  {
    hide RoundConcept;
    if entries != [] {
      OvertimeRounded(i, entries[..|entries| - 1]);
    }
  }

  lemma {:induction false} AdvancesRounded(i: PayrollInput, events: seq<Event>)
    ensures AllRounded(i, AdvanceLines(i, events))
  {
    hide RoundConcept;
    if events != [] {
      AdvancesRounded(i, events[..|events| - 1]);
    }
  }

  lemma {:induction false} ConceptsRounded(i: PayrollInput, concepts: seq<Concept>)
    ensures AllRounded(i, ConceptLines(i, concepts))
  {
    hide RoundConcept;
    hide HasText;
    if concepts != [] {
      ConceptsRounded(i, concepts[..|concepts| - 1]);
    }
  }

  lemma {:induction false} ContributionsRounded(i: PayrollInput, cs: seq<Contribution>, gross: Amount)
    ensures AllRounded(i, ContributionLines(i, cs, gross))
  {
    hide RoundConcept;
    if cs != [] {
      ContributionsRounded(i, cs[..|cs| - 1], gross);
    }
  }

  lemma SingleLinesRounded(i: PayrollInput)
    ensures IsRounded(i, BaseLine(i))
    ensures AllRounded(i, HolidayLines(i)) && AllRounded(i, SeniorityLines(i)) && AllRounded(i, ZoneLines(i))
    ensures AllRounded(i, VacationLines(i)) && AllRounded(i, BonusLines(i)) && AllRounded(i, AbsenceLines(i))
    ensures AllRounded(i, WorkRiskLines(i, Gross(i)))
  {
    hide RoundConcept;
    hide Gross;
    hide TierOf;
    hide ZoneOf;
    hide SeniorityBase;
  }

  lemma AllLinesRounded(i: PayrollInput)
    ensures AllRounded(i, AllLines(i))
  {
    OvertimeRounded(i, EnabledOvertime(i));
    AdvancesRounded(i, i.events);
    ConceptsRounded(i, i.concepts);
    ContributionsRounded(i, i.parameters.contributions, Gross(i));
    SingleLinesRounded(i);
    hide IsRounded;
    hide Gross;
    hide BaseLine;
    hide OvertimeLines;
    hide HolidayLines;
    hide SeniorityLines;
    hide ZoneLines;
    hide VacationLines;
    hide BonusLines;
    hide AbsenceLines;
    hide AdvanceLines;
    hide ConceptLines;
    hide ContributionLines;
    hide WorkRiskLines;
  }

  lemma AmountsOnGrid(i: PayrollInput, sign: Sign)
    requires Computable(i)
    ensures AllOnGrid(Amounts(AllLines(i), sign), i.parameters.rounding.conceptDecimals)
  {
    AllLinesRounded(i);
    AmountsAreOfLines(AllLines(i), sign);
    hide AllLines;
    var items := Amounts(AllLines(i), sign);
    forall k | 0 <= k < |items|
      ensures OnGrid(items[k], Ten(i.parameters.rounding.conceptDecimals))
    {
      assert items[k] in items;
      var l :| l in AllLines(i) && l.amount == items[k];
      var x :| l.amount == RoundConcept(i, x);
      RoundGridFixes(x, Ten(i.parameters.rounding.conceptDecimals), i.parameters.rounding.mode);
    }
  }

  // ---------------------------------------------------------------- exact totals

  /** The amounts of the lines fit in 28 digits at the precision they are rounded to. */
  predicate Fits(i: PayrollInput)
    requires Computable(i)
  {
    AbsSum(Amounts(AllLines(i), Credit)) + AbsSum(Amounts(AllLines(i), Debit)) <
    Ten(PRECISION - i.parameters.rounding.conceptDecimals)
  }

  lemma {:induction false} AbsSumNonNegative(items: seq<Amount>)
    ensures AbsSum(items) >= 0.0
  {
    if items != [] {
      AbsSumNonNegative(items[..|items| - 1]);
    }
  }

  lemma SumFits(i: PayrollInput, sign: Sign)
    requires Computable(i) && Fits(i) && sign in {Credit, Debit}
    ensures var items := Amounts(AllLines(i), sign);
            && Sum(items) == ExactSum(items) && Abs(ExactSum(items)) <= AbsSum(items)
            && OnGrid(ExactSum(items), Ten(i.parameters.rounding.conceptDecimals))
  {
    hide AllLines;
    hide Amounts;
    hide Sum;
    hide ExactSum;
    hide AbsSum;
    hide Ten;
    hide AllOnGrid;
    hide OnGrid;
    AbsSumNonNegative(Amounts(AllLines(i), Credit));
    AbsSumNonNegative(Amounts(AllLines(i), Debit));
    AmountsOnGrid(i, sign);
    SumIsExact(Amounts(AllLines(i), sign), i.parameters.rounding.conceptDecimals);
  }

  lemma CoarserIsFiner(x: real, c: nat, t: nat)
    requires OnGrid(x, Ten(c)) && c <= t
    ensures OnGrid(x, Ten(t))
  {
    var n :| x == GridPoint(n, Ten(c));
    FinerGrid(n, c, t);
  }

  /** A total equals the exact sum of its lines precisely when that sum has no more decimals than totals keep. */
  lemma RoundingBitesExactly(i: PayrollInput, sign: Sign)
    requires Computable(i) && Fits(i) && sign in {Credit, Debit}
    ensures var exact := ExactSum(Amounts(AllLines(i), sign));
            RoundTotal(i, Sum(Amounts(AllLines(i), sign))) == exact <==>
            OnGrid(exact, Ten(i.parameters.rounding.totalDecimals))
  {
    SumFits(i, sign);
    hide AllLines;
    RoundGridFixes(ExactSum(Amounts(AllLines(i), sign)), Ten(i.parameters.rounding.totalDecimals), i.parameters.rounding.mode);
  }

  lemma TotalIsExact(i: PayrollInput, sign: Sign)
    requires Computable(i) && Fits(i) && sign in {Credit, Debit}
    requires i.parameters.rounding.conceptDecimals <= i.parameters.rounding.totalDecimals
    ensures RoundTotal(i, Sum(Amounts(AllLines(i), sign))) == ExactSum(Amounts(AllLines(i), sign))
  {
    SumFits(i, sign);
    RoundingBitesExactly(i, sign);
    CoarserIsFiner(ExactSum(Amounts(AllLines(i), sign)), i.parameters.rounding.conceptDecimals,
                   i.parameters.rounding.totalDecimals);
  }

  lemma NetOfGridTotals(gross: Amount, deductions: Amount, c: nat, t: nat, mode: RoundingMode)
    requires c <= t
    requires OnGrid(gross, Ten(c)) && OnGrid(deductions, Ten(c))
    requires Abs(gross - deductions) < Ten(PRECISION - c)
    ensures RoundTo(Subtract(gross, deductions), t, mode) == gross - deductions
  {
    hide Ten;
    hide RoundGrid;
    hide OnGrid;
    hide Round28;
    GridSum(gross, deductions, Ten(c));
    ExactOnGrid(gross - deductions, c);
    CoarserIsFiner(gross - deductions, c, t);
    RoundGridFixes(gross - deductions, Ten(t), mode);
  }

  /** What the predicates say, for proofs that keep them folded. */
  lemma Folded(i: PayrollInput)
    requires Computable(i)
    ensures 0 <= i.parameters.rounding.conceptDecimals && 0 <= i.parameters.rounding.totalDecimals
    ensures forall x :: RoundTotal(i, x) == RoundTo(x, i.parameters.rounding.totalDecimals, i.parameters.rounding.mode)
    ensures var all := AbsSum(Amounts(AllLines(i), Credit)) + AbsSum(Amounts(AllLines(i), Debit));
            Fits(i) <==> all < Ten(PRECISION - i.parameters.rounding.conceptDecimals)
  {
    hide AllLines;
    hide RoundTo;
  }

  lemma AbsDifference(a: real, b: real, x: real, y: real)
    requires Abs(a) <= x && Abs(b) <= y
    ensures Abs(a - b) <= x + y
  {
  }

  /**
   * With totals at least as precise as concepts, nothing is lost: gross and deductions are the exact sums of the final
   * lines of their sign, and the net is exactly their difference.
   */
  lemma TotalsAreExact(i: PayrollInput)
    requires Computable(i) && Fits(i)
    requires i.parameters.rounding.conceptDecimals <= i.parameters.rounding.totalDecimals
    ensures Gross(i) == ExactSum(Amounts(AllLines(i), Credit))
    ensures Deductions(i) == ExactSum(Amounts(AllLines(i), Debit))
    ensures Net(i) == Gross(i) - Deductions(i)
  {
    hide *;
    Folded(i);
    var credits, debits := Amounts(AllLines(i), Credit), Amounts(AllLines(i), Debit);
    TotalsAreOfTheFinalLines(i);
    TotalIsExact(i, Credit);
    TotalIsExact(i, Debit);
    SumFits(i, Credit);
    SumFits(i, Debit);
    AbsDifference(Gross(i), Deductions(i), AbsSum(credits), AbsSum(debits));
    NetOfGridTotals(Gross(i), Deductions(i), i.parameters.rounding.conceptDecimals,
                    i.parameters.rounding.totalDecimals, i.parameters.rounding.mode);
  }

  /** Whatever the rounding, the net is exactly the difference of the two totals while that fits in 28 digits. */
  lemma NetIsTheDifference(i: PayrollInput)
    requires Computable(i) && Abs(Gross(i) - Deductions(i)) < Ten(PRECISION - i.parameters.rounding.totalDecimals)
    ensures Net(i) == Gross(i) - Deductions(i)
  {
    hide *;
    Folded(i);
    var t, mode := i.parameters.rounding.totalDecimals, i.parameters.rounding.mode;
    TotalsAreOfTheFinalLines(i);
    RoundToGrid(Sum(Amounts(AllLines(i), Credit)), t, mode);
    RoundToGrid(Sum(Amounts(AllLines(i), Debit)), t, mode);
    NetOfGridTotals(Gross(i), Deductions(i), t, t, mode);
  }

  lemma RoundToGrid(x: real, places: nat, mode: RoundingMode)
    ensures OnGrid(RoundTo(x, places, mode), Ten(places))
  {
    RoundGridFixes(x, Ten(places), mode);
  }

  // ---------------------------------------------------------------- the outcome

  /** What the outcome says: nothing without a scale, an exception when something throws, and else the totals. */
  lemma OutcomeTotals(i: PayrollInput)
    ensures Payroll(i).Raised? <==> HasScale(i) && !Computable(i)
    ensures !HasScale(i) ==> Payroll(i).result.lines == []
    ensures !HasScale(i) ==> (Payroll(i).result.gross, Payroll(i).result.deductions, Payroll(i).result.net) == (0.0, 0.0, 0.0)
    ensures HasScale(i) && Computable(i) ==> Payroll(i).result.lines == AllLines(i)
    ensures HasScale(i) && Computable(i) ==>
              (Payroll(i).result.gross, Payroll(i).result.deductions, Payroll(i).result.net) == (Gross(i), Deductions(i), Net(i))
  {
    hide HasScale;
    hide Computable;
    hide AllLines;
    hide Gross;
    hide Deductions;
    hide Net;
    hide Obligations;
    hide WorkRiskObligations;
    hide PreviousErrors;
    hide MinimumErrors;
    hide ConceptErrors;
    hide FixtureWarnings;
    hide MiddleWarnings;
  }

  /** Conservation of the outcome: its totals are those of its own lines. */
  lemma OutcomeIsConserved(i: PayrollInput)
    requires Payroll(i).Done?
    ensures var r := Payroll(i).result;
            if HasScale(i) then
              && r.gross == RoundTotal(i, Sum(Amounts(r.lines, Credit)))
              && r.deductions == RoundTotal(i, Sum(Amounts(r.lines, Debit)))
              && r.net == RoundTotal(i, Subtract(r.gross, r.deductions))
            else r.lines == [] && r.gross == r.deductions == r.net == 0.0
  {
    hide *;
    OutcomeTotals(i);
    TotalsAreOfTheFinalLines(i);
  }

  lemma EmptyTotals(sign: Sign)
    ensures ExactSum(Amounts([], sign)) == 0.0
  {
  }

  /** And exact, with or without a scale, while the lines fit and totals are at least as precise as concepts. */
  lemma OutcomeIsExact(i: PayrollInput)
    requires Payroll(i).Done?
    requires var r := Payroll(i).result;
             AbsSum(Amounts(r.lines, Credit)) + AbsSum(Amounts(r.lines, Debit)) <
             Ten(PRECISION - i.parameters.rounding.conceptDecimals)
    requires i.parameters.rounding.conceptDecimals <= i.parameters.rounding.totalDecimals
    ensures var r := Payroll(i).result;
            && r.gross == ExactSum(Amounts(r.lines, Credit))
            && r.deductions == ExactSum(Amounts(r.lines, Debit))
            && r.net == r.gross - r.deductions
  {
    hide *;
    OutcomeTotals(i);
    if HasScale(i) {
      Folded(i);
      TotalsAreExact(i);
    } else {
      EmptyTotals(Credit);
      EmptyTotals(Debit);
    }
  }
}
