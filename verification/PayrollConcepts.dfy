/** What one more configurable concept changes: two runs of the calculation, with and without it. */
module PayrollConcepts {
  import opened Common
  import opened Decimals
  import opened Money
  import opened PayrollParameters
  import opened PayrollEngine
  import opened PayrollConservation
  import opened PayrollTwoRuns
  import opened PayrollPrecision

  /** The input with one more concept. */
  function With(i: PayrollInput, at: nat, c: Concept): PayrollInput
    requires at <= |i.concepts|
  {
    i.(concepts := i.concepts[..at] + [c] + i.concepts[at..])
  }

  // ---------------------------------------------------------------- one more line

  lemma {:induction false} ConceptsJoin(i: PayrollInput, a: seq<Concept>, b: seq<Concept>)
    ensures ConceptLines(i, a + b) == ConceptLines(i, a) + ConceptLines(i, b)
    decreases |b|
  {
    hide ConceptLine;
    if b == [] {
      assert a + b == a;
    } else {
      var front := b[..|b| - 1];
      ConceptsJoin(i, a, front);
      assert (a + b)[..|a + b| - 1] == a + front;
    }
  }

  lemma OneConcept(i: PayrollInput, c: Concept)
    ensures ConceptLines(i, [c]) == ConceptLine(i, c)
  {
    hide ConceptLine;
    assert [c][..0] == [];
  }

  lemma WithIsAlike(i: PayrollInput, at: nat, c: Concept)
    requires at <= |i.concepts|
    ensures var j := With(i, at, c);
            && Alike(i, j) && i.parameters == j.parameters && i.events == j.events && i.overtime == j.overtime
            && i.concepts == i.concepts[..at] + i.concepts[at..]
            && j.concepts == i.concepts[..at] + [c] + i.concepts[at..]
            && UnpaidDays(i) == UnpaidDays(j)
            && (Computable(i) <==> Computable(j)) && (HasScale(i) <==> HasScale(j))
            && (i.categoryCode, i.liveInMode) == (j.categoryCode, j.liveInMode)
  {
    hide ApprovedDays;
    AlikeLiquidated(i, With(i, at, c));
    hide Liquidated;
  }

  /** The lines before the contributions, taken apart at the place of the new concept. */
  lemma OneMoreLine(i: PayrollInput, at: nat, c: Concept) returns (a: seq<Line>, b: seq<Line>)
    requires at <= |i.concepts|
    ensures EarlyLines(i) == a + b && EarlyLines(With(i, at, c)) == a + ConceptLine(i, c) + b
  {
    hide *;
    var j := With(i, at, c);
    WithIsAlike(i, at, c);
    SameOvertime(i, j);
    SameBefore(i, j);
    EarlyLinesSplit(i);
    EarlyLinesSplit(j);
    AlikeAdvances(i, j, i.events);
    AlikeConcepts(i, j, j.concepts);
    var x, y := i.concepts[..at], i.concepts[at..];
    ConceptsJoin(i, x, y);
    ConceptsJoin(i, x, [c]);
    ConceptsJoin(i, x + [c], y);
    OneConcept(i, c);
    var start := BeforeAdvances(i) + AdvanceLines(i, i.events);
    a, b := start + ConceptLines(i, x), ConceptLines(i, y);
    assert start + (ConceptLines(i, x) + ConceptLines(i, y)) == a + b;
    assert start + (ConceptLines(i, x) + ConceptLine(i, c) + ConceptLines(i, y)) == a + ConceptLine(i, c) + b;
  }

  /** The line of a concept, if any. */
  lemma LineOf(i: PayrollInput, c: Concept)
    ensures c.isDebit && !HasText(c.justification) ==> ConceptLine(i, c) == []
    ensures !(c.isDebit && !HasText(c.justification)) ==>
              ConceptLine(i, c) == [Line("ADDITIONAL:" + c.code, if c.isDebit then Debit else Credit, RoundConcept(i, c.amount), RoundConcept(i, c.amount))]
  {
    hide RoundConcept;
    hide HasText;
  }

  lemma SameAfter(i: PayrollInput, j: PayrollInput)
    requires Alike(i, j) && i.parameters == j.parameters && Gross(i) == Gross(j)
    ensures ContributionLines(i, i.parameters.contributions, Gross(i)) == ContributionLines(j, j.parameters.contributions, Gross(j))
    ensures WorkRiskLines(i, Gross(i)) == WorkRiskLines(j, Gross(j))
  {
    hide *;
    AlikeContributions(i, j, 0.0, i.parameters.contributions, Gross(i));
    SameRisk(i, j, Gross(i));
  }

  // ---------------------------------------------------------------- a discount without a reason

  /** A discount without a justification is not taken: apart from errors and warnings the result stays as it was. */
  lemma UnjustifiedDiscountsAreNotTaken(i: PayrollInput, at: nat, c: Concept)
    requires at <= |i.concepts| && c.isDebit && !HasText(c.justification)
    ensures var a, b := Payroll(i), Payroll(With(i, at, c));
            && a.Done? == b.Done?
            && (a.Done? ==> a.result.(errors := [], warnings := []) == b.result.(errors := [], warnings := []))
  {
    hide *;
    var j := With(i, at, c);
    WithIsAlike(i, at, c);
    LineOf(i, c);
    var x, y := OneMoreLine(i, at, c);
    assert x + [] + y == x + y;
    SameParts(i, j);
    SameButNotices(i, j);
  }

  lemma SameButNotices(i: PayrollInput, j: PayrollInput)
    requires HasScale(i) == HasScale(j) && Computable(i) == Computable(j)
    requires AllLines(i) == AllLines(j) && Gross(i) == Gross(j) && Deductions(i) == Deductions(j) && Net(i) == Net(j)
    requires Obligations(i, i.parameters.contributions, Gross(i)) == Obligations(j, j.parameters.contributions, Gross(j))
    requires WorkRiskObligations(i, Gross(i)) == WorkRiskObligations(j, Gross(j))
    ensures var a, b := Payroll(i), Payroll(j);
            && a.Done? == b.Done?
            && (a.Done? ==> a.result.(errors := [], warnings := []) == b.result.(errors := [], warnings := []))
  {
    hide AllLines;
    hide Gross;
    hide Deductions;
    hide Net;
    hide Obligations;
    hide WorkRiskObligations;
    hide Computable;
    hide HasScale;
    hide PreviousErrors;
    hide MinimumErrors;
    hide FixtureWarnings;
    hide MiddleWarnings;
    hide ConceptErrors;
  }

  // ---------------------------------------------------------------- a justified discount

  lemma SameCredits(i: PayrollInput, j: PayrollInput, a: seq<Line>, l: Line, b: seq<Line>)
    requires Alike(i, j) && EarlyLines(i) == a + b && EarlyLines(j) == a + [l] + b && l.sign == Debit
    ensures Gross(i) == Gross(j)
  {
    hide *;
    AlikeAmounts(i, j);
    AmountsAppend(a, b, Credit);
    AmountsOfThree(a, [l], b, Credit);
    AmountsOne(l, Credit);
    assert Amounts(a, Credit) + [] + Amounts(b, Credit) == Amounts(a, Credit) + Amounts(b, Credit);
    GrossIs(i);
    GrossIs(j);
  }

  /**
   * A justified discount is one debit line of its amount, rounded like every concept, among the lines there were: the
   * gross stays as it was.
   */
  lemma DiscountsAreDeducted(i: PayrollInput, at: nat, c: Concept) returns (k: nat)
    requires at <= |i.concepts| && c.isDebit && HasText(c.justification) && Payroll(i).Done? && HasScale(i)
    ensures i.parameters.rounding.conceptDecimals >= 0
    ensures var a, b := Payroll(i), Payroll(With(i, at, c));
            var x := RoundTo(c.amount, i.parameters.rounding.conceptDecimals, i.parameters.rounding.mode);
            && b.Done? && b.result.gross == a.result.gross && k <= |a.result.lines|
            && b.result.lines == a.result.lines[..k] + [Line("ADDITIONAL:" + c.code, Debit, x, x)] + a.result.lines[k..]
  {
    hide *;
    var j := With(i, at, c);
    WithIsAlike(i, at, c);
    LineOf(i, c);
    OutcomeTotals(i);
    OutcomeTotals(j);
    RoundConceptIs(i, c.amount);
    var a, b := OneMoreLine(i, at, c);
    var l := ConceptLine(i, c)[0];
    SameCredits(i, j, a, l, b);
    SameAfter(i, j);
    AllLinesAre(i);
    AllLinesAre(j);
    var rest := ContributionLines(i, i.parameters.contributions, Gross(i)) + WorkRiskLines(i, Gross(i));
    k := |a|;
    assert AllLines(i) == a + (b + rest) && AllLines(j) == a + [l] + (b + rest);
  }

  lemma AllLinesAre(i: PayrollInput)
    ensures AllLines(i) == EarlyLines(i) + ContributionLines(i, i.parameters.contributions, Gross(i)) + WorkRiskLines(i, Gross(i))
  {
    hide EarlyLines;
    hide Gross;
  }

  /** A rounded total is the exact sum while that fits in 28 digits and totals keep the decimals of concepts. */
  lemma ExactTotal(i: PayrollInput, sign: Sign)
    requires Computable(i) && sign in {Credit, Debit}
    requires i.parameters.rounding.conceptDecimals <= i.parameters.rounding.totalDecimals
    requires AbsSum(Amounts(AllLines(i), sign)) < Ten(PRECISION - i.parameters.rounding.conceptDecimals)
    ensures RoundTotal(i, Sum(Amounts(AllLines(i), sign))) == ExactSum(Amounts(AllLines(i), sign))
  {
    hide *;
    var items, c, t, mode := Amounts(AllLines(i), sign), i.parameters.rounding.conceptDecimals,
                             i.parameters.rounding.totalDecimals, i.parameters.rounding.mode;
    Folded(i);
    AmountsOnGrid(i, sign);
    SumIsExact(items, c);
    CoarserIsFiner(ExactSum(items), c, t);
    RoundedOnGrid(ExactSum(items), t, mode);
  }

  lemma RoundedOnGrid(x: real, places: nat, mode: RoundingMode)
    requires OnGrid(x, Ten(places))
    ensures RoundTo(x, places, mode) == x
  {
    RoundGridFixes(x, Ten(places), mode);
  }

  /** With totals at least as precise as concepts and debits that fit in 28 digits, deductions rise by the rounded amount. */
  lemma DiscountsRaiseDeductions(i: PayrollInput, at: nat, c: Concept)
    requires at <= |i.concepts| && c.isDebit && HasText(c.justification) && Payroll(i).Done? && HasScale(i)
    requires var b := Payroll(With(i, at, c));
             b.Done? && AbsSum(Amounts(b.result.lines, Debit)) < Ten(PRECISION - i.parameters.rounding.conceptDecimals)
    requires 0 <= i.parameters.rounding.conceptDecimals <= i.parameters.rounding.totalDecimals
    ensures Payroll(With(i, at, c)).result.deductions ==
            Payroll(i).result.deductions + RoundTo(c.amount, i.parameters.rounding.conceptDecimals, i.parameters.rounding.mode)
    ensures Payroll(With(i, at, c)).result.gross == Payroll(i).result.gross
  {
    hide *;
    var j := With(i, at, c);
    var k := DiscountsAreDeducted(i, at, c);
    WithIsAlike(i, at, c);
    OutcomeTotals(i);
    OutcomeTotals(j);
    var x := RoundTo(c.amount, i.parameters.rounding.conceptDecimals, i.parameters.rounding.mode);
    var l := Line("ADDITIONAL:" + c.code, Debit, x, x);
    SumsOfOneMore(AllLines(i), k, l);
    ExactTotal(i, Debit);
    ExactTotal(j, Debit);
    TotalsAreOfTheFinalLines(i);
    TotalsAreOfTheFinalLines(j);
  }

  lemma SumsOfOneMore(lines: seq<Line>, k: nat, l: Line)
    requires k <= |lines|
    ensures var more := lines[..k] + [l] + lines[k..];
            && ExactSum(Amounts(more, l.sign)) == ExactSum(Amounts(lines, l.sign)) + l.amount
            && AbsSum(Amounts(lines, l.sign)) <= AbsSum(Amounts(more, l.sign))
  {
    hide *;
    var a, b := lines[..k], lines[k..];
    assert lines == a + b;
    AmountsAppend(a, b, l.sign);
    AmountsOfThree(a, [l], b, l.sign);
    AmountsOne(l, l.sign);
    SumsSplit(Amounts(a, l.sign), l.amount, Amounts(b, l.sign));
    AbsNonNegative(l.amount);
  }

  lemma AbsNonNegative(x: real)
    ensures Abs(x) >= 0.0
  {
  }

  // ---------------------------------------------------------------- a payment

  lemma EarlyCredits(i: PayrollInput)
    ensures Amounts(AllLines(i), Credit) == Amounts(EarlyLines(i), Credit)
    ensures Gross(i) == RoundTotal(i, Sum(Amounts(AllLines(i), Credit)))
  {
    hide *;
    TotalsAreOfTheFinalLines(i);
  }

  lemma CreditsOfOneMore(i: PayrollInput, j: PayrollInput, a: seq<Line>, l: Line, b: seq<Line>)
    requires EarlyLines(i) == a + b && EarlyLines(j) == a + [l] + b && l.sign == Credit
    ensures ExactSum(Amounts(EarlyLines(j), Credit)) == ExactSum(Amounts(EarlyLines(i), Credit)) + l.amount
    ensures AbsSum(Amounts(EarlyLines(i), Credit)) <= AbsSum(Amounts(EarlyLines(j), Credit))
  {
    hide *;
    SumsOfOneMore(a + b, |a|, l);
    assert (a + b)[..|a|] == a && (a + b)[|a|..] == b;
  }

  /** A payment needs no justification and raises the gross by its rounded amount, while credits fit in 28 digits. */
  lemma PaymentsRaiseTheGross(i: PayrollInput, at: nat, c: Concept)
    requires at <= |i.concepts| && !c.isDebit && Payroll(i).Done? && HasScale(i)
    requires var b := Payroll(With(i, at, c));
             b.Done? ==> AbsSum(Amounts(b.result.lines, Credit)) < Ten(PRECISION - i.parameters.rounding.conceptDecimals)
    requires 0 <= i.parameters.rounding.conceptDecimals <= i.parameters.rounding.totalDecimals
    ensures Payroll(With(i, at, c)).Done?
    ensures Payroll(With(i, at, c)).result.gross ==
            Payroll(i).result.gross + RoundTo(c.amount, i.parameters.rounding.conceptDecimals, i.parameters.rounding.mode)
  {
    hide *;
    var j := With(i, at, c);
    WithIsAlike(i, at, c);
    LineOf(i, c);
    OutcomeTotals(i);
    OutcomeTotals(j);
    RoundConceptIs(i, c.amount);
    var a, b := OneMoreLine(i, at, c);
    CreditsOfOneMore(i, j, a, ConceptLine(i, c)[0], b);
    EarlyCredits(i);
    EarlyCredits(j);
    ExactTotal(i, Credit);
    ExactTotal(j, Credit);
  }
}
