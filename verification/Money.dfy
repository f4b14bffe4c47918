/** Amounts, worked time, and the error of chains of operations on them. */
module Money {
  import opened Common
  import opened Decimals
  import Sorting

  /** One currency: the value of an amount. */
  type Amount = real

  const MAX_ROUND_DECIMALS := 8

  function Add(a: Amount, b: Amount): Amount {
    Round28(a + b)
  }

  function Subtract(a: Amount, b: Amount): Amount {
    Round28(a - b)
  }

  function Multiply(a: Amount, factor: real): Amount {
    Round28(a * factor)
  }

  function Divide(a: Amount, divisor: real): Amount
    requires divisor != 0.0
  {
    Round28(a / divisor)
  }

  function ApplyPercentage(a: Amount, percentage: real): Amount {
    Divide(Multiply(a, percentage), 100.0)
  }

  /** The decimal counts that `round` accepts; it throws for any other. */
  predicate RoundableTo(decimals: int) {
    0 <= decimals <= MAX_ROUND_DECIMALS
  }

  /** Hours worked, to be multiplied by an hourly value: already rounded to 28 digits. */
  function ToHours(minutes: int): real {
    Divide(minutes as real, 60.0)
  }

  /** Money.sum: additions from the left, starting at zero. */
  function Sum(items: seq<Amount>): Amount {
    if items == [] then 0.0 else Add(Sum(items[..|items| - 1]), items[|items| - 1])
  }

  function ExactSum(items: seq<Amount>): real {
    if items == [] then 0.0 else ExactSum(items[..|items| - 1]) + items[|items| - 1]
  }

  function AbsSum(items: seq<Amount>): real {
    if items == [] then 0.0 else AbsSum(items[..|items| - 1]) + Abs(items[|items| - 1])
  }

  // ---------------------------------------------------------------- sums

  lemma SumAppend(items: seq<Amount>, x: Amount)
    ensures Sum(items + [x]) == Add(Sum(items), x)
    ensures ExactSum(items + [x]) == ExactSum(items) + x
    ensures AbsSum(items + [x]) == AbsSum(items) + Abs(x)
  {
    assert (items + [x])[..|items|] == items;
  }

  /** A sum is already a 28-digit value, so adding zero does not disturb it. */
  lemma SumIsRounded(items: seq<Amount>)
    ensures Round28(Sum(items)) == Sum(items)
    ensures Add(Sum(items), 0.0) == Sum(items)
  {
    if items != [] {
      Round28Idempotent(Sum(items[..|items| - 1]) + items[|items| - 1]);
    }
  }

  /** Adding larger items gives a larger sum. */
  lemma {:induction false} SumMonotone(a: seq<Amount>, b: seq<Amount>)
    requires |a| == |b| && forall i :: 0 <= i < |a| ==> a[i] <= b[i]
    ensures Sum(a) <= Sum(b)
  {
    if a != [] {
      var n := |a| - 1;
      var x, y := a[n], b[n];
      hide Round28;
      assert Sum(a) == Round28(Sum(a[..n]) + x) && Sum(b) == Round28(Sum(b[..n]) + y);
      hide *;
      SumMonotone(a[..n], b[..n]);
      Round28Monotone(Sum(a[..n]) + x, Sum(b[..n]) + y);
    }
  }

  /** Every item is a whole multiple of 10^-places. */
  ghost predicate AllOnGrid(items: seq<Amount>, places: nat) {
    forall i :: 0 <= i < |items| ==> OnGrid(items[i], Ten(places))
  }

  lemma GridSum(x: real, y: real, s: real)
    requires s > 0.0 && OnGrid(x, s) && OnGrid(y, s)
    ensures OnGrid(x + y, s) && OnGrid(x - y, s)
  {
    var n :| x == GridPoint(n, s);
    var m :| y == GridPoint(m, s);
    ScaleDistributes(n as real, m as real, s);
    assert x + y == GridPoint(n + m, s) && x - y == GridPoint(n - m, s);
  }

  /** On a grid of p places, everything below 10^(28-p) is kept exactly. */
  lemma ExactOnGrid(x: real, places: nat)
    requires OnGrid(x, Ten(places)) && Abs(x) < Ten(PRECISION - places)
    ensures Round28(x) == x
  {
    var n :| x == GridPoint(n, Ten(places));
    Round28Fixes(n, places);
  }

  /** Within 28 digits a sum is the exact sum, whatever the order. */
  lemma {:induction false} SumIsExact(items: seq<Amount>, places: nat)
    requires AllOnGrid(items, places) && AbsSum(items) < Ten(PRECISION - places)
    ensures Sum(items) == ExactSum(items) && OnGrid(ExactSum(items), Ten(places))
    ensures Abs(ExactSum(items)) <= AbsSum(items)
  {
    hide Ten;
    hide OnGrid;
    hide Round28;
    if items == [] {
      ZeroOnGrid(Ten(places));
    } else {
      var front, last := items[..|items| - 1], items[|items| - 1];
      SumIsExact(front, places);
      GridSum(ExactSum(front), last, Ten(places));
      ExactOnGrid(ExactSum(front) + last, places);
    }
  }

  /** The exact sum and the absolute sum stay on the grid of the items, and the first within the second. */
  lemma {:induction false} SumsOnGrid(items: seq<Amount>, places: nat)
    requires AllOnGrid(items, places)
    ensures OnGrid(ExactSum(items), Ten(places)) && OnGrid(AbsSum(items), Ten(places))
    ensures Abs(ExactSum(items)) <= AbsSum(items)
  {
    hide Ten;
    hide OnGrid;
    ZeroOnGrid(Ten(places));
    if items != [] {
      var front, last := items[..|items| - 1], items[|items| - 1];
      SumsOnGrid(front, places);
      GridSum(ExactSum(front), last, Ten(places));
      GridSum(0.0, last, Ten(places));
      GridSum(AbsSum(front), Abs(last), Ten(places));
    }
  }

  /** What is on the grid and not zero is at least one unit away from it. */
  lemma GridStep(x: real, places: nat)
    requires OnGrid(x, Ten(places)) && x != 0.0
    ensures Abs(x) >= Ten(-(places as int))
  {
    var n :| x == GridPoint(n, Ten(places));
    var s := Ten(places);
    TenSum(places, -(places as int));
    assert Ten(0) == 1.0;
    hide Ten;
    ScaleCancels(Ten(-(places as int)), s);
    assert GridPoint(0, s) == 0.0;
    ScaleAbs(n as real, s);
    UnscaleKeepsOrder(1.0, Abs(n as real), s);
  }

  /** On a grid of p places, everything up to 10^(28-p) is kept exactly. */
  lemma ExactUpToPower(x: real, places: nat)
    requires OnGrid(x, Ten(places)) && Abs(x) <= Ten(PRECISION - places)
    ensures Round28(x) == x
  {
    var l := Ten(PRECISION - places);
    if Abs(x) < l {
      ExactOnGrid(x, places);
    } else {
      hide *;
      PowerIsExact(PRECISION - places);
      Round28Odd(l);
      assert x == l || x == -l by { EitherSign(x, l); }
    }
  }

  lemma EitherSign(x: real, l: real)
    requires Abs(x) == l || Abs(x) >= l >= Abs(x)
    ensures x == l || x == -l
  {
  }

  /**
   * Up to one unit beyond 10^(28-p) the roundings of a sum collapse into one: the sum is its exact value, rounded once,
   * whatever the order.
   */
  lemma {:induction false} SumIsRoundedOnce(items: seq<Amount>, places: nat)
    requires AllOnGrid(items, places) && AbsSum(items) <= Ten(PRECISION - places) + Ten(-(places as int))
    ensures Sum(items) == Round28(ExactSum(items))
  {
    if items != [] {
      var front, last := items[..|items| - 1], items[|items| - 1];
      assert OnGrid(last, Ten(places)) && AllOnGrid(front, places);
      assert items == front + [last];
      hide *;
      SumAppend(front, last);
      SumAdds(front, last);
      SumIsRoundedOnce(front, places);
      SumIsRounded(front);
      SumsOnGrid(front, places);
      if last != 0.0 {
        GridStep(last, places);
        ExactUpToPower(ExactSum(front), places);
      }
    }
  }

  lemma SumAdds(items: seq<Amount>, x: Amount)
    ensures Add(Sum(items), x) == Round28(Sum(items) + x) && Abs(x) >= 0.0
  {
    hide Round28;
    hide Sum;
  }

  lemma ZeroOnGrid(s: real)
    requires s > 0.0
    ensures OnGrid(0.0, s)
  {
    assert 0.0 == GridPoint(0, s);
  }

  /** The exact and absolute sums do not depend on the order of the items. */
  lemma {:induction false} SumsOfPermutation(a: seq<Amount>, b: seq<Amount>)
    requires multiset(a) == multiset(b)
    ensures ExactSum(a) == ExactSum(b) && AbsSum(a) == AbsSum(b)
    decreases |a|
  {
    if a == [] {
      assert |b| == |multiset(b)| == 0;
    } else {
      var k := Sorting.FindLast(a, b);
      SumsOfPermutation(a[..|a| - 1], b[..k] + b[k + 1..]);
      SumsSplit(b[..k], b[k], b[k + 1..]);
    }
  }

  lemma {:induction false} SumsSplit(a: seq<Amount>, x: Amount, c: seq<Amount>)
    ensures ExactSum(a + [x] + c) == ExactSum(a + c) + x && AbsSum(a + [x] + c) == AbsSum(a + c) + Abs(x)
    decreases |c|
  {
    if c == [] {
      assert a + [x] + c == a + [x] && a + c == a;
      SumAppend(a, x);
    } else {
      var front, last := c[..|c| - 1], c[|c| - 1];
      SumsSplit(a, x, front);
      assert a + [x] + c == (a + [x] + front) + [last] && a + c == (a + front) + [last];
      SumAppend(a + [x] + front, last);
      SumAppend(a + front, last);
    }
  }

  // ---------------------------------------------------------------- error of a chain of operations

  function Power(b: real, n: nat): real {
    if n == 0 then 1.0 else Times(Power(b, n - 1), b)
  }

  /** What `n` roundings to 28 digits can multiply a value by. */
  predicate Factor(k: real, n: nat) {
    Power(1.0 - HALF_ULP, n) <= k <= Power(1.0 + HALF_ULP, n)
  }

  /** `x` is the exact value but for at most `n` roundings to 28 digits. */
  ghost predicate Within(x: real, exact: real, n: nat) {
    exists k :: Factor(k, n) && x == Times(exact, k)
  }

  lemma HalfUlpIsSmall()
    ensures 0.0 < HALF_ULP <= 0.5
  {
    TenMonotone(1 - PRECISION, 0);
    assert Ten(0) == 1.0;
  }

  lemma BoundedProduct(x: real, x': real, y: real, y': real)
    requires 0.0 <= x <= x' && 0.0 <= y <= y'
    ensures 0.0 <= Times(x, y) <= Times(x', y')
  {
    assert x * y <= x' * y;
    assert x' * y <= x' * y';
  }

  lemma TimesAssociates(x: real, y: real, z: real)
    ensures Times(Times(x, y), z) == Times(x, Times(y, z))
  {
  }

  lemma TimesOne(x: real)
    ensures Times(x, 1.0) == x
  {
  }

  lemma {:induction false} PowerNonNegative(b: real, n: nat)
    requires b >= 0.0
    ensures Power(b, n) >= 0.0
  {
    if n > 0 {
      PowerNonNegative(b, n - 1);
    }
  }

  lemma {:induction false} PowerSum(b: real, i: nat, j: nat)
    ensures Power(b, i + j) == Times(Power(b, i), Power(b, j))
    decreases j
  {
    hide Times;
    if j == 0 {
      TimesOne(Power(b, i));
    } else {
      PowerSum(b, i, j - 1);
      TimesAssociates(Power(b, i), Power(b, j - 1), b);
    }
  }

  lemma FactorProduct(k: real, i: nat, l: real, j: nat)
    requires Factor(k, i) && Factor(l, j)
    ensures Factor(Times(k, l), i + j)
  {
    var low, high := 1.0 - HALF_ULP, 1.0 + HALF_ULP;
    HalfUlpIsSmall();
    PowerSum(low, i, j);
    PowerSum(high, i, j);
    PowerNonNegative(low, i);
    PowerNonNegative(low, j);
    hide Power;
    hide Times;
    BoundedProduct(Power(low, i), k, Power(low, j), l);
    BoundedProduct(k, Power(high, i), l, Power(high, j));
  }

  lemma DivideErrorPositive(r: real, x: real, h: real)
    requires x > 0.0 && Abs(r - x) <= Times(x, h)
    ensures 1.0 - h <= r / x <= 1.0 + h && Times(x, r / x) == r
  {
    UnscaleKeepsOrder(x * (1.0 - h), r, x);
    UnscaleKeepsOrder(r, x * (1.0 + h), x);
    ScaleCancels(1.0 - h, x);
    ScaleCancels(1.0 + h, x);
    ScaleCancels(r, x);
  }

  lemma NegatedQuotient(r: real, x: real)
    requires x != 0.0
    ensures (-r) / (-x) == r / x && Times(-x, r / x) == -Times(x, r / x)
  {
  }

  lemma DivideError(r: real, x: real, h: real)
    requires x != 0.0 && Abs(r - x) <= Times(Abs(x), h)
    ensures 1.0 - h <= r / x <= 1.0 + h && Times(x, r / x) == r
  {
    if x > 0.0 {
      DivideErrorPositive(r, x, h);
    } else {
      DivideErrorPositive(-r, -x, h);
      NegatedQuotient(r, x);
    }
  }

  /** One rounding multiplies by one factor. */
  lemma RoundingIsAFactor(x: real) returns (k: real)
    ensures Factor(k, 1) && Round28(x) == Times(x, k)
  {
    assert Power(1.0 - HALF_ULP, 1) == 1.0 - HALF_ULP by { assert Power(1.0 - HALF_ULP, 0) == 1.0; }
    assert Power(1.0 + HALF_ULP, 1) == 1.0 + HALF_ULP by { assert Power(1.0 + HALF_ULP, 0) == 1.0; }
    HalfUlpIsSmall();
    if x == 0.0 {
      k := 1.0;
    } else {
      Round28Error(x);
      DivideError(Round28(x), x, HALF_ULP);
      k := Round28(x) / x;
    }
  }

  lemma WithinExact(x: real)
    ensures Within(x, x, 0)
  {
    TimesOne(x);
    assert Factor(1.0, 0);
  }

  lemma WithinRounded(x: real, exact: real, n: nat)
    requires Within(x, exact, n)
    ensures Within(Round28(x), exact, n + 1)
  {
    var k :| Factor(k, n) && x == Times(exact, k);
    var l := RoundingIsAFactor(x);
    FactorProduct(k, n, l, 1);
    TimesAssociates(exact, k, l);
  }

  /** A rounded product of rounded factors. */
  lemma WithinProduct(a: real, ea: real, i: nat, b: real, eb: real, j: nat)
    requires Within(a, ea, i) && Within(b, eb, j)
    ensures Within(Multiply(a, b), Times(ea, eb), i + j + 1)
  {
    var k :| Factor(k, i) && a == Times(ea, k);
    var l :| Factor(l, j) && b == Times(eb, l);
    assert a * b == Times(a, b);
    hide Times;
    hide Factor;
    hide Round28;
    FactorProduct(k, i, l, j);
    Interchange(ea, k, eb, l);
    assert Within(Times(a, b), Times(ea, eb), i + j);
    WithinRounded(Times(a, b), Times(ea, eb), i + j);
  }

  lemma Interchange(x: real, k: real, y: real, l: real)
    ensures Times(Times(x, k), Times(y, l)) == Times(Times(x, y), Times(k, l))
  {
    assert (x * k) * (y * l) == (x * y) * (k * l);
  }

  lemma DivideTimes(x: real, k: real, divisor: real)
    requires divisor != 0.0
    ensures Times(x, k) / divisor == Times(x / divisor, k)
  {
  }

  /** A rounded quotient by an exact divisor. */
  lemma WithinQuotient(a: real, ea: real, i: nat, divisor: real)
    requires Within(a, ea, i) && divisor != 0.0
    ensures Within(Divide(a, divisor), ea / divisor, i + 1)
  {
    var k :| Factor(k, i) && a == Times(ea, k);
    DivideTimes(ea, k, divisor);
    hide Times;
    hide Factor;
    hide Round28;
    assert Within(a / divisor, ea / divisor, i);
    WithinRounded(a / divisor, ea / divisor, i);
  }

  /**
   * Rounding the end of a chain to decimal places: the amount is within one unit (half a unit for the half modes) of
   * the exact value times the factor of the chain's 28-digit roundings.
   */
  ghost predicate Approximates(amount: real, exact: real, n: nat, places: nat, mode: RoundingMode) {
    exists x :: Within(x, exact, n) &&
                Abs(amount - x) <= (if mode in {HalfUp, HalfEven} then 0.5 else 1.0) / Ten(places)
  }

  lemma RoundedChain(x: real, exact: real, n: nat, places: nat, mode: RoundingMode)
    requires Within(x, exact, n)
    ensures Approximates(RoundTo(x, places, mode), exact, n, places, mode)
  {
    RoundToLaws(x, x, places, mode);
  }
}
