/**
 * Decimal arithmetic as the money type uses it: every operation is the exact result rounded half away from zero to
 * 28 significant digits, and rounding to decimal places is exact. Values are reals; a decimal string and its value
 * are identified.
 */
module Decimals {

  datatype RoundingMode = HalfUp | HalfEven | Down | Up

  function Abs(x: real): real {
    if x < 0.0 then -x else x
  }

  // ---------------------------------------------------------------- rounding to an integer

  /** Rounding of a non-negative number. */
  function RoundMagnitude(y: real, mode: RoundingMode): int
    requires y >= 0.0
  {
    var whole := y.Floor;
    var fraction := y - whole as real;
    match mode
    case HalfUp => if fraction >= 0.5 then whole + 1 else whole
    case HalfEven => if fraction > 0.5 || (fraction == 0.5 && whole % 2 == 1) then whole + 1 else whole
    case Down => whole
    case Up => if fraction > 0.0 then whole + 1 else whole
  }

  /** The four modes treat a sign symmetrically. */
  function RoundInt(y: real, mode: RoundingMode): int {
    if y >= 0.0 then RoundMagnitude(y, mode) else -RoundMagnitude(-y, mode)
  }

  lemma RoundIntMonotone(x: real, y: real, mode: RoundingMode)
    requires x <= y
    ensures RoundInt(x, mode) <= RoundInt(y, mode)
  {
  }

  lemma RoundIntOdd(x: real, mode: RoundingMode)
    ensures RoundInt(-x, mode) == -RoundInt(x, mode)
  {
  }

  lemma RoundIntOfInteger(n: int, mode: RoundingMode)
    ensures RoundInt(n as real, mode) == n
  {
    assert (-(n as real)) == (-n) as real;
  }

  /** Half a unit for the half modes, less than one unit for the others, and Down and Up know their side. */
  lemma RoundIntError(x: real, mode: RoundingMode)
    ensures mode in {HalfUp, HalfEven} ==> Abs(RoundInt(x, mode) as real - x) <= 0.5
    ensures Abs(RoundInt(x, mode) as real - x) < 1.0
    ensures mode == Down ==> Abs(RoundInt(x, mode) as real) <= Abs(x)
    ensures mode == Up ==> Abs(RoundInt(x, mode) as real) >= Abs(x)
  {
  }

  /** A tie goes away from zero under HalfUp and to the even neighbour under HalfEven. */
  lemma Ties(n: int)
    ensures RoundInt(n as real + 0.5, HalfUp) == if n >= 0 then n + 1 else n
    ensures RoundInt(n as real + 0.5, HalfEven) == if n % 2 == 0 then n else n + 1
  {
    var y := n as real + 0.5;
    if n >= 0 {
      assert y.Floor == n;
    } else {
      assert -y == (-n - 1) as real + 0.5;
      assert (-y).Floor == -n - 1;
    }
  }

  // ---------------------------------------------------------------- powers of ten

  function Ten(k: int): (r: real)
    ensures r > 0.0
    decreases if k < 0 then -k else k
  {
    if k == 0 then 1.0 else if k > 0 then 10.0 * Ten(k - 1) else Ten(k + 1) / 10.0
  }

  lemma TenStep(k: int)
    ensures Ten(k + 1) == 10.0 * Ten(k)
  {
  }

  /** Multiplication by name, so that proofs can keep the products of powers out of the arithmetic. */
  function Times(x: real, y: real): real {
    x * y
  }

  lemma TimesTen(x: real, y: real)
    ensures Times(x, 10.0 * y) == 10.0 * Times(x, y)
  {
  }

  lemma {:induction false} TenSum(a: int, b: int)
    ensures Ten(a + b) == Times(Ten(a), Ten(b))
    decreases if b < 0 then -b else b
  {
    if b > 0 {
      TenSum(a, b - 1);
      hide Ten;
      hide Times;
      TenStep(a + b - 1);
      TenStep(b - 1);
      TimesTen(Ten(a), Ten(b - 1));
    } else if b < 0 {
      TenSum(a, b + 1);
      hide Ten;
      hide Times;
      TenStep(a + b);
      TenStep(b);
      TimesTen(Ten(a), Ten(b));
    }
  }

  lemma {:induction false} TenMonotone(a: int, b: int)
    requires a <= b
    ensures Ten(a) <= Ten(b)
    decreases b - a
  {
    if a < b {
      TenMonotone(a, b - 1);
      TenStep(b - 1);
    }
  }

  /** A non-negative power of ten is a whole number. */
  lemma {:induction false} TenWhole(k: nat)
    ensures Ten(k) == Ten(k).Floor as real && Ten(k).Floor >= 1
  {
    if k > 0 {
      TenWhole(k - 1);
      assert Ten(k) == (10 * Ten(k - 1).Floor) as real;
    }
  }

  // ---------------------------------------------------------------- scaling

  lemma ScaleKeepsOrder(a: real, b: real, s: real)
    requires s > 0.0 && a <= b
    ensures a * s <= b * s
  {
  }

  lemma UnscaleKeepsOrder(a: real, b: real, s: real)
    requires s > 0.0 && a <= b
    ensures a / s <= b / s
  {
    assert a / s == a * (1.0 / s) && b / s == b * (1.0 / s);
    ScaleKeepsOrder(a, b, 1.0 / s);
  }

  lemma UnscaleKeepsStrictOrder(a: real, b: real, s: real)
    requires s > 0.0 && a < b
    ensures a / s < b / s
  {
    assert b / s - a / s == (b - a) / s;
  }

  lemma ScaleCancels(a: real, s: real)
    requires s > 0.0
    ensures (a * s) / s == a && (a / s) * s == a
  {
  }

  lemma ScaleNegates(a: real, s: real)
    requires s > 0.0
    ensures (-a) * s == -(a * s) && (-a) / s == -(a / s)
  {
  }

  lemma ScaleDistributes(a: real, b: real, s: real)
    requires s > 0.0
    ensures (a + b) * s == a * s + b * s && (a + b) / s == a / s + b / s
    ensures (a - b) * s == a * s - b * s && (a - b) / s == a / s - b / s
  {
  }

  lemma ScaleAbs(a: real, s: real)
    requires s > 0.0
    ensures Abs(a * s) == Abs(a) * s && Abs(a / s) == Abs(a) / s
  {
    ScaleNegates(a, s);
    if a >= 0.0 {
      ScaleKeepsOrder(0.0, a, s);
      UnscaleKeepsOrder(0.0, a, s);
    } else {
      ScaleKeepsOrder(a, 0.0, s);
      UnscaleKeepsOrder(a, 0.0, s);
    }
  }

  // ---------------------------------------------------------------- rounding to a grid

  function Scaled(x: real, s: real): real {
    x * s
  }

  function GridPoint(n: int, s: real): real
    requires s > 0.0
  {
    n as real / s
  }

  /** Round to whole multiples of 1/s. */
  function RoundGrid(x: real, s: real, mode: RoundingMode): real
    requires s > 0.0
  {
    GridPoint(RoundInt(Scaled(x, s), mode), s)
  }

  ghost predicate OnGrid(x: real, s: real)
    requires s > 0.0
  {
    exists n :: x == GridPoint(n, s)
  }

  lemma ScaledPoint(n: int, s: real)
    requires s > 0.0
    ensures Scaled(GridPoint(n, s), s) == n as real
  {
    ScaleCancels(n as real, s);
  }

  lemma RoundGridMonotone(x: real, y: real, s: real, mode: RoundingMode)
    requires x <= y && s > 0.0
    ensures RoundGrid(x, s, mode) <= RoundGrid(y, s, mode)
  {
    ScaleKeepsOrder(x, y, s);
    assert Scaled(x, s) <= Scaled(y, s);
    hide Scaled;
    RoundIntMonotone(Scaled(x, s), Scaled(y, s), mode);
    hide RoundInt;
    UnscaleKeepsOrder(RoundInt(Scaled(x, s), mode) as real, RoundInt(Scaled(y, s), mode) as real, s);
  }

  lemma ScaledOdd(x: real, n: int, s: real)
    requires s > 0.0
    ensures Scaled(-x, s) == -Scaled(x, s) && GridPoint(-n, s) == -GridPoint(n, s)
  {
    ScaleNegates(x, s);
    ScaleNegates(n as real, s);
    assert (-n) as real == -(n as real);
  }

  lemma RoundGridOdd(x: real, s: real, mode: RoundingMode)
    requires s > 0.0
    ensures RoundGrid(-x, s, mode) == -RoundGrid(x, s, mode)
  {
    RoundIntOdd(Scaled(x, s), mode);
    ScaledOdd(x, RoundInt(Scaled(x, s), mode), s);
    hide RoundInt;
    hide Scaled;
    hide GridPoint;
  }

  lemma GridPointIsFixed(n: int, s: real, mode: RoundingMode)
    requires s > 0.0
    ensures RoundGrid(GridPoint(n, s), s, mode) == GridPoint(n, s)
  {
    ScaledPoint(n, s);
    RoundIntOfInteger(n, mode);
    hide RoundInt;
    hide Scaled;
    hide GridPoint;
  }

  /** Rounding lands on the grid and keeps exactly the values that are on it; so it is idempotent. */
  lemma RoundGridFixes(x: real, s: real, mode: RoundingMode)
    requires s > 0.0
    ensures OnGrid(RoundGrid(x, s, mode), s)
    ensures RoundGrid(x, s, mode) == x <==> OnGrid(x, s)
    ensures RoundGrid(RoundGrid(x, s, mode), s, mode) == RoundGrid(x, s, mode)
  {
    var n := RoundInt(Scaled(x, s), mode);
    assert RoundGrid(x, s, mode) == GridPoint(n, s);
    hide RoundGrid;
    hide GridPoint;
    GridPointIsFixed(n, s, mode);
    if OnGrid(x, s) {
      var k :| x == GridPoint(k, s);
      GridPointIsFixed(k, s, mode);
    }
  }

  /** Distances on the scale are distances on the grid, scaled. */
  lemma GridDistance(n: int, x: real, s: real)
    requires s > 0.0
    ensures Abs(GridPoint(n, s) - x) == Abs(n as real - Scaled(x, s)) / s
    ensures Abs(GridPoint(n, s)) == Abs(n as real) / s && Abs(x) == Abs(Scaled(x, s)) / s
  {
    var m, y := n as real, x * s;
    ScaleCancels(x, s);
    assert y / s == x;
    ScaleDistributes(m, y, s);
    ScaleAbs(m - y, s);
    ScaleAbs(m, s);
    ScaleAbs(y, s);
  }

  /** The error of rounding to a grid, in units of the grid. */
  lemma RoundGridError(x: real, s: real, mode: RoundingMode)
    requires s > 0.0
    ensures mode in {HalfUp, HalfEven} ==> Abs(RoundGrid(x, s, mode) - x) <= 0.5 / s
    ensures Abs(RoundGrid(x, s, mode) - x) < 1.0 / s
    ensures mode == Down ==> Abs(RoundGrid(x, s, mode)) <= Abs(x)
    ensures mode == Up ==> Abs(RoundGrid(x, s, mode)) >= Abs(x)
  {
    var y := Scaled(x, s);
    var n := RoundInt(y, mode);
    RoundIntError(y, mode);
    GridDistance(n, x, s);
    hide RoundInt;
    hide Scaled;
    hide GridPoint;
    hide Abs;
    UnscaleKeepsStrictOrder(Abs(n as real - y), 1.0, s);
    if mode in {HalfUp, HalfEven} {
      UnscaleKeepsOrder(Abs(n as real - y), 0.5, s);
    }
    if mode == Down {
      UnscaleKeepsOrder(Abs(n as real), Abs(y), s);
    }
    if mode == Up {
      UnscaleKeepsOrder(Abs(y), Abs(n as real), s);
    }
  }

  // ---------------------------------------------------------------- rounding to decimal places

  /** toDecimalPlaces. */
  function RoundTo(x: real, places: nat, mode: RoundingMode): real {
    RoundGrid(x, Ten(places), mode)
  }

  /** The four modes are monotone, odd and idempotent, and their error is bounded by their unit. */
  lemma RoundToLaws(x: real, y: real, places: nat, mode: RoundingMode)
    ensures x <= y ==> RoundTo(x, places, mode) <= RoundTo(y, places, mode)
    ensures RoundTo(-x, places, mode) == -RoundTo(x, places, mode)
    ensures RoundTo(RoundTo(x, places, mode), places, mode) == RoundTo(x, places, mode)
    ensures mode in {HalfUp, HalfEven} ==> Abs(RoundTo(x, places, mode) - x) <= 0.5 / Ten(places)
    ensures mode in {Down, Up} ==> Abs(RoundTo(x, places, mode) - x) < 1.0 / Ten(places)
    ensures mode == Down ==> Abs(RoundTo(x, places, mode)) <= Abs(x)
    ensures mode == Up ==> Abs(RoundTo(x, places, mode)) >= Abs(x)
  {
    hide Ten;
    hide RoundGrid;
    if x <= y {
      RoundGridMonotone(x, y, Ten(places), mode);
    }
    RoundGridOdd(x, Ten(places), mode);
    RoundGridFixes(x, Ten(places), mode);
    RoundGridError(x, Ten(places), mode);
  }

  // ---------------------------------------------------------------- 28 significant digits

  const PRECISION := 28

  /** Position of the leading digit: 10^e <= x < 10^(e+1). */
  function Exponent(x: real): (e: int)
    requires x > 0.0
    ensures Ten(e) <= x < Ten(e + 1)
    decreases if x >= 1.0 then x.Floor else (1.0 / x).Floor + 10
  {
    if x >= 10.0 then
      var e := Exponent(x / 10.0);
      TenStep(e);
      TenStep(e + 1);
      e + 1
    else if x < 1.0 then
      Reciprocal(x);
      var e := Exponent(10.0 * x);
      TenStep(e - 1);
      TenStep(e);
      e - 1
    else
      assert Ten(0) == 1.0 && Ten(1) == 10.0;
      0
  }

  lemma Reciprocal(x: real)
    requires 0.0 < x < 1.0
    ensures 10.0 * x < 1.0 ==> (1.0 / (10.0 * x)).Floor < (1.0 / x).Floor
    ensures (1.0 / x).Floor >= 1
  {
    var y := 1.0 / x;
    assert y > 1.0 by { UnscaleKeepsStrictOrder(x, 1.0, x); }
    assert 1.0 / (10.0 * x) == y / 10.0;
    assert y / 10.0 < y - 0.5;
  }

  /** The grid of 28 significant digits around a non-zero value. */
  function DigitGrid(x: real): (s: real)
    requires x != 0.0
    ensures s > 0.0
  {
    Ten(PRECISION - 1 - Exponent(Abs(x)))
  }

  /** The result of every addition, product and quotient: 28 significant digits, halves away from zero. */
  function Round28(x: real): real {
    if x == 0.0 then 0.0 else RoundGrid(x, DigitGrid(x), HalfUp)
  }

  lemma TenPositiveOrder(a: int, b: int)
    requires Ten(a) < Ten(b)
    ensures a < b
  {
    if b <= a {
      TenMonotone(b, a);
    }
  }

  /** A whole number of 10^-p is a whole number of any finer power. */
  lemma FinerGrid(n: int, p: int, q: int)
    requires p <= q
    ensures OnGrid(GridPoint(n, Ten(p)), Ten(q))
  {
    TenSum(q - p, p);
    TenWhole(q - p);
    hide Ten;
    hide Times;
    hide GridPoint;
    var factor := Ten(q - p).Floor;
    RefineGrid(n, factor, Ten(p), Ten(q));
    assert GridPoint(n, Ten(p)) == GridPoint(n * factor, Ten(q));
  }

  lemma RefineGrid(n: int, factor: int, b: real, c: real)
    requires factor >= 1 && b > 0.0 && c > 0.0 && c == Times(factor as real, b)
    ensures GridPoint(n, b) == GridPoint(n * factor, c)
  {
    ProductOverProduct(n as real, factor as real, b);
    assert (n * factor) as real == n as real * factor as real;
  }

  lemma ProductOverProduct(n: real, a: real, b: real)
    requires a > 0.0 && b > 0.0
    ensures a * b > 0.0 && (n * a) / (a * b) == n / b
  {
    var c := n / b;
    assert n == c * b;
    assert n * a == c * (a * b) by {
      assert (c * b) * a == c * (a * b);
    }
    ScaleCancels(c, a * b);
  }

  /** A value of at most 28 digits is kept exactly. */
  lemma Round28Fixes(n: int, p: int)
    requires Abs(GridPoint(n, Ten(p))) < Ten(28 - p)
    ensures Round28(GridPoint(n, Ten(p))) == GridPoint(n, Ten(p))
  {
    var x := GridPoint(n, Ten(p));
    if x != 0.0 {
      var e := Exponent(Abs(x));
      TenPositiveOrder(e, PRECISION - p) by { assert Ten(e) < Ten(PRECISION - p); }
      FinerGrid(n, p, PRECISION - 1 - e);
      RoundGridFixes(x, DigitGrid(x), HalfUp);
    }
  }

  lemma Round28Odd(x: real)
    ensures Round28(-x) == -Round28(x)
  {
    if x != 0.0 {
      assert Abs(-x) == Abs(x);
      RoundGridOdd(x, DigitGrid(x), HalfUp);
    }
  }

  /** The result stays between the powers of ten around the value. */
  lemma Round28Bracket(x: real)
    requires x > 0.0
    ensures Ten(Exponent(x)) <= Round28(x) <= Ten(Exponent(x) + 1)
  {
    var e := Exponent(x);
    PowerOnDigitGrid(e, e);
    PowerOnDigitGrid(e + 1, e);
    RoundGridMonotone(Ten(e), x, DigitGrid(x), HalfUp);
    RoundGridMonotone(x, Ten(e + 1), DigitGrid(x), HalfUp);
  }

  lemma PowerOnDigitGrid(k: int, e: int)
    requires e <= k
    ensures RoundGrid(Ten(k), Ten(PRECISION - 1 - e), HalfUp) == Ten(k)
  {
    TenSum(-k, k);
    assert GridPoint(1, Ten(-k)) == Ten(k) by {
      assert Ten(0) == 1.0;
      ScaleCancels(Ten(k), Ten(-k));
    }
    FinerGrid(1, -k, PRECISION - 1 - e);
    RoundGridFixes(Ten(k), Ten(PRECISION - 1 - e), HalfUp);
  }

  lemma Round28MonotonePositive(x: real, y: real)
    requires 0.0 < x <= y
    ensures Round28(x) <= Round28(y)
  {
    var ex, ey := Exponent(x), Exponent(y);
    TenPositiveOrder(ex, ey + 1) by { assert Ten(ex) < Ten(ey + 1); }
    if ex == ey {
      RoundGridMonotone(x, y, DigitGrid(x), HalfUp);
    } else {
      Round28Bracket(x);
      Round28Bracket(y);
      TenMonotone(ex + 1, ey);
    }
  }

  lemma Round28Sign(x: real)
    ensures x >= 0.0 ==> Round28(x) >= 0.0
    ensures x <= 0.0 ==> Round28(x) <= 0.0
  {
    if x > 0.0 {
      Round28Bracket(x);
    } else if x < 0.0 {
      Round28Bracket(-x);
      Round28Odd(x);
    }
  }

  lemma Round28Monotone(x: real, y: real)
    requires x <= y
    ensures Round28(x) <= Round28(y)
  {
    hide *;
    if x > 0.0 {
      Round28MonotonePositive(x, y);
    } else if y < 0.0 {
      Round28MonotonePositive(-y, -x);
      Round28Odd(x);
      Round28Odd(y);
    } else {
      Round28Sign(x);
      Round28Sign(y);
    }
  }

  lemma Round28Idempotent(x: real)
    ensures Round28(Round28(x)) == Round28(x)
  {
    hide *;
    Round28Sign(0.0);
    if x > 0.0 {
      Round28IdempotentPositive(x);
    } else if x < 0.0 {
      Round28IdempotentPositive(-x);
      Round28Odd(x);
      Round28Odd(Round28(-x));
    }
  }

  /** The exponent is the only one that brackets the value. */
  lemma ExponentIs(x: real, e: int)
    requires x > 0.0 && Ten(e) <= x < Ten(e + 1)
    ensures Exponent(x) == e
  {
    var e' := Exponent(x);
    assert Ten(e') <= x < Ten(e' + 1);
    hide *;
    TenPositiveOrder(e', e + 1);
    TenPositiveOrder(e, e' + 1);
  }

  lemma DigitGridOf(x: real)
    requires x > 0.0
    ensures Round28(x) == RoundGrid(x, Ten(PRECISION - 1 - Exponent(x)), HalfUp)
  {
  }

  lemma Round28IdempotentPositive(x: real)
    requires x > 0.0
    ensures Round28(Round28(x)) == Round28(x)
  {
    var e := Exponent(x);
    var y := Round28(x);
    hide *;
    Round28Bracket(x);
    DigitGridOf(x);
    DigitGridOf(y);
    if y == Ten(e + 1) {
      TenStep(e + 1);
      ExponentIs(y, e + 1);
      PowerOnDigitGrid(e + 1, e + 1);
    } else {
      ExponentIs(y, e);
      RoundGridFixes(x, Ten(PRECISION - 1 - e), HalfUp);
    }
  }

  /** A power of ten is kept exactly. */
  lemma PowerIsExact(k: int)
    ensures Round28(Ten(k)) == Ten(k)
  {
    TenStep(k);
    ExponentIs(Ten(k), k);
    DigitGridOf(Ten(k));
    PowerOnDigitGrid(k, k);
  }

  /** The result is the value of 28 significant digits nearest to the exact one; of two as near, the one away from zero. */
  lemma Round28IsNearest(x: real, e: int)
    requires Ten(e) <= Abs(x) < Ten(e + 1)
    ensures OnGrid(Round28(x), Ten(27 - e)) && Abs(Round28(x) - x) <= 0.5 / Ten(27 - e)
    ensures Round28(x) == RoundGrid(x, Ten(27 - e), HalfUp)
  {
    ExponentIs(Abs(x), e);
    assert x != 0.0;
    RoundGridError(x, Ten(27 - e), HalfUp);
    RoundGridFixes(x, Ten(27 - e), HalfUp);
    hide Ten;
    hide RoundGrid;
  }

  /** Half a unit of the 28th digit, relative to the value. */
  const HALF_ULP: real := 0.5 * Ten(1 - PRECISION)

  lemma Round28Error(x: real)
    ensures Abs(Round28(x) - x) <= Times(Abs(x), HALF_ULP)
  {
    if x != 0.0 {
      var e := Exponent(Abs(x));
      var s := DigitGrid(x);
      RoundGridError(x, s, HalfUp);
      TenSum(PRECISION - 1 - e, e + (1 - PRECISION));
      TenSum(e, 1 - PRECISION);
      assert Ten(0) == 1.0;
      hide Ten;
      hide Times;
      assert Round28(x) == RoundGrid(x, s, HalfUp);
      hide Round28;
      hide RoundGrid;
      assert HALF_ULP == 0.5 * Ten(1 - PRECISION);
      RelativeError(Abs(Round28(x) - x), s, Ten(e), Ten(1 - PRECISION), Abs(x));
    }
  }

  lemma RelativeError(err: real, s: real, e: real, u: real, a: real)
    requires s > 0.0 && e > 0.0 && u > 0.0 && Times(s, Times(e, u)) == 1.0
    requires err <= 0.5 / s && e <= a
    ensures err <= Times(a, 0.5 * u)
  {
    ScaleCancels(0.5 * (e * u), s);
    assert 0.5 / s == 0.5 * (e * u) by {
      assert (0.5 * (e * u)) * s == 0.5 * (s * (e * u));
    }
    ScaleKeepsOrder(e, a, u);
  }
}
