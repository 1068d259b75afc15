/**
 * Pearson's correlation coefficient with the zero-denominator guard, and
 * the five strength bands used to describe it. The square root in the
 * denominator is kept symbolic: a coefficient is held as a numerator and
 * the square of its denominator.
 */
module Correlation {
  import opened Errors

  datatype Band = VeryStrong | Strong | Moderate | Weak | VeryWeak

  /** The strength band of an absolute coefficient `a`. */
  function BandOf(a: real): (b: Band)
    ensures b == VeryStrong <==> a >= 0.9
    ensures b == Strong <==> 0.7 <= a < 0.9
    ensures b == Moderate <==> 0.5 <= a < 0.7
    ensures b == Weak <==> 0.3 <= a < 0.5
    ensures b == VeryWeak <==> a < 0.3
  {
    if a >= 0.9 then VeryStrong
    else if a >= 0.7 then Strong
    else if a >= 0.5 then Moderate
    else if a >= 0.3 then Weak
    else VeryWeak
  }

  function Rank(b: Band): nat
  {
    match b
    case VeryWeak => 0
    case Weak => 1
    case Moderate => 2
    case Strong => 3
    case VeryStrong => 4
  }

  /** A larger coefficient never falls in a weaker band. */
  lemma BandMonotone(a: real, b: real)
    requires a <= b
    ensures Rank(BandOf(a)) <= Rank(BandOf(b))
  {
  }

  function BandWord(b: Band): string
  {
    match b
    case VeryStrong => "Very strong"
    case Strong => "Strong"
    case Moderate => "Moderate"
    case Weak => "Weak"
    case VeryWeak => "Very weak or no"
  }

  function Abs(x: real): real { if x < 0.0 then -x else x }

  /**
   * `interpret_correlation(r)`: strength, direction and a closing noun
   * ("relationship" in the visualizer script, "correlation" in the
   * correlation script). Zero counts as positive.
   */
  function Interpret(r: real, noun: string): string
  {
    BandWord(BandOf(Abs(r))) + " " + (if r >= 0.0 then "positive" else "negative") + " " + noun
  }

  /** Negating a coefficient flips only the direction word. */
  lemma InterpretNegated(r: real, noun: string)
    requires r > 0.0
    ensures Interpret(r, noun) == BandWord(BandOf(r)) + " positive " + noun
    ensures Interpret(-r, noun) == BandWord(BandOf(r)) + " negative " + noun
  {
  }

  function Sum(xs: seq<real>): real
  {
    if xs == [] then 0.0 else xs[0] + Sum(xs[1..])
  }

  function Dot(xs: seq<real>, ys: seq<real>): real
    requires |xs| == |ys|
  {
    if xs == [] then 0.0 else xs[0] * ys[0] + Dot(xs[1..], ys[1..])
  }

  function Mean(xs: seq<real>): real
  {
    if xs == [] then 0.0 else Sum(xs) / |xs| as real
  }

  /** `x - x.mean()` */
  function Deviations(xs: seq<real>): (d: seq<real>)
    ensures |d| == |xs|
  {
    var m := Mean(xs);
    seq(|xs|, i requires 0 <= i < |xs| => xs[i] - m)
  }

  /**
   * The number `calculate_correlation` returns: the exact zero of the
   * guard, or the coefficient `num / sqrt(den2)` with `den2 > 0`.
   */
  datatype Coefficient = Zero | Ratio(num: real, den2: real)

  /** The returned pair: the coefficient and its description. */
  datatype Pearson = Pearson(coef: Coefficient, text: string)

  const NoVariation := "No correlation (insufficient variation in data)"

  /** `interpret_correlation(num / sqrt(den2))`, decided without a square root. */
  function InterpretRatio(num: real, den2: real, noun: string): string
  {
    BandWord(BandOfSquares(num * num, den2)) + " " + (if num >= 0.0 then "positive" else "negative") + " " + noun
  }

  /** The band of `sqrt(a2 / den2)`, from the squared thresholds 0.81, 0.49, 0.25 and 0.09. */
  function BandOfSquares(a2: real, den2: real): Band
  {
    if a2 >= 0.81 * den2 then VeryStrong
    else if a2 >= 0.49 * den2 then Strong
    else if a2 >= 0.25 * den2 then Moderate
    else if a2 >= 0.09 * den2 then Weak
    else VeryWeak
  }

  lemma MulNonNegative(x: real, y: real)
    requires x >= 0.0 && y >= 0.0
    ensures x * y >= 0.0
  {
  }

  lemma MulPositive(x: real, y: real)
    requires x > 0.0 && y > 0.0
    ensures x * y > 0.0
  {
  }

  lemma SquareMonotone(a: real, b: real)
    requires 0.0 <= a && 0.0 <= b
    ensures a <= b <==> a * a <= b * b
  {
    if a <= b {
      MulNonNegative(a, b - a);
      MulNonNegative(b, b - a);
      assert a * b - a * a == a * (b - a);
      assert b * b - a * b == b * (b - a);
    } else {
      MulNonNegative(b, a - b);
      MulPositive(a, a - b);
      assert a * b - b * b == b * (a - b);
      assert a * a - a * b == a * (a - b);
    }
  }

  lemma ScaledCompare(x: real, t: real, d: real)
    requires d > 0.0
    ensures x * d >= t * d <==> x >= t
  {
    assert x * d - t * d == (x - t) * d;
    if x >= t {
      MulNonNegative(x - t, d);
    } else {
      MulPositive(t - x, d);
      assert t * d - x * d == (t - x) * d;
    }
  }

  lemma AbsDiv(num: real, s: real)
    requires s > 0.0
    ensures Abs(num / s) * s == Abs(num)
  {
  }

  lemma SquareOfAbs(x: real)
    ensures Abs(x) * Abs(x) == x * x
  {
  }

  lemma SquareOfProduct(a: real, b: real)
    ensures (a * b) * (a * b) == (a * a) * (b * b)
  {
  }

  /** One band boundary, compared without a square root. */
  lemma BoundaryBySquares(num: real, s: real, t: real, t2: real)
    requires s > 0.0 && t > 0.0 && t2 == t * t
    ensures num * num >= t2 * (s * s) <==> Abs(num / s) >= t
  {
    var a, big, ts := Abs(num / s), Abs(num), t * s;
    AbsDiv(num, s);
    MulPositive(t, s);
    ScaledCompare(a, t, s);
    SquareMonotone(ts, big);
    SquareOfAbs(num);
    SquareOfProduct(t, s);
  }

  lemma SignOfQuotient(num: real, s: real)
    requires s > 0.0
    ensures num >= 0.0 <==> num / s >= 0.0
  {
    var r := num / s;
    assert num == r * s;
    if r >= 0.0 {
      MulNonNegative(r, s);
    } else {
      MulPositive(-r, s);
    }
  }

  /**
   * With `s` the positive square root of `den2`, the square-free
   * interpretation is the interpretation of `num / s`.
   */
  lemma InterpretRatioExact(num: real, s: real, noun: string)
    requires s > 0.0
    ensures InterpretRatio(num, s * s, noun) == Interpret(num / s, noun)
  {
    BoundaryBySquares(num, s, 0.9, 0.81);
    BoundaryBySquares(num, s, 0.7, 0.49);
    BoundaryBySquares(num, s, 0.5, 0.25);
    BoundaryBySquares(num, s, 0.3, 0.09);
    assert BandOfSquares(num * num, s * s) == BandOf(Abs(num / s));
    SignOfQuotient(num, s);
  }

  const BroadcastError := Failure(ValueError, Plain("operands could not be broadcast together"))

  /**
   * The coefficient of `calculate_correlation(hydrograph, sensor)`. Arrays
   * of different lengths broadcast only when one of them has length 1; that
   * side then has no variation, so the guard fires.
   */
  function CoefficientOf(xs: seq<real>, ys: seq<real>): (r: Result<Coefficient>)
    ensures r.Err? <==> |xs| != |ys| && |xs| != 1 && |ys| != 1
    ensures r.Err? ==> r.error == BroadcastError
    ensures r.Ok? && r.value.Ratio? ==> |xs| == |ys| && r.value.den2 > 0.0
  {
    if |xs| != |ys| then
      if |xs| == 1 || |ys| == 1 then Ok(Zero) else Err(BroadcastError)
    else
      Ok(FromDeviations(Deviations(xs), Deviations(ys)))
  }

  /** The description returned beside a coefficient. */
  function Describe(c: Coefficient): string
  {
    match c
    case Zero => NoVariation
    case Ratio(num, den2) => InterpretRatio(num, den2, "correlation")
  }

  /** `calculate_correlation(hydrograph, sensor)`: the coefficient and its description. */
  function Calculate(xs: seq<real>, ys: seq<real>): (r: Result<Pearson>)
    ensures r.Ok? <==> CoefficientOf(xs, ys).Ok?
    ensures r.Err? ==> r.error == BroadcastError
    ensures r.Ok? ==> r.value.coef == CoefficientOf(xs, ys).value
    ensures r.Ok? && r.value.coef.Zero? ==> r.value.text == NoVariation
    ensures r.Ok? && r.value.coef.Ratio? ==> r.value.text == InterpretRatio(r.value.coef.num, r.value.coef.den2, "correlation")
  {
    match CoefficientOf(xs, ys)
    case Err(e) => Err(e)
    case Ok(c) => Ok(Pearson(c, Describe(c)))
  }

  /** The guarded coefficient of two deviation vectors of equal length. */
  function FromDeviations(dx: seq<real>, dy: seq<real>): (c: Coefficient)
    requires |dx| == |dy|
    ensures c.Ratio? ==> c.den2 > 0.0
  {
    DotSelfNonNegative(dx);
    DotSelfNonNegative(dy);
    MulNonNegative(Dot(dx, dx), Dot(dy, dy));
    FromDots(Dot(dx, dy), Dot(dx, dx), Dot(dy, dy))
  }

  /** The guard on `sqrt(sxx * syy)`, from the three sums of products. */
  function FromDots(num: real, sxx: real, syy: real): Coefficient
  {
    var den2 := sxx * syy;
    if den2 == 0.0 then Zero else Ratio(num, den2)
  }

  lemma {:induction false} DotSelfNonNegative(xs: seq<real>)
    ensures Dot(xs, xs) >= 0.0
  {
    if xs != [] {
      DotSelfNonNegative(xs[1..]);
    }
  }

  lemma {:induction false} DotSelfZero(xs: seq<real>, ys: seq<real>)
    requires |xs| == |ys| && Dot(xs, xs) == 0.0
    ensures Dot(xs, ys) == 0.0
  {
    if xs != [] {
      DotSelfNonNegative(xs[1..]);
      var x := xs[0];
      MulNonNegative(if x >= 0.0 then x else -x, if x >= 0.0 then x else -x);
      assert x * x == (if x >= 0.0 then x else -x) * (if x >= 0.0 then x else -x);
      assert x * x == 0.0;
      if x > 0.0 {
        MulPositive(x, x);
      } else if x < 0.0 {
        MulPositive(-x, -x);
        assert (-x) * (-x) == x * x;
      }
      DotSelfZero(xs[1..], ys[1..]);
    }
  }

  function Combine(p: real, q: real, xs: seq<real>, ys: seq<real>): (z: seq<real>)
    requires |xs| == |ys|
    ensures |z| == |xs|
  {
    seq(|xs|, i requires 0 <= i < |xs| => p * ys[i] - q * xs[i])
  }

  /** `a * b` as a function symbol, so that equal factors give equal products. */
  function Mul(a: real, b: real): real { a * b }

  /** One step of the expansion: the head term added to the expanded tail. */
  lemma ExpandStep(p: real, q: real, x: real, y: real, h: real,
                   a: real, b: real, c: real, t: real, a1: real, b1: real, c1: real, t1: real)
    requires h == p * y - q * x
    requires t == Mul(p * p, b) - Mul(2.0 * p * q, c) + Mul(q * q, a)
    requires a1 == x * x + a && b1 == y * y + b && c1 == x * y + c && t1 == h * h + t
    ensures t1 == Mul(p * p, b1) - Mul(2.0 * p * q, c1) + Mul(q * q, a1)
  {
  }

  /** The expansion behind Cauchy–Schwarz: |p·y − q·x|² = p²·|y|² − 2pq·(x·y) + q²·|x|². */
  lemma {:induction false} CombineExpansion(p: real, q: real, xs: seq<real>, ys: seq<real>)
    requires |xs| == |ys|
    ensures Dot(Combine(p, q, xs, ys), Combine(p, q, xs, ys))
         == Mul(p * p, Dot(ys, ys)) - Mul(2.0 * p * q, Dot(xs, ys)) + Mul(q * q, Dot(xs, xs))
  {
    if xs != [] {
      var z, z' := Combine(p, q, xs, ys), Combine(p, q, xs[1..], ys[1..]);
      assert z[1..] == z' by {
        forall i | 0 <= i < |z'| ensures z[1..][i] == z'[i] { }
      }
      CombineExpansion(p, q, xs[1..], ys[1..]);
      ExpandStep(p, q, xs[0], ys[0], z[0],
                 Dot(xs[1..], xs[1..]), Dot(ys[1..], ys[1..]), Dot(xs[1..], ys[1..]), Dot(z', z'),
                 Dot(xs, xs), Dot(ys, ys), Dot(xs, ys), Dot(z, z));
    }
  }

  /** Cauchy–Schwarz: (x·y)² ≤ |x|²·|y|². */
  lemma CauchySchwarz(xs: seq<real>, ys: seq<real>)
    requires |xs| == |ys|
    ensures Dot(xs, ys) * Dot(xs, ys) <= Dot(xs, xs) * Dot(ys, ys)
  {
    var a, b, c := Dot(xs, xs), Dot(ys, ys), Dot(xs, ys);
    DotSelfNonNegative(xs);
    DotSelfNonNegative(ys);
    if a == 0.0 {
      DotSelfZero(xs, ys);
    } else {
      var z := Combine(a, c, xs, ys);
      CombineExpansion(a, c, xs, ys);
      DotSelfNonNegative(z);
      assert a * (a * b - c * c) >= 0.0 by {
        assert Dot(z, z) == Mul(a * a, b) - Mul(2.0 * a * c, c) + Mul(c * c, a);
      }
      assert a * b - c * c >= 0.0;
    }
  }

  /** The coefficient lies in [-1, 1], stated squared: num² ≤ den2. */
  predicate InUnitRange(c: Coefficient)
  {
    c.Ratio? ==> c.num * c.num <= c.den2
  }

  /** A computed coefficient lies in [-1, 1]. */
  lemma CoefficientBounded(xs: seq<real>, ys: seq<real>)
    requires CoefficientOf(xs, ys).Ok?
    ensures InUnitRange(CoefficientOf(xs, ys).value)
  {
    if |xs| == |ys| {
      DeviationsBounded(Deviations(xs), Deviations(ys));
    }
  }

  lemma DeviationsBounded(dx: seq<real>, dy: seq<real>)
    requires |dx| == |dy|
    ensures InUnitRange(FromDeviations(dx, dy))
  {
    CauchySchwarz(dx, dy);
    BoundFromDots(Dot(dx, dy), Dot(dx, dx), Dot(dy, dy));
  }

  lemma BoundFromDots(num: real, sxx: real, syy: real)
    requires num * num <= sxx * syy
    ensures InUnitRange(FromDots(num, sxx, syy))
  {
  }

  /**
   * With `s` the positive square root of `den2`, the returned description
   * is `interpret_correlation(num / s)`.
   */
  lemma DescriptionIsInterpretation(xs: seq<real>, ys: seq<real>, s: real)
    requires Calculate(xs, ys).Ok? && Calculate(xs, ys).value.coef.Ratio?
    requires s > 0.0 && s * s == Calculate(xs, ys).value.coef.den2
    ensures Calculate(xs, ys).value.text == Interpret(Calculate(xs, ys).value.coef.num / s, "correlation")
  {
    InterpretRatioExact(Calculate(xs, ys).value.coef.num, s, "correlation");
  }

  /** A constant series has no variation, so the guard returns exactly zero. */
  lemma ConstantSeriesIsZero(xs: seq<real>, ys: seq<real>)
    requires |xs| == |ys| && xs != []
    requires forall i :: 0 <= i < |xs| ==> xs[i] == xs[0]
    ensures Calculate(xs, ys) == Ok(Pearson(Zero, NoVariation))
  {
    SumConstant(xs);
    var dx := Deviations(xs);
    forall i | 0 <= i < |dx| ensures dx[i] == 0.0 { }
    DotZeros(dx);
  }

  lemma {:induction false} SumConstant(xs: seq<real>)
    requires xs != [] && forall i :: 0 <= i < |xs| ==> xs[i] == xs[0]
    ensures Sum(xs) == |xs| as real * xs[0]
  {
    if |xs| > 1 {
      SumConstant(xs[1..]);
    }
  }

  lemma {:induction false} DotZeros(xs: seq<real>)
    requires forall i :: 0 <= i < |xs| ==> xs[i] == 0.0
    ensures Dot(xs, xs) == 0.0
  {
    if xs != [] {
      DotZeros(xs[1..]);
    }
  }

  /**
   * The documented example: [1..5] against [2, 4, 6, 8, 10] gives the
   * numerator 20 over the square root of 400.
   */
  lemma DocumentedExample()
    ensures Calculate([1.0, 2.0, 3.0, 4.0, 5.0], [2.0, 4.0, 6.0, 8.0, 10.0])
         == Ok(Pearson(Ratio(20.0, 400.0), "Very strong positive correlation"))
  {
    DocumentedDeviations();
    DocumentedFromDeviations();
  }

  lemma DocumentedDeviations()
    ensures Deviations([1.0, 2.0, 3.0, 4.0, 5.0]) == [-2.0, -1.0, 0.0, 1.0, 2.0]
    ensures Deviations([2.0, 4.0, 6.0, 8.0, 10.0]) == [-4.0, -2.0, 0.0, 2.0, 4.0]
  {
    SumOfFive([1.0, 2.0, 3.0, 4.0, 5.0]);
    SumOfFive([2.0, 4.0, 6.0, 8.0, 10.0]);
  }

  lemma DocumentedFromDeviations()
    ensures FromDeviations([-2.0, -1.0, 0.0, 1.0, 2.0], [-4.0, -2.0, 0.0, 2.0, 4.0]) == Ratio(20.0, 400.0)
    ensures Describe(Ratio(20.0, 400.0)) == "Very strong positive correlation"
  {
    DocumentedDots();
    DocumentedText();
  }

  lemma DocumentedDots()
    ensures var dx, dy := [-2.0, -1.0, 0.0, 1.0, 2.0], [-4.0, -2.0, 0.0, 2.0, 4.0];
      Dot(dx, dy) == 20.0 && Dot(dx, dx) == 10.0 && Dot(dy, dy) == 40.0
  {
    var dx, dy := [-2.0, -1.0, 0.0, 1.0, 2.0], [-4.0, -2.0, 0.0, 2.0, 4.0];
    DotOfFive(dx, dy);
    DotOfFive(dx, dx);
    DotOfFive(dy, dy);
  }

  lemma DocumentedText()
    ensures InterpretRatio(20.0, 400.0, "correlation") == "Very strong positive correlation"
  {
    assert BandOfSquares(20.0 * 20.0, 400.0) == VeryStrong;
  }

  lemma SumOfFive(xs: seq<real>)
    requires |xs| == 5
    ensures Sum(xs) == xs[0] + xs[1] + xs[2] + xs[3] + xs[4]
  {
    assert Sum(xs[4..]) == xs[4] + Sum(xs[5..]);
    assert Sum(xs[3..]) == xs[3] + Sum(xs[4..]);
    assert Sum(xs[2..]) == xs[2] + Sum(xs[3..]);
    assert Sum(xs[1..]) == xs[1] + Sum(xs[2..]);
  }

  lemma DotOfFive(xs: seq<real>, ys: seq<real>)
    requires |xs| == 5 && |ys| == 5
    ensures Dot(xs, ys) == xs[0] * ys[0] + xs[1] * ys[1] + xs[2] * ys[2] + xs[3] * ys[3] + xs[4] * ys[4]
  {
    assert Dot(xs[4..], ys[4..]) == xs[4] * ys[4] + Dot(xs[5..], ys[5..]);
    assert Dot(xs[3..], ys[3..]) == xs[3] * ys[3] + Dot(xs[4..], ys[4..]);
    assert Dot(xs[2..], ys[2..]) == xs[2] * ys[2] + Dot(xs[3..], ys[3..]);
    assert Dot(xs[1..], ys[1..]) == xs[1] * ys[1] + Dot(xs[2..], ys[2..]);
  }

  /** The square root of 400 is 20, so the documented coefficient is exactly 1. */
  lemma DocumentedCoefficientIsOne(s: real)
    requires s > 0.0 && s * s == 400.0
    ensures 20.0 / s == 1.0
  {
    SquareMonotone(s, 20.0);
    SquareMonotone(20.0, s);
  }

  /** Lengths that do not broadcast raise `ValueError`. */
  lemma MismatchedLengthsFail()
    ensures Calculate([1.0, 2.0], [1.0, 2.0, 3.0]) == Err(BroadcastError)
  {
  }
}
