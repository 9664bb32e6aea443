/**
 * Judging an experiment's counts, over exact reals: the 95 % Wilson score
 * interval and the pooled two-proportion z-test.
 *
 * The square root and the normal distribution function come in as a `Maths`
 * value; of the root only `root(v) >= 0` and `root(v) * root(v) == v` is used.
 */
module Statistics {
  import opened FlagTypes

  const ALPHA: real := 0.05
  const Z_95: real := 1.959963984540054

  datatype Maths = Maths(root: real -> real, phi: real -> real)

  datatype VariantCounts = VariantCounts(variant: string, exposures: nat, conversions: nat)

  datatype ConfidenceInterval = ConfidenceInterval(low: real, high: real)

  datatype Comparison = Comparison(lift: real, z: real, pValue: real, significant: bool)

  datatype VariantResult = VariantResult(
    variant: string, exposures: nat, conversions: nat,
    rate: Option<real>, interval: Option<ConfidenceInterval>, vsControl: Option<Comparison>)

  /** Conversions and exposures of an arm, as reals. */
  datatype Arm = Arm(x: real, n: real)

  ghost predicate RootAt(m: Maths, v: real) {
    m.root(v) >= 0.0 && m.root(v) * m.root(v) == v
  }

  ghost predicate TakesRoots(m: Maths) {
    forall v | v >= 0.0 :: RootAt(m, v)
  }

  predicate Proper(a: Arm) { a.n >= 1.0 && 0.0 <= a.x <= a.n }

  function Clamp(v: real, lo: real, hi: real): real {
    if v < lo then lo else if v > hi then hi else v
  }

  function Abs(v: real): real { if v < 0.0 then -v else v }

  // ------------------------------------------------------------ operations --

  function Observed(c: VariantCounts): (r: Option<Arm>)
    ensures r.Some? <==> c.exposures > 0
    ensures r.Some? ==> Proper(r.value)
  {
    if c.exposures > 0 then
      Some(Arm((if c.conversions < c.exposures then c.conversions else c.exposures) as real, c.exposures as real))
    else None
  }

  function Center(rate: real, n: real): real
    requires n >= 1.0
  {
    var z2 := Z_95 * Z_95;
    (rate + z2 / (2.0 * n)) / (1.0 + z2 / n)
  }

  function Spread(rate: real, n: real): real
    requires n >= 1.0
  {
    var z2 := Z_95 * Z_95;
    rate * (1.0 - rate) / n + z2 / (4.0 * n * n)
  }

  function HalfWidth(m: Maths, rate: real, n: real): real
    requires n >= 1.0
  {
    Z_95 / (1.0 + Z_95 * Z_95 / n) * m.root(Spread(rate, n))
  }

  function Wilson(m: Maths, rate: real, n: real): ConfidenceInterval
    requires n >= 1.0
  {
    var center, halfWidth := Center(rate, n), HalfWidth(m, rate, n);
    ConfidenceInterval(Clamp(center - halfWidth, 0.0, rate), Clamp(center + halfWidth, rate, 1.0))
  }

  function Pooled(own: Arm, control: Arm): real
    requires own.n >= 1.0 && control.n >= 1.0
  {
    (own.x + control.x) / (own.n + control.n)
  }

  function Variance(own: Arm, control: Arm): real
    requires own.n >= 1.0 && control.n >= 1.0
  {
    var pooled := Pooled(own, control);
    pooled * (1.0 - pooled) * (1.0 / own.n + 1.0 / control.n)
  }

  lemma RootPositive(m: Maths, v: real)
    requires TakesRoots(m) && v > 0.0
    ensures m.root(v) > 0.0 && m.root(v) * m.root(v) == v
  {
    assert RootAt(m, v);
  }

  /** The verdict on a difference in rates with a given variance. */
  function Compare(m: Maths, lift: real, variance: real): Option<Comparison>
    requires TakesRoots(m)
  {
    if variance <= 0.0 then None
    else
      RootPositive(m, variance);
      var z := lift / m.root(variance);
      var pValue := 2.0 * (1.0 - m.phi(Abs(z)));
      Some(Comparison(lift, z, pValue, pValue < ALPHA))
  }

  function Lift(own: Arm, control: Arm): real
    requires own.n >= 1.0 && control.n >= 1.0
  {
    own.x / own.n - control.x / control.n
  }

  function TwoProportionZ(m: Maths, own: Arm, control: Arm): Option<Comparison>
    requires TakesRoots(m) && own.n >= 1.0 && control.n >= 1.0
  {
    Compare(m, Lift(own, control), Variance(own, control))
  }

  /** The first entry for the control variant decides what everybody is compared with. */
  function ControlArm(control: string, counts: seq<VariantCounts>): Option<Arm> {
    if counts == [] then None
    else if counts[0].variant == control then Observed(counts[0])
    else ControlArm(control, counts[1..])
  }

  function Judge(m: Maths, control: string, base: Option<Arm>, c: VariantCounts): VariantResult
    requires TakesRoots(m) && (base.Some? ==> Proper(base.value))
  {
    var own := Observed(c);
    VariantResult(
      c.variant, c.exposures, c.conversions,
      if own.Some? then Some(own.value.x / own.value.n) else None,
      if own.Some? then Some(Wilson(m, own.value.x / own.value.n, own.value.n)) else None,
      if c.variant != control && own.Some? && base.Some? then TwoProportionZ(m, own.value, base.value) else None)
  }

  lemma ControlIsProper(control: string, counts: seq<VariantCounts>)
    ensures ControlArm(control, counts).Some? ==> Proper(ControlArm(control, counts).value)
  {
  }

  function Results(m: Maths, control: string, counts: seq<VariantCounts>): seq<VariantResult>
    requires TakesRoots(m)
  {
    ControlIsProper(control, counts);
    seq(|counts|, i requires 0 <= i < |counts| => Judge(m, control, ControlArm(control, counts), counts[i]))
  }

  // ---------------------------------------------------- the Wilson interval --

  /** A number whose square is at most that of a nonnegative h is at most h. */
  lemma BelowRoot(x: real, h: real)
    requires h >= 0.0 && x * x <= h * h
    ensures -h <= x <= h
  {
    Squares(x, h);
    Squares(-x, h);
  }

  lemma Squares(x: real, h: real)
    requires h >= 0.0
    ensures x > h ==> x * x > h * h
  {
    if x > h {
      Products(x - h, x + h);
      DifferenceOfSquares(x, h);
    }
  }

  lemma DifferenceOfSquares(x: real, h: real)
    ensures (x - h) * (x + h) == x * x - h * h
  {
  }

  lemma Products(x: real, y: real)
    requires x >= 0.0 && y >= 0.0
    ensures x * y >= 0.0
    ensures x > 0.0 && y > 0.0 ==> x * y > 0.0
  {
  }

  /** ... and the other way round. */
  lemma SquareBelow(x: real, h: real)
    requires h >= 0.0 && -h <= x <= h
    ensures x * x <= h * h
  {
    Products(h - x, h + x);
    DifferenceOfSquares(h, x);
  }

  /** The four comparisons behind the clamps, with a = z2/n and h the half-width times 1 + a. */
  lemma FourBounds(p: real, a: real, h: real)
    requires 0.0 <= p <= 1.0 && a > 0.0 && h >= 0.0
    requires h * h == a * (p * (1.0 - p)) + a * a / 4.0
    ensures h <= p + a / 2.0 && h <= 1.0 - p + a / 2.0
    ensures -h <= a / 2.0 - a * p <= h
  {
    var v := p * (1.0 - p);
    Products(p, 1.0 - p);
    Below(h, p + a / 2.0, a, p);
    Below(h, 1.0 - p + a / 2.0, a, 1.0 - p);
    var x := a / 2.0 - a * p;
    assert x * x == a * a / 4.0 - a * a * v by { Quarter(a, p); }
    Products(a, v);
    Products(a, a);
    Products(a * a, v);
    BelowRoot(x, h);
  }

  lemma Quarter(a: real, p: real)
    ensures (a / 2.0 - a * p) * (a / 2.0 - a * p) == a * a / 4.0 - a * a * (p * (1.0 - p))
  {
  }

  lemma Below(h: real, y: real, a: real, p: real)
    requires 0.0 <= p <= 1.0 && a > 0.0 && h >= 0.0 && y == p + a / 2.0
    requires h * h == a * (p * (1.0 - p)) + a * a / 4.0
    ensures h <= y
  {
    assert y * y == p * p + a * p + a * a / 4.0;
    assert a * (p * (1.0 - p)) == a * p - a * (p * p);
    Products(p, p);
    Products(a, p * p);
    BelowRoot(h, y);
  }

  /** The half-width times 1 + z2/n, and the equation that determines it. */
  lemma HalfWidthEquation(m: Maths, p: real, n: real) returns (a: real, h: real)
    requires TakesRoots(m) && n >= 1.0 && 0.0 <= p <= 1.0
    ensures a == Z_95 * Z_95 / n && a > 0.0 && h >= 0.0
    ensures h * h == a * (p * (1.0 - p)) + a * a / 4.0
    ensures HalfWidth(m, p, n) == h / (1.0 + a) && Center(p, n) == (p + a / 2.0) / (1.0 + a)
  {
    var z2 := Z_95 * Z_95;
    a := z2 / n;
    var root := m.root(Spread(p, n));
    h := Z_95 * root;
    SpreadForm(p, n, z2, a);
    assert RootAt(m, Spread(p, n));
    assert h * h == z2 * (root * root);
    Quotient(Z_95, 1.0 + a, root);
    HalfQuotient(z2, n);
  }

  lemma HalfQuotient(z2: real, n: real)
    requires n >= 1.0
    ensures z2 / (2.0 * n) == z2 / n / 2.0
  {
    var a := z2 / n;
    assert a * n == z2;
    assert (a / 2.0) * (2.0 * n) == z2;
  }

  lemma Quotient(z: real, d: real, root: real)
    requires d > 0.0
    ensures z / d * root == (z * root) / d
  {
    var q := z / d;
    assert q * d == z;
    assert (q * root) * d == z * root;
  }

  lemma SpreadForm(p: real, n: real, z2: real, a: real)
    requires n >= 1.0 && 0.0 <= p <= 1.0 && z2 > 0.0 && z2 == Z_95 * Z_95 && a == z2 / n
    ensures a > 0.0 && Spread(p, n) >= 0.0
    ensures z2 * Spread(p, n) == a * (p * (1.0 - p)) + a * a / 4.0
  {
    var v := p * (1.0 - p);
    Products(p, 1.0 - p);
    PositiveQuotient(z2, n);
    PositiveQuotient(v, n);
    PositiveQuotient(z2, 4.0 * n * n);
    var q, r := v / n, z2 / (4.0 * n * n);
    assert z2 * q == a * v by {
      assert a * n == z2 && q * n == v;
      assert z2 * q == a * (n * q);
    }
    assert z2 * r == a * a / 4.0 by {
      assert a * n == z2 && r * (4.0 * n * n) == z2;
      QuarterSquare(a, n, r);
    }
  }

  lemma QuarterSquare(a: real, n: real, r: real)
    requires n >= 1.0 && r * (4.0 * n * n) == a * n
    ensures (a * n) * r == a * a / 4.0
  {
    assert (r * 4.0 * n - a) * n == 0.0;
    assert r * 4.0 * n == a;
    assert (a * n) * r * 4.0 == a * (r * 4.0 * n);
  }

  lemma PositiveQuotient(x: real, y: real)
    requires x >= 0.0 && y > 0.0
    ensures x / y >= 0.0 && (x > 0.0 ==> x / y > 0.0)
  {
    var q := x / y;
    assert q * y == x;
    SignOfProduct(q, y);
  }

  lemma DivideBounds(x: real, d: real, lo: real, hi: real)
    requires d > 0.0
    ensures lo <= x / d <==> lo * d <= x
    ensures x / d <= hi <==> x <= hi * d
  {
    var q := x / d;
    assert q * d == x;
    assert (q - lo) * d == x - lo * d && (hi - q) * d == hi * d - x;
    SignOfProduct(q - lo, d);
    SignOfProduct(hi - q, d);
  }

  lemma SignOfProduct(x: real, d: real)
    requires d > 0.0
    ensures x * d >= 0.0 <==> x >= 0.0
  {
    if x >= 0.0 {
      Products(x, d);
    } else {
      Products(-x, d);
      assert (-x) * d == -(x * d);
    }
  }

  /**
   * Both clamps are no-ops in exact arithmetic: the interval is the center plus
   * and minus the half-width, it contains the observed rate, and it lies in [0, 1].
   */
  lemma ClampsAreNoOps(m: Maths, rate: real, n: real)
    requires TakesRoots(m) && n >= 1.0 && 0.0 <= rate <= 1.0
    ensures
      var i := Wilson(m, rate, n);
      && i.low == Center(rate, n) - HalfWidth(m, rate, n)
      && i.high == Center(rate, n) + HalfWidth(m, rate, n)
      && 0.0 <= i.low <= rate <= i.high <= 1.0
  {
    var a, h := HalfWidthEquation(m, rate, n);
    FourBounds(rate, a, h);
    EndPoints(rate, a, h, Center(rate, n), HalfWidth(m, rate, n));
  }

  lemma EndPoints(p: real, a: real, h: real, center: real, half: real)
    requires a > 0.0 && center == (p + a / 2.0) / (1.0 + a) && half == h / (1.0 + a)
    requires h <= p + a / 2.0 && h <= 1.0 - p + a / 2.0 && -h <= a / 2.0 - a * p <= h
    ensures 0.0 <= center - half <= p <= center + half <= 1.0
  {
    var d := 1.0 + a;
    Combine(p + a / 2.0, h, d);
    DivideBounds(p + a / 2.0 - h, d, 0.0, p);
    DivideBounds(p + a / 2.0 + h, d, p, 1.0);
    assert p * d == p + a * p;
  }

  lemma Combine(x: real, y: real, d: real)
    requires d > 0.0
    ensures x / d - y / d == (x - y) / d && x / d + y / d == (x + y) / d
  {
    var q, r := x / d, y / d;
    assert q * d == x && r * d == y;
    assert (q - r) * d == x - y && (q + r) * d == x + y;
  }

  /**
   * What the interval is: exactly the rates the score test does not reject,
   * those x whose squared distance from the observed rate is at most z2 times
   * the variance x(1-x)/n of a sample mean under x.
   */
  lemma IntervalInvertsScoreTest(m: Maths, rate: real, n: real, x: real)
    requires TakesRoots(m) && n >= 1.0 && 0.0 <= rate <= 1.0
    ensures
      var i := Wilson(m, rate, n);
      i.low <= x <= i.high <==> (rate - x) * (rate - x) <= Z_95 * Z_95 / n * (x * (1.0 - x))
  {
    ClampsAreNoOps(m, rate, n);
    var a, h := HalfWidthEquation(m, rate, n);
    ScoreForm(rate, a, h, x, Center(rate, n), HalfWidth(m, rate, n));
  }

  lemma ScoreForm(p: real, a: real, h: real, x: real, center: real, half: real)
    requires a > 0.0 && h >= 0.0 && h * h == a * (p * (1.0 - p)) + a * a / 4.0
    requires center == (p + a / 2.0) / (1.0 + a) && half == h / (1.0 + a)
    ensures center - half <= x <= center + half <==> (p - x) * (p - x) <= a * (x * (1.0 - x))
  {
    var d := 1.0 + a;
    var y := x * d - (p + a / 2.0);
    var e := (p - x) * (p - x) - a * (x * (1.0 - x));
    Combine(p + a / 2.0, h, d);
    DivideBounds(p + a / 2.0 - h, d, 0.0, x);
    DivideBounds(p + a / 2.0 + h, d, x, 1.0);
    assert center - half <= x <= center + half <==> -h <= y <= h;
    ScoreIdentity(p, a, h, x);
    WithinIff(y, h);
    SignOfProduct(-e, d);
    assert d * e == -((-e) * d);
  }

  lemma WithinIff(y: real, h: real)
    requires h >= 0.0
    ensures -h <= y <= h <==> y * y <= h * h
  {
    if -h <= y <= h {
      SquareBelow(y, h);
    }
    if y * y <= h * h {
      BelowRoot(y, h);
    }
  }

  lemma ScoreIdentity(p: real, a: real, h: real, x: real)
    requires h * h == a * (p * (1.0 - p)) + a * a / 4.0
    ensures
      var y := x * (1.0 + a) - (p + a / 2.0);
      y * y - h * h == (1.0 + a) * ((p - x) * (p - x) - a * (x * (1.0 - x)))
  {
  }

  // ------------------------------------------------------------- the z-test --

  /** Pooling across both arms, nobody or everybody converted. */
  predicate Degenerate(own: Arm, control: Arm) {
    own.x + control.x == 0.0 || own.x + control.x == own.n + control.n
  }

  lemma VarianceSign(own: Arm, control: Arm)
    requires Proper(own) && Proper(control)
    ensures Variance(own, control) >= 0.0
    ensures Variance(own, control) == 0.0 <==> Degenerate(own, control)
  {
    var x, n := own.x + control.x, own.n + control.n;
    var pooled := Pooled(own, control);
    assert pooled * n == x && (1.0 - pooled) * n == n - x;
    SignOfProduct(pooled, n);
    SignOfProduct(1.0 - pooled, n);
    PositiveQuotient(1.0, own.n);
    PositiveQuotient(1.0, control.n);
    var w := 1.0 / own.n + 1.0 / control.n;
    ThreeFactors(pooled, 1.0 - pooled, w);
  }

  lemma ThreeFactors(x: real, y: real, w: real)
    requires x >= 0.0 && y >= 0.0 && w > 0.0
    ensures x * y * w >= 0.0
    ensures x * y * w == 0.0 <==> x == 0.0 || y == 0.0
  {
    Products(x, y);
    Products(x * y, w);
  }

  /** The comparison between two exposed arms is absent exactly when nobody or everybody converted. */
  lemma ComparisonAbsentIff(m: Maths, own: Arm, control: Arm)
    requires TakesRoots(m) && Proper(own) && Proper(control)
    ensures TwoProportionZ(m, own, control).None? <==> Degenerate(own, control)
  {
    VarianceSign(own, control);
  }

  /** z has the sign of the lift, and its square times the variance is the lift squared. */
  ghost predicate Standardizes(z: real, lift: real, variance: real) {
    && z * z * variance == lift * lift
    && (z > 0.0 <==> lift > 0.0) && (z < 0.0 <==> lift < 0.0)
  }

  /** The statistic of every comparison that is present. */
  lemma CompareMeaning(m: Maths, lift: real, variance: real)
    requires TakesRoots(m) && variance > 0.0
    ensures Compare(m, lift, variance).value.lift == lift
    ensures Standardizes(Compare(m, lift, variance).value.z, lift, variance)
  {
    RootPositive(m, variance);
    StudentizedLift(lift, m.root(variance), lift / m.root(variance), variance);
  }

  lemma StudentizedLift(lift: real, s: real, z: real, variance: real)
    requires s > 0.0 && s * s == variance && z == lift / s
    ensures z * z * variance == lift * lift
    ensures (z > 0.0 <==> lift > 0.0) && (z < 0.0 <==> lift < 0.0)
  {
    assert z * s == lift;
    assert z * z * (s * s) == (z * s) * (z * s);
    SignOfProduct(z, s);
    SignOfProduct(-z, s);
  }

  /** The lift is positive exactly when the arm converted a larger share than the control. */
  lemma CrossMultiply(own: Arm, control: Arm)
    requires own.n >= 1.0 && control.n >= 1.0
    ensures Lift(own, control) > 0.0 <==> own.x * control.n > control.x * own.n
  {
    var q, r := own.x / own.n, control.x / control.n;
    var w := own.n * control.n;
    assert q * own.n == own.x && r * control.n == control.x;
    Products(own.n, control.n);
    assert own.x * control.n - control.x * own.n == (q - r) * w;
    SignOfProduct(r - q, w);
  }

  /** Swapping the arms negates lift and z and leaves the verdict as it was. */
  lemma SwapNegates(m: Maths, own: Arm, control: Arm)
    requires TakesRoots(m) && Proper(own) && Proper(control)
    ensures
      var there, back := TwoProportionZ(m, own, control), TwoProportionZ(m, control, own);
      && (there.None? <==> back.None?)
      && (there.Some? ==>
        && back.value.lift == -there.value.lift && back.value.z == -there.value.z
        && back.value.pValue == there.value.pValue && back.value.significant == there.value.significant)
  {
    VarianceSymmetric(own, control);
    CompareNegated(m, Lift(own, control), Variance(own, control));
  }

  lemma VarianceSymmetric(own: Arm, control: Arm)
    requires own.n >= 1.0 && control.n >= 1.0
    ensures Variance(own, control) == Variance(control, own) && Lift(control, own) == -Lift(own, control)
  {
    assert Pooled(own, control) == Pooled(control, own);
  }

  lemma CompareNegated(m: Maths, lift: real, variance: real)
    requires TakesRoots(m)
    ensures
      var there, back := Compare(m, lift, variance), Compare(m, -lift, variance);
      && (there.None? <==> back.None?)
      && (there.Some? ==>
        && there.value.lift == lift && back.value.lift == -lift && back.value.z == -there.value.z
        && back.value.pValue == there.value.pValue && back.value.significant == there.value.significant)
  {
    if variance > 0.0 {
      RootPositive(m, variance);
      NegatedQuotient(lift, m.root(variance));
    }
  }

  lemma NegatedQuotient(x: real, s: real)
    requires s != 0.0
    ensures (-x) / s == -(x / s) && Abs((-x) / s) == Abs(x / s)
  {
    var q := x / s;
    assert q * s == x && (-q) * s == -x;
  }

  // ------------------------------------------------------------ the results --

  lemma {:induction false} FirstControl(control: string, counts: seq<VariantCounts>, k: nat)
    requires k < |counts| && counts[k].variant == control
    requires forall j :: 0 <= j < k ==> counts[j].variant != control
    ensures ControlArm(control, counts) == Observed(counts[k])
  {
    if k > 0 {
      FirstControl(control, counts[1..], k - 1);
    }
  }

  lemma {:induction false} NoControl(control: string, counts: seq<VariantCounts>)
    requires forall j :: 0 <= j < |counts| ==> counts[j].variant != control
    ensures ControlArm(control, counts) == None
  {
    if counts != [] {
      NoControl(control, counts[1..]);
    }
  }

  /** Entry k is the control everybody else is compared with. */
  predicate IsBaseline(control: string, counts: seq<VariantCounts>, k: nat) {
    && k < |counts| && counts[k].variant == control && counts[k].exposures > 0
    && forall j :: 0 <= j < k ==> counts[j].variant != control
  }

  /**
   * Row by row: raw counts are reported, a rate and an interval around it are
   * present exactly for exposed variants, and a comparison exactly for a variant
   * other than the control, both exposed, with a converted and an unconverted
   * exposure somewhere between them.
   */
  lemma ResultsMeaning(m: Maths, control: string, counts: seq<VariantCounts>, i: nat)
    requires TakesRoots(m) && i < |counts|
    ensures
      var c, r := counts[i], Results(m, control, counts)[i];
      && |Results(m, control, counts)| == |counts|
      && r.variant == c.variant && r.exposures == c.exposures && r.conversions == c.conversions
      && (r.rate.Some? <==> c.exposures > 0) && (r.interval.Some? <==> c.exposures > 0)
      && (c.exposures > 0 ==> 0.0 <= r.interval.value.low <= r.rate.value <= r.interval.value.high <= 1.0)
      && (r.vsControl.Some? <==>
           && c.variant != control && c.exposures > 0
           && (exists k: nat :: IsBaseline(control, counts, k) && !Degenerate(Observed(c).value, Observed(counts[k]).value)))
  {
    var c := counts[i];
    if c.exposures > 0 {
      var own := Observed(c).value;
      RateInUnit(own);
      ClampsAreNoOps(m, own.x / own.n, own.n);
      ControlCases(m, control, counts, c);
    }
    ControlIsProper(control, counts);
  }

  /** The share of its exposures that converted, conversions beyond the exposures not counted. */
  function RateOf(c: VariantCounts): real
    requires c.exposures > 0
  {
    (if c.conversions <= c.exposures then c.conversions else c.exposures) as real / c.exposures as real
  }

  /**
   * What the numbers in a row are: the rate, the Wilson interval around it, the
   * difference to the control's rate, its z and p-value, and the verdict at 5 %.
   */
  lemma ResultValues(m: Maths, control: string, counts: seq<VariantCounts>, i: nat, k: nat)
    requires TakesRoots(m) && i < |counts|
    ensures
      var c, r := counts[i], Results(m, control, counts)[i];
      && (c.exposures > 0 ==> r.rate == Some(RateOf(c)) && r.interval == Some(Wilson(m, RateOf(c), c.exposures as real)))
      && (IsBaseline(control, counts, k) && r.vsControl.Some? ==>
        var v := r.vsControl.value;
        && c.exposures > 0 && v.lift == RateOf(c) - RateOf(counts[k])
        && Standardizes(v.z, v.lift, Variance(Observed(c).value, Observed(counts[k]).value))
        && v.pValue == 2.0 * (1.0 - m.phi(if v.z < 0.0 then -v.z else v.z))
        && (v.significant <==> v.pValue < 0.05))
  {
    var c := counts[i];
    if IsBaseline(control, counts, k) && c.exposures > 0 && c.variant != control {
      FirstControl(control, counts, k);
      PresentComparison(m, Observed(c).value, Observed(counts[k]).value);
    }
  }

  lemma PresentComparison(m: Maths, own: Arm, control: Arm)
    requires TakesRoots(m) && Proper(own) && Proper(control)
    ensures
      var o := TwoProportionZ(m, own, control);
      o.Some? ==>
        && o.value.lift == own.x / own.n - control.x / control.n
        && Standardizes(o.value.z, o.value.lift, Variance(own, control))
        && o.value.pValue == 2.0 * (1.0 - m.phi(if o.value.z < 0.0 then -o.value.z else o.value.z))
        && (o.value.significant <==> o.value.pValue < 0.05)
  {
    CompareValues(m, Lift(own, control), Variance(own, control));
  }

  lemma CompareValues(m: Maths, lift: real, variance: real)
    requires TakesRoots(m)
    ensures
      var o := Compare(m, lift, variance);
      o.Some? ==>
        && variance > 0.0 && o.value.lift == lift && Standardizes(o.value.z, lift, variance)
        && o.value.pValue == 2.0 * (1.0 - m.phi(if o.value.z < 0.0 then -o.value.z else o.value.z))
        && (o.value.significant <==> o.value.pValue < 0.05)
  {
    if variance > 0.0 {
      CompareMeaning(m, lift, variance);
    }
  }

  lemma RateInUnit(a: Arm)
    requires Proper(a)
    ensures 0.0 <= a.x / a.n <= 1.0
  {
    DivideBounds(a.x, a.n, 0.0, 1.0);
  }

  lemma ControlCases(m: Maths, control: string, counts: seq<VariantCounts>, c: VariantCounts)
    requires TakesRoots(m) && c.exposures > 0
    ensures
      var base := ControlArm(control, counts);
      base.Some? && Proper(base.value) && TwoProportionZ(m, Observed(c).value, base.value).Some? <==>
        exists k: nat :: IsBaseline(control, counts, k) && !Degenerate(Observed(c).value, Observed(counts[k]).value)
  {
    var own := Observed(c).value;
    forall k: nat | IsBaseline(control, counts, k)
      ensures ControlArm(control, counts) == Observed(counts[k])
      ensures TwoProportionZ(m, own, Observed(counts[k]).value).Some? <==> !Degenerate(own, Observed(counts[k]).value)
    {
      FirstControl(control, counts, k);
      ComparisonAbsentIff(m, own, Observed(counts[k]).value);
    }
    BaselineExists(control, counts);
  }

  lemma {:induction false} BaselineExists(control: string, counts: seq<VariantCounts>)
    ensures ControlArm(control, counts).Some? ==> exists k: nat :: IsBaseline(control, counts, k)
  {
    if counts != [] && ControlArm(control, counts).Some? {
      if counts[0].variant == control {
        assert IsBaseline(control, counts, 0);
      } else {
        BaselineExists(control, counts[1..]);
        var k: nat :| IsBaseline(control, counts[1..], k);
        assert IsBaseline(control, counts, k + 1);
      }
    }
  }
}
