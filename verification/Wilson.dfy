/** Wilson intervals over exact reals, and the F1 bounds derived from them.

    `math.sqrt` enters as its defining equation: `root` is any non-negative real whose square
    is the radicand. */
module Wilson {
  import opened Options

  datatype Interval = Interval(estimate: real, lower: real, upper: real)

  datatype Estimate = Invalid | NotApplicable | Estimated(interval: Interval)

  function Abs(x: real): real {
    if x < 0.0 then -x else x
  }

  /** `math.isclose` with its default relative tolerance. */
  predicate IsClose(a: real, b: real) {
    var larger := if Abs(a) < Abs(b) then Abs(b) else Abs(a);
    Abs(a - b) <= 0.000000001 * larger
  }

  function Quantile(level: real): (z: Option<real>)
    ensures z.Some? ==> z.value > 0.0
  {
    if IsClose(level, 0.90) then Some(1.6448536269514722)
    else if IsClose(level, 0.95) then Some(1.959963984540054)
    else if IsClose(level, 0.99) then Some(2.5758293035489004)
    else None
  }

  function Radicand(p: real, n: real, z: real): real
    requires n > 0.0
  {
    p * (1.0 - p) / n + z * z / (4.0 * n * n)
  }

  predicate IsRoot(root: real, x: real) {
    root >= 0.0 && root * root == x
  }

  function Centre(p: real, n: real, z: real): real
    requires n > 0.0
  {
    (p + z * z / (2.0 * n)) / Denominator(n, z)
  }

  function Denominator(n: real, z: real): (d: real)
    requires n > 0.0
    ensures d >= 1.0
  {
    SquareOverPositive(z, n);
    1.0 + z * z / n
  }

  function Margin(n: real, z: real, root: real): real
    requires n > 0.0
  {
    z * root / Denominator(n, z)
  }

  /** `proportion_interval`. */
  function ProportionInterval(successes: int, trials: int, level: real, root: real): Estimate {
    if trials < 0 || successes < 0 || successes > trials then Invalid
    else if !(0.0 < level < 1.0) then Invalid
    else if trials == 0 then NotApplicable
    else if Quantile(level) == None then Invalid
    else
      var n, z := trials as real, Quantile(level).value;
      var p := successes as real / n;
      var low, high := Centre(p, n, z) - Margin(n, z, root), Centre(p, n, z) + Margin(n, z, root);
      Estimated(Interval(p, if low < 0.0 then 0.0 else low, if high < 1.0 then high else 1.0))
  }

  // ----- small facts of arithmetic

  lemma SquareOverPositive(z: real, n: real)
    requires n > 0.0
    ensures z * z / n >= 0.0
  {
    assert z * z >= 0.0;
  }

  lemma PositiveProduct(x: real, y: real)
    requires x > 0.0 && y > 0.0
    ensures x * y > 0.0
  {
  }

  lemma NonNegativeProduct(x: real, y: real)
    requires x >= 0.0 && y >= 0.0
    ensures x * y >= 0.0
  {
  }

  lemma RootsCompare(x: real, y: real)
    requires y >= 0.0 && x * x <= y * y
    ensures x <= y
  {
    if x > y {
      PositiveProduct(x - y, x + y);
    }
  }

  lemma Quotient(x: real, d: real, q: real)
    requires d != 0.0 && q * d == x
    ensures x / d == q
  {
  }

  lemma DivideBothSides(a: real, b: real, d: real)
    requires d > 0.0 && a <= b
    ensures a / d <= b / d
  {
    assert b / d - a / d == (b - a) / d;
  }

  lemma QuarterTerm(n: real, a: real)
    requires n > 0.0
    ensures (a * n) / (4.0 * n * n) * n == a / 4.0
  {
    var k := 4.0 * n;
    var t := a / k;
    assert t * k == a;
    PositiveProduct(k, n);
    assert 4.0 * n * n == k * n;
    assert t * (k * n) == (t * k) * n;
    Quotient(a * n, k * n, t);
    assert (t * n) * 4.0 == t * k;
  }

  /** With `a = z²/n`, the squared half-width before division is `a·p·(1-p) + a²/4`. */
  lemma SquaredWidth(p: real, n: real, z: real, root: real, a: real)
    requires n > 0.0 && IsRoot(root, Radicand(p, n, z)) && a == z * z / n
    ensures (z * root) * (z * root) == a * (p * (1.0 - p)) + a * a / 4.0
  {
    var q, t := p * (1.0 - p), (a * n) / (4.0 * n * n);
    assert z * z == a * n;
    assert (z * root) * (z * root) == (z * z) * (root * root);
    assert root * root == q / n + t;
    assert (a * n) * (q / n) == a * q by { assert n * (q / n) == q; }
    QuarterTerm(n, a);
    assert (a * n) * t == a * (t * n);
    assert (a * n) * (q / n + t) == (a * n) * (q / n) + (a * n) * t;
  }

  /** The three inequalities, cleared of denominators, for half-width `b` with `b² = a·p·(1-p) + a²/4`. */
  lemma ClearedInequalities(p: real, a: real, b: real)
    requires 0.0 <= p <= 1.0 && a >= 0.0 && b >= 0.0 && b * b == a * (p * (1.0 - p)) + a * a / 4.0
    ensures b <= p + a / 2.0
    ensures b <= (1.0 - p) + a / 2.0
    ensures -b <= a * (p - 0.5) <= b
  {
    var q := 1.0 - p;
    LeftInequality(p, a, b);
    LeftInequality(q, a, b);
    var e := a * (p - 0.5);
    CentreOffset(p, a, b);
    RootsCompare(e, b);
    RootsCompare(-e, b);
  }

  /** The estimate lies off the centre by no more than the half-width. */
  lemma CentreOffset(p: real, a: real, b: real)
    requires 0.0 <= p <= 1.0 && a >= 0.0 && b * b == a * (p * (1.0 - p)) + a * a / 4.0
    ensures (a * (p - 0.5)) * (a * (p - 0.5)) <= b * b
  {
    var h, q, s := p - 0.5, p * (1.0 - p), a * a;
    var e := a * h;
    assert h * h == 0.25 - q;
    assert e * e == s * (h * h);
    assert s * (0.25 - q) == s * 0.25 - s * q;
    NonNegativeProduct(p, 1.0 - p);
    NonNegativeProduct(a, a);
    NonNegativeProduct(a, q);
    NonNegativeProduct(s, q);
  }

  lemma LeftInequality(p: real, a: real, b: real)
    requires 0.0 <= p && a >= 0.0 && b >= 0.0 && b * b == a * (p * (1.0 - p)) + a * a / 4.0
    ensures b <= p + a / 2.0
  {
    var c := p + a / 2.0;
    assert c * c == p * p + a * p + a * a / 4.0;
    assert a * (p * (1.0 - p)) == a * p - a * (p * p);
    assert c * c - b * b == p * p + a * (p * p);
    assert p * p >= 0.0 && a * (p * p) >= 0.0;
    RootsCompare(b, c);
  }

  // ----- the interval

  lemma CommonDenominator(c: real, b: real, d: real)
    requires d > 0.0
    ensures c / d - b / d == (c - b) / d && c / d + b / d == (c + b) / d
  {
    var x, y := c / d, b / d;
    assert x * d == c && y * d == b;
    assert (x - y) * d == c - b && (x + y) * d == c + b;
    Quotient(c - b, d, x - y);
    Quotient(c + b, d, x + y);
  }

  /** Both ends as fractions over one denominator, with `a = z²/n`. */
  lemma EndsAsFractions(p: real, n: real, z: real, root: real, a: real)
    requires n > 0.0 && a == z * z / n
    ensures Denominator(n, z) == 1.0 + a
    ensures Centre(p, n, z) - Margin(n, z, root) == (p + a / 2.0 - z * root) / (1.0 + a)
    ensures Centre(p, n, z) + Margin(n, z, root) == (p + a / 2.0 + z * root) / (1.0 + a)
  {
    HalfTerm(z * z, n);
    CommonDenominator(p + a / 2.0, z * root, 1.0 + a) by { SquareOverPositive(z, n); }
  }

  lemma HalfTerm(x: real, n: real)
    requires n > 0.0
    ensures x / (2.0 * n) == (x / n) / 2.0
  {
    var t := x / n;
    assert t * n == x;
    assert (t / 2.0) * (2.0 * n) == t * n;
    Quotient(x, 2.0 * n, t / 2.0);
  }

  /** The clamps never act, and the estimate lies inside: 0 <= lower <= estimate <= upper <= 1. */
  lemma WilsonBrackets(p: real, n: real, z: real, root: real)
    requires 0.0 <= p <= 1.0 && n > 0.0 && z >= 0.0 && IsRoot(root, Radicand(p, n, z))
    ensures 0.0 <= Centre(p, n, z) - Margin(n, z, root) <= p <= Centre(p, n, z) + Margin(n, z, root) <= 1.0
  {
    var a, b := z * z / n, z * root;
    SquareOverPositive(z, n);
    SquaredWidth(p, n, z, root, a);
    HalfWidths(p, a, b);
    EndsAsFractions(p, n, z, root, a);
  }

  lemma HalfWidths(p: real, a: real, b: real)
    requires 0.0 <= p <= 1.0 && a >= 0.0 && b >= 0.0 && b * b == a * (p * (1.0 - p)) + a * a / 4.0
    ensures 0.0 <= (p + a / 2.0 - b) / (1.0 + a) <= p <= (p + a / 2.0 + b) / (1.0 + a) <= 1.0
  {
    ClearedInequalities(p, a, b);
    Widened(p, a, b);
    Divided(p + a / 2.0 - b, p, p + a / 2.0 + b, 1.0 + a);
  }

  lemma Widened(p: real, a: real, b: real)
    requires -b <= a * (p - 0.5) <= b
    ensures p + a / 2.0 - b <= p * (1.0 + a) <= p + a / 2.0 + b
  {
    assert a * (p - 0.5) == a * p - a * 0.5;
    assert p * (1.0 + a) == p + a * p;
  }

  lemma Divided(low: real, p: real, high: real, d: real)
    requires d > 0.0 && 0.0 <= low <= p * d <= high <= d
    ensures 0.0 <= low / d <= p <= high / d <= 1.0
  {
    DivideBothSides(0.0, low, d);
    DivideBothSides(low, p * d, d);
    DivideBothSides(p * d, high, d);
    DivideBothSides(high, d, d);
    Quotient(p * d, d, p);
    Quotient(d, d, 1.0);
  }

  predicate Brackets(i: Interval) {
    0.0 <= i.lower <= i.estimate <= i.upper <= 1.0
  }

  /** For every count and every supported level the reported interval is well-formed and unclamped. */
  lemma IntervalIsSound(successes: int, trials: int, level: real, root: real)
    requires 0 <= successes <= trials && trials > 0 && 0.0 < level < 1.0 && Quantile(level).Some?
    requires IsRoot(root, Radicand(successes as real / trials as real, trials as real, Quantile(level).value))
    ensures var e := ProportionInterval(successes, trials, level, root);
            var p, n, z := successes as real / trials as real, trials as real, Quantile(level).value;
            && e.Estimated? && Brackets(e.interval) && e.interval.estimate == p
            && e.interval.lower == Centre(p, n, z) - Margin(n, z, root)
            && e.interval.upper == Centre(p, n, z) + Margin(n, z, root)
  {
    var n := trials as real;
    assert successes as real / n <= 1.0 by {
      DivideBothSides(successes as real, n, n);
      assert n / n == 1.0;
    }
    WilsonBrackets(successes as real / n, n, Quantile(level).value, root);
  }

  // ----- F1

  function Harmonic(p: real, r: real): real {
    if p + r == 0.0 then 0.0 else 2.0 * p * r / (p + r)
  }

  lemma HarmonicCross(p: real, r: real, p': real, r': real)
    requires 0.0 <= p <= p' && 0.0 <= r <= r'
    ensures (2.0 * p * r) * (p' + r') <= (2.0 * p' * r') * (p + r)
  {
    assert p * r <= p * r' && p * r <= p' * r;
    assert (p * r) * p' <= (p * r') * p';
    assert (p * r) * r' <= (p' * r) * r';
    assert (2.0 * p * r) * (p' + r') == 2.0 * ((p * r) * p') + 2.0 * ((p * r) * r');
    assert (2.0 * p' * r') * (p + r) == 2.0 * ((p * r') * p') + 2.0 * ((p' * r) * r');
  }

  lemma HarmonicNonNegative(p: real, r: real)
    requires 0.0 <= p && 0.0 <= r
    ensures Harmonic(p, r) >= 0.0
  {
    if p + r > 0.0 {
      assert p * r >= 0.0;
      DivideBothSides(0.0, 2.0 * p * r, p + r);
    }
  }

  lemma HarmonicMonotone(p: real, r: real, p': real, r': real)
    requires 0.0 <= p <= p' && 0.0 <= r <= r'
    ensures 0.0 <= Harmonic(p, r) <= Harmonic(p', r')
  {
    HarmonicNonNegative(p, r);
    HarmonicNonNegative(p', r');
    if p + r > 0.0 {
      HarmonicCross(p, r, p', r');
      CrossDivide(2.0 * p * r, p + r, 2.0 * p' * r', p' + r');
    }
  }

  lemma CrossDivide(x: real, s: real, x': real, s': real)
    requires s > 0.0 && s' > 0.0 && x * s' <= x' * s
    ensures x / s <= x' / s'
  {
    DivideBothSides(x * s', x' * s, s * s');
    assert x * s' / (s * s') == x / s by { assert (x / s) * (s * s') == x * s' by { assert (x / s) * s == x; } }
    assert x' * s / (s * s') == x' / s' by { assert (x' / s') * (s * s') == x' * s by { assert (x' / s') * s' == x'; } }
  }

  /** `_intervals`: the F1 endpoints built from the two intervals bracket the reported F1 whenever the
      report defines one. */
  lemma F1IsBracketed(tp: nat, fp: nat, fn: nat, level: real, precisionRoot: real, recallRoot: real)
    requires tp + fp > 0 && tp + fn > 0 && 0.0 < level < 1.0 && Quantile(level).Some?
    requires IsRoot(precisionRoot, Radicand(tp as real / (tp + fp) as real, (tp + fp) as real, Quantile(level).value))
    requires IsRoot(recallRoot, Radicand(tp as real / (tp + fn) as real, (tp + fn) as real, Quantile(level).value))
    ensures var precision := ProportionInterval(tp, tp + fp, level, precisionRoot);
            var recall := ProportionInterval(tp, tp + fn, level, recallRoot);
            && precision.Estimated? && recall.Estimated?
            && Harmonic(precision.interval.lower, recall.interval.lower)
               <= Harmonic(precision.interval.estimate, recall.interval.estimate)
               <= Harmonic(precision.interval.upper, recall.interval.upper)
  {
    IntervalIsSound(tp, tp + fp, level, precisionRoot);
    IntervalIsSound(tp, tp + fn, level, recallRoot);
    var p, r := ProportionInterval(tp, tp + fp, level, precisionRoot).interval,
        ProportionInterval(tp, tp + fn, level, recallRoot).interval;
    HarmonicMonotone(p.lower, r.lower, p.estimate, r.estimate);
    HarmonicMonotone(p.estimate, r.estimate, p.upper, r.upper);
  }
}
