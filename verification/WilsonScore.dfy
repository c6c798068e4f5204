/** What the Wilson interval is: the proportions the score test does not reject.  Wider levels follow. */
module WilsonScore {
  import opened Options
  import opened Wilson

  // ----- the quadratic behind the interval

  lemma InnerIdentity(p: real, q: real)
    ensures 2.0 * ((q - p) * (q - 0.5)) - p * (1.0 - p) == (q - p) * (q - p) - q * (1.0 - q)
  {
    assert (q - p) * (q - 0.5) == q * q - 0.5 * q - p * q + 0.5 * p;
    assert (q - p) * (q - p) == q * q - 2.0 * (p * q) + p * p;
  }

  lemma SquareOfSum(x: real, a: real, y: real)
    ensures (x + a * y) * (x + a * y) == x * x + 2.0 * (a * (x * y)) + a * a * (y * y)
  {
    var z := a * y;
    assert (x + z) * (x + z) == x * x + 2.0 * (x * z) + z * z;
    assert x * z == a * (x * y);
    assert z * z == a * a * (y * y);
  }

  /** How far `q` is from the centre, against the half-width, is how far it is from `p`, against its spread. */
  lemma ScoreIdentity(p: real, a: real, q: real)
    ensures var t, spread := (1.0 + a) * q - (p + a / 2.0), q * (1.0 - q);
            t * t - (a * (p * (1.0 - p)) + a * a / 4.0) == (1.0 + a) * ((q - p) * (q - p) - a * spread)
  {
    var x, y, spread, r := q - p, q - 0.5, q * (1.0 - q), p * (1.0 - p);
    var t := (1.0 + a) * q - (p + a / 2.0);
    assert t == x + a * y;
    SquareOfSum(x, a, y);
    assert y * y == 0.25 - spread;
    assert a * a * (0.25 - spread) == a * a / 4.0 - a * a * spread;
    InnerIdentity(p, q);
    assert a * (2.0 * (x * y) - r) == a * (x * x - spread);
    assert a * (2.0 * (x * y) - r) == 2.0 * (a * (x * y)) - a * r;
    assert a * (x * x - spread) == a * (x * x) - a * spread;
    assert (1.0 + a) * (x * x - a * spread) == x * x - a * spread + a * (x * x) - a * (a * spread);
    assert a * (a * spread) == a * a * spread;
  }

  lemma SquaresCompare(t: real, b: real)
    requires b >= 0.0
    ensures -b <= t <= b <==> t * t <= b * b
  {
    if t * t <= b * b {
      RootsCompare(t, b);
      RootsCompare(-t, b);
    }
    if -b <= t <= b {
      NonNegativeProduct(b - t, b + t);
      assert (b - t) * (b + t) == b * b - t * t;
    }
  }

  lemma SignOfProduct(d: real, x: real)
    requires d > 0.0
    ensures d * x <= 0.0 <==> x <= 0.0
  {
    if x > 0.0 { PositiveProduct(d, x); }
    if x <= 0.0 { NonNegativeProduct(d, -x); }
  }

  lemma BetweenFractions(low: real, high: real, d: real, q: real)
    requires d > 0.0
    ensures low / d <= q <= high / d <==> low <= d * q <= high
  {
    Quotient(d * q, d, q);
    if low <= d * q { DivideBothSides(low, d * q, d); }
    if d * q <= high { DivideBothSides(d * q, high, d); }
    var l, h := low / d, high / d;
    assert l * d == low && h * d == high;
    if l <= q { NonNegativeProduct(q - l, d); }
    if q <= h { NonNegativeProduct(h - q, d); }
  }

  lemma AroundCentre(c: real, b: real, d: real, q: real, t: real)
    requires d > 0.0 && t == d * q - c
    ensures (c - b) / d <= q <= (c + b) / d <==> -b <= t <= b
  {
    BetweenFractions(c - b, c + b, d, q);
  }

  lemma DistanceIff(p: real, a: real, b: real, q: real, t: real)
    requires a >= 0.0 && b >= 0.0 && b * b == a * (p * (1.0 - p)) + a * a / 4.0
    requires t == (1.0 + a) * q - (p + a / 2.0)
    ensures -b <= t <= b <==> (q - p) * (q - p) <= a * (q * (1.0 - q))
  {
    SquaresCompare(t, b);
    ScoreIdentity(p, a, q);
    SignOfProduct(1.0 + a, (q - p) * (q - p) - a * (q * (1.0 - q)));
  }

  lemma InsideIff(p: real, a: real, b: real, q: real)
    requires a >= 0.0 && b >= 0.0 && b * b == a * (p * (1.0 - p)) + a * a / 4.0
    ensures (p + a / 2.0 - b) / (1.0 + a) <= q <= (p + a / 2.0 + b) / (1.0 + a) <==>
            (q - p) * (q - p) <= a * (q * (1.0 - q))
  {
    var c, d := p + a / 2.0, 1.0 + a;
    var t := d * q - c;
    AroundCentre(c, b, d, q, t);
    DistanceIff(p, a, b, q, t);
  }

  lemma ClearTrials(x: real, a: real, zz: real, n: real, spread: real)
    requires n > 0.0 && a * n == zz
    ensures x <= a * spread <==> n * x <= zz * spread
  {
    assert n * (a * spread) == zz * spread;
    SignOfProduct(n, x - a * spread);
    assert n * (x - a * spread) == n * x - n * (a * spread);
  }

  /** The score test at quantile `z` keeps `q`: its distance from the estimate is within `z` standard errors
      of `q` itself. */
  predicate Kept(p: real, n: real, z: real, q: real) {
    n * ((q - p) * (q - p)) <= z * z * (q * (1.0 - q))
  }

  lemma KeptIff(p: real, n: real, z: real, a: real, q: real)
    requires n > 0.0 && a == z * z / n
    ensures Kept(p, n, z, q) <==> (q - p) * (q - p) <= a * (q * (1.0 - q))
  {
    ClearTrials((q - p) * (q - p), a, z * z, n, q * (1.0 - q));
  }

  /** A proportion lies in the unclamped interval exactly when the score test keeps it. */
  lemma IntervalIsScoreTest(p: real, n: real, z: real, root: real, q: real)
    requires n > 0.0 && z >= 0.0 && IsRoot(root, Radicand(p, n, z))
    ensures Centre(p, n, z) - Margin(n, z, root) <= q <= Centre(p, n, z) + Margin(n, z, root) <==> Kept(p, n, z, q)
  {
    var a := z * z / n;
    EndsAsFractions(p, n, z, root, a);
    KeptIff(p, n, z, a, q);
    SquareOverPositive(z, n);
    SquaredWidth(p, n, z, root, a);
    NonNegativeProduct(z, root);
    InsideIff(p, a, z * root, q);
  }

  /** A larger quantile gives a wider interval. */
  lemma WiderQuantile(p: real, n: real, z: real, root: real, z': real, root': real)
    requires 0.0 <= p <= 1.0 && n > 0.0 && 0.0 <= z <= z'
    requires IsRoot(root, Radicand(p, n, z)) && IsRoot(root', Radicand(p, n, z'))
    ensures Centre(p, n, z') - Margin(n, z', root') <= Centre(p, n, z) - Margin(n, z, root)
    ensures Centre(p, n, z) + Margin(n, z, root) <= Centre(p, n, z') + Margin(n, z', root')
  {
    WilsonBrackets(p, n, z, root);
    var low, high := Centre(p, n, z) - Margin(n, z, root), Centre(p, n, z) + Margin(n, z, root);
    StaysInside(p, n, z, root, z', root', low);
    StaysInside(p, n, z, root, z', root', high);
  }

  lemma StaysInside(p: real, n: real, z: real, root: real, z': real, root': real, q: real)
    requires n > 0.0 && 0.0 <= z <= z' && 0.0 <= q <= 1.0
    requires IsRoot(root, Radicand(p, n, z)) && IsRoot(root', Radicand(p, n, z'))
    requires Centre(p, n, z) - Margin(n, z, root) <= q <= Centre(p, n, z) + Margin(n, z, root)
    ensures Centre(p, n, z') - Margin(n, z', root') <= q <= Centre(p, n, z') + Margin(n, z', root')
  {
    IntervalIsScoreTest(p, n, z, root, q);
    IntervalIsScoreTest(p, n, z', root', q);
    var spread := q * (1.0 - q);
    NonNegativeProduct(q, 1.0 - q);
    NonNegativeProduct(z' - z, z' + z);
    assert (z' - z) * (z' + z) == z' * z' - z * z;
    NonNegativeProduct(z' * z' - z * z, spread);
    assert (z' * z' - z * z) * spread == z' * z' * spread - z * z * spread;
  }

  // ----- what is reported

  lemma ReportedKeeps(i: Interval, p: real, n: real, z: real, root: real, q: real)
    requires n > 0.0 && z >= 0.0 && IsRoot(root, Radicand(p, n, z))
    requires i.lower == Centre(p, n, z) - Margin(n, z, root) && i.upper == Centre(p, n, z) + Margin(n, z, root)
    ensures i.lower <= q <= i.upper <==> Kept(p, n, z, q)
  {
    IntervalIsScoreTest(p, n, z, root, q);
  }

  /** The reported interval, for all counts and supported levels: a proportion lies in it exactly when the
      score test at the quantile of the level keeps it. */
  lemma ReportedIsScoreTest(successes: int, trials: int, level: real, root: real, q: real)
    requires 0 <= successes <= trials && trials > 0 && 0.0 < level < 1.0 && Quantile(level).Some?
    requires IsRoot(root, Radicand(successes as real / trials as real, trials as real, Quantile(level).value))
    ensures var e := ProportionInterval(successes, trials, level, root);
            && e.Estimated?
            && (e.interval.lower <= q <= e.interval.upper <==>
                  Kept(successes as real / trials as real, trials as real, Quantile(level).value, q))
  {
    IntervalIsSound(successes, trials, level, root);
    ReportedKeeps(ProportionInterval(successes, trials, level, root).interval, successes as real / trials as real,
                  trials as real, Quantile(level).value, root, q);
  }

  /** The three levels are supported, with the two-sided quantiles of the normal distribution to four
      places, and others are not. */
  lemma LevelsAscend()
    ensures Quantile(0.90).Some? && Quantile(0.95).Some? && Quantile(0.99).Some?
    ensures 1.6448 < Quantile(0.90).value < 1.6449
    ensures 1.9599 < Quantile(0.95).value < 1.9600
    ensures 2.5758 < Quantile(0.99).value < 2.5759
    ensures Quantile(0.5) == None && Quantile(0.999) == None
  {
  }

  predicate Within(inner: Interval, outer: Interval) {
    outer.lower <= inner.lower && inner.upper <= outer.upper
  }

  /** For all counts the interval at 90% lies within that at 95%, and that within the one at 99%. */
  lemma LevelsNest(successes: int, trials: int, root90: real, root95: real, root99: real)
    requires 0 <= successes <= trials && trials > 0
    requires Quantile(0.90).Some? && Quantile(0.95).Some? && Quantile(0.99).Some?
    requires var p, n := successes as real / trials as real, trials as real;
             && IsRoot(root90, Radicand(p, n, Quantile(0.90).value))
             && IsRoot(root95, Radicand(p, n, Quantile(0.95).value))
             && IsRoot(root99, Radicand(p, n, Quantile(0.99).value))
    ensures var low := ProportionInterval(successes, trials, 0.90, root90);
            var mid := ProportionInterval(successes, trials, 0.95, root95);
            var high := ProportionInterval(successes, trials, 0.99, root99);
            && low.Estimated? && mid.Estimated? && high.Estimated?
            && Within(low.interval, mid.interval) && Within(mid.interval, high.interval)
  {
    var p, n := successes as real / trials as real, trials as real;
    LevelsAscend();
    IntervalIsSound(successes, trials, 0.90, root90);
    IntervalIsSound(successes, trials, 0.95, root95);
    IntervalIsSound(successes, trials, 0.99, root99);
    assert 0.0 <= p <= 1.0;
    WiderQuantile(p, n, Quantile(0.90).value, root90, Quantile(0.95).value, root95);
    WiderQuantile(p, n, Quantile(0.95).value, root95, Quantile(0.99).value, root99);
  }

  /** Which inputs get no interval. */
  lemma NoInterval(successes: int, trials: int, level: real, root: real)
    ensures var e := ProportionInterval(successes, trials, level, root);
            var counts, usual := 0 <= successes <= trials, 0.0 < level < 1.0;
            && (e == NotApplicable <==> counts && usual && trials == 0)
            && (e == Invalid <==> !counts || !usual || (trials > 0 && Quantile(level) == None))
  {
  }

  /** The reported F1 in terms of the counts. */
  lemma F1OfCounts(tp: nat, fp: nat, fn: nat)
    requires tp > 0
    ensures Harmonic(tp as real / (tp + fp) as real, tp as real / (tp + fn) as real) ==
            2.0 * tp as real / (2 * tp + fp + fn) as real
  {
    var t, u, v := tp as real, (tp + fp) as real, (tp + fn) as real;
    var p, r := t / u, t / v;
    assert p * u == t && r * v == t;
    PositiveProduct(u, v);
    DividePositive(t, u);
    DividePositive(t, v);
    assert (p + r) * (u * v) == t * v + t * u by {
      assert p * (u * v) == t * v;
      assert r * (u * v) == t * u;
    }
    assert (p * r) * (u * v) == t * t;
    var h := 2.0 * t / (u + v);
    assert h * (u + v) == 2.0 * t;
    assert (h * (p + r)) * (u * v) == (2.0 * p * r) * (u * v) by {
      assert (h * (p + r)) * (u * v) == h * (t * (u + v));
      assert h * (t * (u + v)) == (h * (u + v)) * t;
      assert (2.0 * p * r) * (u * v) == 2.0 * ((p * r) * (u * v));
    }
    CancelPositive(h * (p + r), 2.0 * p * r, u * v);
    Quotient(2.0 * p * r, p + r, h);
  }

  lemma DividePositive(x: real, d: real)
    requires x > 0.0 && d > 0.0
    ensures x / d > 0.0
  {
    var q := x / d;
    assert q * d == x;
    if q <= 0.0 { NonNegativeProduct(-q, d); }
  }

  lemma CancelPositive(x: real, y: real, d: real)
    requires d > 0.0 && x * d == y * d
    ensures x == y
  {
    if x > y { PositiveProduct(x - y, d); }
    if y > x { PositiveProduct(y - x, d); }
  }
}
