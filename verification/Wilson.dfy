/** The Wilson score interval of the operating-point report, over exact numbers. */
module Wilson {
  const Z: real := 1.96

  // The number under the square root.
  function Radicand(p: real, total: real, z: real): real
    requires total > 0.0
  {
    p * (1.0 - p) / total + z * z / (4.0 * total * total)
  }

  // `wilson`; `root` is the square root the program takes.
  method Interval(correct: nat, total: nat, root: real) returns (low: real, high: real)
    requires correct <= total
    requires total > 0 ==> root >= 0.0 && root * root == Radicand(correct as real / total as real, total as real, Z)
    ensures total == 0 ==> low == 0.0 && high == 1.0
    ensures total > 0 ==> 0.0 <= low <= correct as real / total as real <= high <= 1.0
  {
    if total == 0 { return 0.0, 1.0; }
    var n := total as real;
    var p := correct as real / n;
    var centre := p + Z * Z / (2.0 * n);
    var spread := Z * root;
    var denominator := 1.0 + Z * Z / n;
    low, high := (centre - spread) / denominator, (centre + spread) / denominator;
    ProportionInRange(correct as real, n);
    IntervalContains(p, n, Z, root);
  }

  lemma ProportionInRange(correct: real, n: real)
    requires 0.0 <= correct <= n && n > 0.0
    ensures 0.0 <= correct / n <= 1.0
  {}

  lemma Scale(a: real, x: real, y: real)
    requires a >= 0.0 && x <= y
    ensures a * x <= a * y
  {}

  lemma Positive(d: real)
    requires d > 0.0
    ensures d * d > 0.0
  {}

  lemma StrictSquare(x: real, y: real)
    requires x > y >= 0.0
    ensures x * x > y * y
  {
    var d := x - y;
    NonNegative(d, y);
    Positive(d);
    Expanded(y, d);
    assert x == y + d;
    assert x * x == y * y + d * y + d * y + d * d;
  }

  lemma Expanded(y: real, d: real)
    ensures (y + d) * (y + d) == y * y + d * y + d * y + d * d
  {}

  // A number is within another when its square is at most the other's.
  lemma SquareOrder(x: real, y: real)
    requires y >= 0.0 && x * x <= y * y
    ensures -y <= x <= y
  {
    if x > y { StrictSquare(x, y); }
    if -x > y { Negated(x); StrictSquare(-x, y); }
  }

  lemma Negated(x: real)
    ensures (-x) * (-x) == x * x
  {}

  // In terms of a = z * z / n: the centre is p + a/2, the spread squared a p (1 - p) + a a / 4, the
  // denominator 1 + a.
  lemma IntervalBounds(p: real, a: real, spread: real)
    requires 0.0 <= p <= 1.0 && a >= 0.0 && spread >= 0.0
    requires spread * spread == a * (p * (1.0 - p)) + a * a / 4.0
    ensures 0.0 <= p + a / 2.0 - spread && p + a / 2.0 + spread <= 1.0 + a
    ensures p + a / 2.0 - spread <= p * (1.0 + a) <= p + a / 2.0 + spread
  {
    Product(p);
    SpreadBounds(p, a, spread);
    Spread(p, a);
    Combined(p, a, a * (0.5 - p), spread, p * (1.0 + a));
  }

  lemma SpreadBounds(p: real, a: real, spread: real)
    requires 0.0 <= p <= 1.0 && a >= 0.0 && spread >= 0.0 && p * (1.0 - p) >= 0.0
    requires spread * spread == a * (p * (1.0 - p)) + a * a / 4.0
    ensures spread <= p + a / 2.0 && spread <= 1.0 - p + a / 2.0 && -spread <= a * (0.5 - p) <= spread
  {
    var x, y, m := p + a / 2.0, 1.0 - p + a / 2.0, a * (0.5 - p);
    Squares(p, a, p * (1.0 - p), spread);
    WeightOrder(spread, x, y, m);
  }

  lemma WeightOrder(spread: real, x: real, y: real, m: real)
    requires spread >= 0.0 && x >= 0.0 && y >= 0.0
    requires spread * spread <= x * x && spread * spread <= y * y && m * m <= spread * spread
    ensures spread <= x && spread <= y && -spread <= m <= spread
  {
    SquareOrder(spread, x);
    SquareOrder(spread, y);
    SquareOrder(m, spread);
  }

  lemma Combined(p: real, a: real, m: real, spread: real, w: real)
    requires spread <= p + a / 2.0 && spread <= 1.0 - p + a / 2.0 && -spread <= m <= spread && w == p + a / 2.0 - m
    ensures 0.0 <= p + a / 2.0 - spread && p + a / 2.0 + spread <= 1.0 + a
    ensures p + a / 2.0 - spread <= w <= p + a / 2.0 + spread
  {}

  lemma Product(p: real)
    requires 0.0 <= p <= 1.0
    ensures p * (1.0 - p) >= 0.0
  {
    NonNegative(p, 1.0 - p);
  }

  lemma NonNegative(x: real, y: real)
    requires x >= 0.0 && y >= 0.0
    ensures x * y >= 0.0
  {}

  lemma Spread(p: real, a: real)
    ensures p * (1.0 + a) == p + a / 2.0 - a * (0.5 - p)
  {}

  lemma Squares(p: real, a: real, q: real, spread: real)
    requires 0.0 <= p <= 1.0 && a >= 0.0 && q == p * (1.0 - p) && q >= 0.0
    requires spread * spread == a * q + a * a / 4.0
    ensures spread * spread <= (p + a / 2.0) * (p + a / 2.0)
    ensures spread * spread <= (1.0 - p + a / 2.0) * (1.0 - p + a / 2.0)
    ensures (a * (0.5 - p)) * (a * (0.5 - p)) <= spread * spread
  {
    var r := 1.0 - p;
    assert q == p - p * p && q == r - r * r;
    assert (p + a / 2.0) * (p + a / 2.0) == p * p + a * p + a * a / 4.0;
    assert (r + a / 2.0) * (r + a / 2.0) == r * r + a * r + a * a / 4.0;
    assert a * q <= a * p && a * q <= a * r by { Scale(a, q, p); Scale(a, q, r); }
    var h := 0.5 - p;
    assert h * h == 0.25 - q;
    assert (a * h) * (a * h) == (a * a) * (h * h);
    assert (a * a) * (h * h) == a * a / 4.0 - (a * a) * q;
    assert (a * a) * q >= 0.0 && a * q >= 0.0;
  }

  lemma IntervalContains(p: real, n: real, z: real, root: real)
    requires 0.0 <= p <= 1.0 && n > 0.0 && z >= 0.0 && root >= 0.0 && root * root == Radicand(p, n, z)
    ensures var denominator := 1.0 + z * z / n;
      && denominator > 0.0
      && 0.0 <= (p + z * z / (2.0 * n) - z * root) / denominator <= p
      && p <= (p + z * z / (2.0 * n) + z * root) / denominator <= 1.0
  {
    var a := z * z / n;
    var spread := z * root;
    InTermsOfA(p, n, z, root);
    IntervalBounds(p, a, spread);
    DivideAll(p, a, spread);
  }

  lemma Quarter(z: real, n: real)
    requires n > 0.0
    ensures z * z / (2.0 * n) == z * z / n / 2.0 && z * z / n * n == z * z && z * z / n >= 0.0
    ensures z * z / (4.0 * n * n) * (4.0 * n) == z * z / n
  {
    assert z * z >= 0.0;
    var w := z * z / (4.0 * n * n);
    assert w * (4.0 * n * n) == z * z;
    assert w * (4.0 * n) * n == w * (4.0 * n * n);
  }

  lemma InTermsOfA(p: real, n: real, z: real, root: real)
    requires n > 0.0 && root * root == Radicand(p, n, z)
    ensures z * z / n >= 0.0 && z * z / (2.0 * n) == z * z / n / 2.0
    ensures (z * root) * (z * root) == z * z / n * (p * (1.0 - p)) + (z * z / n) * (z * z / n) / 4.0
  {
    Quarter(z, n);
    var a, q, w := z * z / n, p * (1.0 - p), z * z / (4.0 * n * n);
    Rearranged(z, root);
    assert root * root == q / n + w;
    Distributed(z * z, q / n, w);
    Cancelled(a, n, q);
    assert (z * z) * w == a * a / 4.0 by {
      assert (z * z) * w == a * n * w;
      assert a * n * w == a * (n * w);
      assert n * w == a / 4.0;
      assert a * (a / 4.0) == a * a / 4.0;
    }
  }

  lemma Rearranged(z: real, root: real)
    ensures (z * root) * (z * root) == (z * z) * (root * root)
  {}

  lemma Distributed(x: real, y: real, w: real)
    ensures x * (y + w) == x * y + x * w
  {}

  lemma Cancelled(a: real, n: real, q: real)
    requires n > 0.0
    ensures (a * n) * (q / n) == a * q
  {
    assert (a * n) * (q / n) == a * (n * (q / n));
  }

  lemma QuotientOrder(x: real, y: real, d: real)
    requires x <= y && d > 0.0
    ensures x / d <= y / d
  {}

  lemma CancelFactor(x: real, d: real)
    requires d > 0.0
    ensures x * d / d == x
  {}

  lemma DivideAll(p: real, a: real, spread: real)
    requires a >= 0.0
    requires 0.0 <= p + a / 2.0 - spread <= p * (1.0 + a) <= p + a / 2.0 + spread <= 1.0 + a
    ensures 0.0 <= (p + a / 2.0 - spread) / (1.0 + a) <= p <= (p + a / 2.0 + spread) / (1.0 + a) <= 1.0
  {
    var d, low, high := 1.0 + a, p + a / 2.0 - spread, p + a / 2.0 + spread;
    QuotientOrder(0.0, low, d);
    QuotientOrder(low, p * d, d);
    QuotientOrder(p * d, high, d);
    QuotientOrder(high, d, d);
    CancelFactor(0.0, d);
    CancelFactor(p, d);
    CancelFactor(1.0, d);
  }
}
