/** Real arithmetic of one open-workload ramp: the times sqrt(2n/k) at which a rate growing by k per
    second has asked for n requests, and the sum of intervals 1/(k*sqrt(2c/k)) that approximates them. */
module OpenRamp {
  import opened RealFacts

  // The square root is a parameter; this is all that is used of it.
  ghost predicate IsSqrt(sqrt: real -> real) {
    forall x: real :: x >= 0.0 ==> sqrt(x) >= 0.0 && sqrt(x) * sqrt(x) == x
  }

  // The second at which the profile k*t*t/2 reaches n requests.
  function Ideal(sqrt: real -> real, k: real, n: nat): real
    requires k > 0.0
  {
    sqrt(2.0 * n as real / k)
  }

  // The rate the profile has at that moment.
  function RateAt(sqrt: real -> real, k: real, n: nat): real
    requires k > 0.0
  {
    k * Ideal(sqrt, k, n)
  }

  lemma SquareLt(x: real, y: real)
    requires 0.0 <= x < y
    ensures x * x < y * y
  {
    calc { x * x; <= { MulLe(x, y, x); } y * x; == x * y; < { MulLt(x, y, y); } y * y; }
  }

  lemma SquareOrder(x: real, y: real)
    requires x >= 0.0 && y >= 0.0
    ensures x <= y <==> x * x <= y * y
  {
    if x < y { SquareLt(x, y); } else if y < x { SquareLt(y, x); }
  }

  lemma SquareZero(x: real)
    requires x >= 0.0 && x * x <= 0.0
    ensures x == 0.0
  {
    if x > 0.0 {
      calc { 0.0; == 0.0 * x; < { MulLt(0.0, x, x); } x * x; <= 0.0; }
    }
  }

  lemma Factor(x: real, y: real)
    ensures (x - y) * (x + y) == x * x - y * y
  {}

  lemma QuotientBelow(q: real, d: real, s: real, m: real)
    requires d * s == q && 0.0 <= d && s <= m && 0.0 < m
    ensures q / m <= d
  {
    calc { q; == s * d; <= { MulLe(s, m, d); } m * d; == d * m; }
    DivLe(q, d, m);
  }

  lemma QuotientAbove(q: real, d: real, s: real, m: real)
    requires d * s == q && 0.0 <= d && m <= s && 0.0 < m
    ensures d <= q / m
  {
    calc { d * m; == m * d; <= { MulLe(m, s, d); } s * d; == q; }
    DivLe(q, d, m);
  }

  // A difference of two roots, bounded through the difference of their squares.
  lemma RootDifference(x: real, y: real, q: real)
    requires 0.0 <= y < x
    requires x * x - y * y == q
    ensures q / (2.0 * x) <= x - y
    ensures y > 0.0 ==> x - y <= q / (2.0 * y)
  {
    Factor(x, y);
    QuotientBelow(q, x - y, x + y, 2.0 * x);
    if y > 0.0 { QuotientAbove(q, x - y, x + y, 2.0 * y); }
  }

  lemma SquareStep(k: real, n: nat)
    requires k > 0.0
    ensures 2.0 * (n + 1) as real / k - 2.0 * n as real / k == 2.0 / k
    ensures 2.0 / k > 0.0
  {
    DivLe(2.0, 0.0, k);
    var a, b := 2.0 * n as real / k, 2.0 / k;
    assert (a + b) * k == 2.0 * (n + 1) as real;
  }

  lemma SquareGrows(x: real, y: real, q: real)
    requires x >= 0.0 && y >= 0.0 && q > 0.0
    requires y * y - x * x == q
    ensures x < y
  {
    if y < x { SquareLt(y, x); }
  }

  lemma DivProduct(k: real, u: real)
    requires k > 0.0 && u > 0.0
    ensures k * u > 0.0
    ensures 2.0 / k / (2.0 * u) == 1.0 / (k * u)
  {
    var a := 2.0 / k;
    var b := a / (2.0 * u);
    assert b * (2.0 * u) == a;
    assert a * k == 2.0;
    assert b * (k * u) == 1.0;
  }

  lemma IdealSquare(sqrt: real -> real, k: real, n: nat)
    requires IsSqrt(sqrt) && k > 0.0
    ensures Ideal(sqrt, k, n) >= 0.0
    ensures Ideal(sqrt, k, n) * Ideal(sqrt, k, n) == 2.0 * n as real / k
    ensures n > 0 ==> Ideal(sqrt, k, n) > 0.0
    ensures n == 0 ==> Ideal(sqrt, k, n) == 0.0
  {
    var x := 2.0 * n as real / k;
    DivLe(2.0 * n as real, 0.0, k);
    var u := sqrt(x);
    assert u * u == x;
    if n == 0 { SquareZero(u); }
  }

  // Untruncated time of request n: the intervals of requests 1..n.
  function SumOfIntervals(sqrt: real -> real, k: real, n: nat): real
    requires IsSqrt(sqrt) && k > 0.0
  {
    if n == 0 then 0.0
    else IdealSquare(sqrt, k, n); SumOfIntervals(sqrt, k, n - 1) + 1.0 / RateAt(sqrt, k, n)
  }

  // A gap between consecutive ideal times, bounded by an interval on either side.
  lemma Gap(sqrt: real -> real, k: real, n: nat)
    requires IsSqrt(sqrt) && k > 0.0
    ensures RateAt(sqrt, k, n + 1) > 0.0
    ensures 1.0 / RateAt(sqrt, k, n + 1) <= Ideal(sqrt, k, n + 1) - Ideal(sqrt, k, n)
    ensures n > 0 ==> RateAt(sqrt, k, n) > 0.0
                      && Ideal(sqrt, k, n + 1) - Ideal(sqrt, k, n) <= 1.0 / RateAt(sqrt, k, n)
  {
    IdealSquare(sqrt, k, n);
    IdealSquare(sqrt, k, n + 1);
    SquareStep(k, n);
    GapOfRoots(k, Ideal(sqrt, k, n), Ideal(sqrt, k, n + 1));
  }

  lemma GapOfRoots(k: real, u: real, v: real)
    requires k > 0.0 && u >= 0.0 && v > 0.0 && 2.0 / k > 0.0
    requires v * v - u * u == 2.0 / k
    ensures k * v > 0.0 && 1.0 / (k * v) <= v - u
    ensures u > 0.0 ==> k * u > 0.0 && v - u <= 1.0 / (k * u)
  {
    SquareGrows(u, v, 2.0 / k);
    RootDifference(v, u, 2.0 / k);
    DivProduct(k, v);
    if u > 0.0 { DivProduct(k, u); }
  }

  // The sum of intervals never runs ahead of the ideal time by more than the first ideal gap,
  // and never behind it.
  lemma {:induction false} SumAccuracy(sqrt: real -> real, k: real, n: nat)
    requires IsSqrt(sqrt) && k > 0.0
    ensures SumOfIntervals(sqrt, k, n) <= Ideal(sqrt, k, n)
    ensures Ideal(sqrt, k, n + 1) - Ideal(sqrt, k, 1) <= SumOfIntervals(sqrt, k, n)
  {
    if n == 0 {
      IdealSquare(sqrt, k, 0);
    } else {
      SumAccuracy(sqrt, k, n - 1);
      Gap(sqrt, k, n - 1);
      Gap(sqrt, k, n);
    }
  }

  lemma RateSquare(sqrt: real -> real, k: real, n: nat)
    requires IsSqrt(sqrt) && k > 0.0
    ensures RateAt(sqrt, k, n) >= 0.0
    ensures RateAt(sqrt, k, n) * RateAt(sqrt, k, n) == 2.0 * k * n as real
  {
    var u := Ideal(sqrt, k, n);
    IdealSquare(sqrt, k, n);
    var q := 2.0 * n as real / k;
    assert q * k == 2.0 * n as real;
    calc {
      (k * u) * (k * u);
      k * k * (u * u);
      k * k * q;
      k * (q * k);
      k * (2.0 * n as real);
      2.0 * k * n as real;
    }
  }
}
