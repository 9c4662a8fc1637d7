/** From which level on a ramp that starts from zero is never left: the whole nanoseconds of its intervals,
    counted layer by layer. */
module RampThreshold {
  import opened OpenRamp
  import opened OpenSchedule
  import opened OpenTermination
  import opened RealFacts
  import opened Scenario

  // Request n of a ramp of slope k is asked for at the rate sqrt(2kn); n times its interval squared, in
  // nanoseconds, is this.
  function Share(k: real): (s: real)
    requires k > 0.0
    ensures s > 0.0 && s * (2.0 * k) == SECOND as real * SECOND as real
  {
    DivLe(SECOND as real * SECOND as real, 0.0, 2.0 * k);
    SECOND as real * SECOND as real / (2.0 * k)
  }

  function Square(m: nat): real { m as real * m as real }

  // How many requests have an interval of at least m nanoseconds.
  function Layer(k: real, m: nat): nat
    requires k > 0.0 && m > 0
  {
    assert Square(m) > 0.0;
    DivLe(Share(k), 0.0, Square(m));
    (Share(k) / Square(m)).Floor
  }

  lemma WholeNanos(rate: real, m: nat)
    requires rate > 0.0
    ensures Nanos(Inverse(rate)) >= m <==> m as real * rate <= SECOND as real
  {
    var x := SECOND as real / rate;
    assert Inverse(rate) * SECOND as real == x;
    DivLe(SECOND as real, m as real, rate);
    assert x.Floor >= m <==> x >= m as real;
  }

  lemma LayerOfRate(k: real, n: nat, m: nat, rate: real)
    requires k > 0.0 && m > 0 && rate > 0.0 && rate * rate == 2.0 * k * n as real
    ensures Nanos(Inverse(rate)) >= m <==> n <= Layer(k, m)
  {
    WholeNanos(rate, m);
    SlowEnough(rate, m);
    InLayer(k, n, m, rate * rate);
  }

  lemma LayerIff(sqrt: real -> real, k: real, n: nat, m: nat)
    requires IsSqrt(sqrt) && k > 0.0 && n > 0 && m > 0
    ensures Nanos(Inverse(RateAt(sqrt, k, n))) >= m <==> n <= Layer(k, m)
  {
    Gap(sqrt, k, n - 1);
    RateSquare(sqrt, k, n);
    LayerOfRate(k, n, m, RateAt(sqrt, k, n));
  }

  lemma SlowEnough(rate: real, m: nat)
    requires rate >= 0.0
    ensures m as real * rate <= SECOND as real <==> Square(m) * (rate * rate) <= SECOND as real * SECOND as real
  {
    MulLe(0.0, m as real, rate);
    SquareOrder(m as real * rate, SECOND as real);
    ProductSquare(m as real, rate);
  }

  lemma ProductSquare(x: real, y: real)
    ensures (x * y) * (x * y) == x * x * (y * y)
  {}

  lemma InLayer(k: real, n: nat, m: nat, square: real)
    requires k > 0.0 && m > 0 && square == 2.0 * k * n as real
    ensures Square(m) * square <= SECOND as real * SECOND as real <==> n <= Layer(k, m)
  {
    var s, q := Share(k), Share(k) / Square(m);
    assert Square(m) > 0.0;
    DivLe(s, n as real, Square(m));
    assert n <= Layer(k, m) <==> n as real <= q;
    Scaled(n as real * Square(m), s, 2.0 * k);
    assert n as real * Square(m) * (2.0 * k) == Square(m) * square;
  }

  lemma Scaled(x: real, y: real, z: real)
    requires z > 0.0
    ensures x <= y <==> x * z <= y * z
  {
    if x < y { MulLt(x, y, z); } else if y < x { MulLt(y, x, z); }
  }

  // ---------------------------------------------------------------- the sum of the intervals, layer by layer

  function Min(a: int, b: int): int { if a <= b then a else b }

  // What the first n requests have in the first m layers.
  function InLayers(k: real, n: nat, m: nat): int
    requires k > 0.0
  {
    if m == 0 then 0 else InLayers(k, n, m - 1) + Min(n, Layer(k, m))
  }

  lemma {:induction false} OneMoreRequest(sqrt: real -> real, k: real, n: nat, m: nat)
    requires IsSqrt(sqrt) && k > 0.0 && n > 0
    ensures Nanos(Inverse(RateAt(sqrt, k, n))) >= 0
    ensures InLayers(k, n, m) == InLayers(k, n - 1, m) + Min(m, Nanos(Inverse(RateAt(sqrt, k, n))))
  {
    WholeIff(sqrt, k, n);
    if m > 0 {
      OneMoreRequest(sqrt, k, n, m - 1);
      LayerIff(sqrt, k, n, m);
    }
  }

  lemma {:induction false} NothingYet(k: real, m: nat)
    requires k > 0.0
    ensures InLayers(k, 0, m) == 0
  {
    if m > 0 { NothingYet(k, m - 1); }
  }

  lemma {:induction false} SumInLayers(sqrt: real -> real, k: real, n: nat, m: nat)
    requires IsSqrt(sqrt) && k > 0.0
    ensures CutSum(sqrt, k, n) >= InLayers(k, n, m)
    ensures Layer(k, m + 1) == 0 ==> CutSum(sqrt, k, n) == InLayers(k, n, m)
  {
    if n == 0 {
      NothingYet(k, m);
    } else {
      SumInLayers(sqrt, k, n - 1, m);
      OneMoreRequest(sqrt, k, n, m);
      LayerIff(sqrt, k, n, m + 1);
    }
  }

  // All requests with an interval of at least one, two, ... m nanoseconds.
  function LayerSum(k: real, m: nat): int
    requires k > 0.0
  {
    if m == 0 then 0 else LayerSum(k, m - 1) + Layer(k, m)
  }

  lemma LayersShrink(k: real, m: nat)
    requires k > 0.0 && m > 0
    ensures Layer(k, m) <= LastWhole(k)
  {
    var q := Share(k) / Square(m);
    MulLe(1.0, m as real, m as real);
    assert Square(m) >= 1.0;
    DivLe(Share(k), 0.0, Square(m));
    MulLe(1.0, Square(m), q);
    assert q * Square(m) == Share(k);
  }

  lemma {:induction false} AllInLayers(k: real, m: nat)
    requires k > 0.0
    ensures InLayers(k, LastWhole(k), m) == LayerSum(k, m)
  {
    if m > 0 {
      AllInLayers(k, m - 1);
      LayersShrink(k, m);
    }
  }

  lemma LayersEnd(k: real)
    requires k > 0.0
    ensures Layer(k, LastWhole(k) + 1) == 0
  {
    var n := LastWhole(k) + 1;
    assert Share(k) < n as real;
    MulLe(1.0, n as real, n as real);
    assert Share(k) < Square(n);
    DivLt(Share(k), 1.0, Square(n));
  }

  // The whole nanoseconds of all the intervals of a ramp are the sum of the layers 10^18/(2k*m*m), each cut to a
  // whole number: all of them, and at least those of any number of layers.
  lemma RampSumIsLayers(sqrt: real -> real, k: real, m: nat)
    requires IsSqrt(sqrt) && k > 0.0
    ensures CutSum(sqrt, k, LastWhole(k)) == LayerSum(k, LastWhole(k))
    ensures CutSum(sqrt, k, LastWhole(k)) >= LayerSum(k, m)
  {
    LayersEnd(k);
    SumInLayers(sqrt, k, LastWhole(k), LastWhole(k));
    SumInLayers(sqrt, k, LastWhole(k), m);
    AllInLayers(k, LastWhole(k));
    AllInLayers(k, m);
  }

  // So what decides about a ramp at the front is known without any roots.
  lemma RampPassesIff(sqrt: real -> real, step: Level)
    requires IsSqrt(sqrt) && Rising(step)
    ensures Slope(step) > 0.0
    ensures RampPasses(sqrt, step, 0) <==> LayerSum(Slope(step), LastWhole(Slope(step))) > step.duration
  {
    RisingSlope(step);
    RampSumIsLayers(sqrt, Slope(step), 0);
  }

  // ---------------------------------------------------------------- the sum of inverse squares

  function Squares(m: nat): real {
    if m == 0 then 0.0 else Squares(m - 1) + 1.0 / Square(m)
  }

  // The first m layers, not cut.
  function Exact(k: real, m: nat): real
    requires k > 0.0
  {
    Share(k) * Squares(m)
  }

  lemma ExactNext(k: real, m: nat)
    requires k > 0.0 && m > 0
    ensures Exact(k, m) == Exact(k, m - 1) + Share(k) / Square(m)
  {
    OneLayer(Share(k), Square(m), Squares(m - 1));
  }

  lemma {:induction false} LayerBounds(k: real, m: nat)
    requires k > 0.0
    ensures Exact(k, m) - m as real <= LayerSum(k, m) as real <= Exact(k, m)
    ensures m > 0 ==> Exact(k, m) - m as real < LayerSum(k, m) as real
  {
    if m > 0 {
      LayerBounds(k, m - 1);
      ExactNext(k, m);
      CutOne(Exact(k, m - 1), Share(k) / Square(m), LayerSum(k, m - 1), m - 1);
    }
  }

  lemma CutOne(exact: real, x: real, sum: int, m: nat)
    requires exact - m as real <= sum as real <= exact
    ensures exact + x - (m + 1) as real < (sum + x.Floor) as real <= exact + x
  {}

  lemma OneLayer(s: real, square: real, sum: real)
    requires s > 0.0 && square > 0.0
    ensures s * (sum + 1.0 / square) == s * sum + s / square
  {
    var i := 1.0 / square;
    assert i * square == 1.0;
    assert s * i * square == s;
  }

  lemma Around(e: real)
    ensures (e - 0.5) * (e + 0.5) == e * e - 0.25
  {}

  lemma SquareOfSum(m: real, d: real)
    ensures (m + d) * (m + d) == m * m + (2.0 * m * d + d * d)
  {}

  // 1/(m*m) lies between differences of 1/x around m.
  lemma Below(m: real)
    requires m >= 1.0
    ensures m * m > 0.0 && 1.0 / (m * m) <= 1.0 / (m - 0.5) - 1.0 / (m + 0.5)
  {
    MulLt(0.0, m, m);
    Around(m);
    MulLt(0.0, m - 0.5, m + 0.5);
    DifferenceOfInverses(m - 0.5, m + 0.5);
    InverseOrder((m - 0.5) * (m + 0.5), m * m);
  }

  lemma Above(m: real, d: real)
    requires m >= 1.0 && d >= 0.0 && 2.0 * m * d + d * d >= 0.25
    ensures m * m > 0.0 && 1.0 / (m * m) >= 1.0 / (m + d - 0.5) - 1.0 / (m + d + 0.5)
  {
    MulLt(0.0, m, m);
    Around(m + d);
    SquareOfSum(m, d);
    DifferenceOfInverses(m + d - 0.5, m + d + 0.5);
    InverseOrder(m * m, (m + d - 0.5) * (m + d + 0.5));
  }

  lemma DifferenceOfInverses(a: real, b: real)
    requires 0.0 < a && b == a + 1.0
    ensures 1.0 / a - 1.0 / b == 1.0 / (a * b)
  {
    var x, y := 1.0 / a, 1.0 / b;
    assert x * a == 1.0 && y * b == 1.0;
    assert a * b > 0.0 by { MulLt(0.0, a, b); }
    var z := x - y;
    assert z * (a * b) == (x * a) * b - (y * b) * a;
    DivLe(1.0, z, a * b);
  }

  lemma InverseOrder(a: real, b: real)
    requires 0.0 < a <= b
    ensures 1.0 / b <= 1.0 / a
  {
    var x := 1.0 / a;
    assert x * a == 1.0;
    DivLe(1.0, 0.0, a);
    MulLe(a, b, x);
    DivLe(1.0, x, b);
  }

  lemma {:induction false} SquaresGrow(m: nat, n: nat)
    requires m <= n
    ensures Squares(m) <= Squares(n)
    decreases n
  {
    if m < n {
      SquaresGrow(m, n - 1);
      assert Square(n) > 0.0;
      DivLe(1.0, 0.0, Square(n));
    }
  }

  // The inverse of the middle between m and the next number.
  function Middle(m: nat): real { 1.0 / (m as real + 0.5) }

  lemma BelowMiddles(n: nat)
    requires n > 0
    ensures 1.0 / Square(n) <= Middle(n - 1) - Middle(n)
  {
    Below(n as real);
    assert n as real - 0.5 == (n - 1) as real + 0.5;
  }

  // The sum goes on from m to n by at most this.
  lemma {:induction false} SquaresAtMost(m: nat, n: nat)
    requires m <= n
    ensures Squares(n) <= Squares(m) + Middle(m) - Middle(n)
    decreases n
  {
    if m < n {
      SquaresAtMost(m, n - 1);
      BelowMiddles(n);
    }
  }

  // More than the sum of all inverse squares.
  function SquaresBound(m: nat): real { Squares(m) + Middle(m) }

  lemma AllSquares(m: nat, n: nat)
    ensures Squares(n) <= SquaresBound(m)
  {
    DivLe(1.0, 0.0, m as real + 0.5);
    DivLe(1.0, 0.0, n as real + 0.5);
    if n <= m { SquaresGrow(n, m); } else { SquaresAtMost(m, n); }
  }

  // More than all the layers.
  function Bound(k: real, m: nat): real
    requires k > 0.0
  {
    Share(k) * SquaresBound(m)
  }

  lemma ExactBelow(k: real, m: nat, n: nat)
    requires k > 0.0
    ensures Exact(k, n) <= Bound(k, m)
  {
    AllSquares(m, n);
    Shares(Share(k), Squares(n), SquaresBound(m));
  }

  lemma Shares(s: real, a: real, b: real)
    requires s > 0.0 && a <= b
    ensures s * a <= s * b
  {
    MulLe(a, b, s);
  }

  lemma AllLayers(k: real, m: nat, n: nat)
    requires k > 0.0
    ensures LayerSum(k, n) as real <= Bound(k, m)
  {
    LayerBounds(k, n);
    ExactBelow(k, m, n);
  }

  // And from the tenth on by at least this.
  lemma {:induction false} SquaresAtLeast(m: nat, n: nat)
    requires 10 <= m <= n
    ensures Squares(n) >= Squares(m) + 1.0 / (m as real + 0.5125) - 1.0 / (n as real + 0.5125)
    decreases n
  {
    if m < n {
      SquaresAtLeast(m, n - 1);
      Above(n as real, 0.0125);
    }
  }

  // ---------------------------------------------------------------- ramps that are left, and ramps that are not

  // Levels instead of sums: what a ramp of slope k takes to reach a level, in nanoseconds.
  lemma TimeToLevel(k: real, level: real, x: real)
    requires k > 0.0
    ensures level * SECOND as real / k <= x <==> level <= x * k / SECOND as real
    ensures x <= level * SECOND as real / k <==> x * k / SECOND as real <= level
  {
    DivLe(level * SECOND as real, x, k);
    DivLe(x * k, level, SECOND as real);
    DivLe(level, x * k / SECOND as real, 1.0);
    var y := x * k / SECOND as real;
    assert y * SECOND as real == x * k;
    Scaled(level, y, SECOND as real);
    Scaled(y, level, SECOND as real);
  }

  lemma DurationOfRamp(step: Level)
    requires step.levelStart == 0.0 && step.levelEnd > 0.0 && step.duration > 0
    ensures Slope(step) > 0.0 && step.duration as real == step.levelEnd * SECOND as real / Slope(step)
  {
    RampSlope(step);
    var k, d := Slope(step), step.duration as real;
    assert k * d == step.levelEnd * SECOND as real;
    DivLe(step.levelEnd * SECOND as real, d, k);
  }

  // The share as a level.
  lemma ShareLevel(k: real, sum: real)
    requires k > 0.0
    ensures Share(k) * sum * k / SECOND as real == 500_000_000.0 * sum
  {
    var s := Share(k);
    assert s * k == SECOND as real * SECOND as real / 2.0;
    assert s * sum * k == s * k * sum;
  }

  lemma LossLevel(k: real, x: real, m: nat)
    ensures (x - m as real) * k / SECOND as real == x * k / SECOND as real - m as real * k / SECOND as real
  {
    assert (x - m as real) * k == x * k - m as real * k;
  }

  lemma LowLevel(k: real, level: real, m: nat)
    requires k > 0.0 && level + m as real * k / SECOND as real <= 500_000_000.0 * Squares(m)
    ensures level * SECOND as real / k <= Exact(k, m) - m as real
  {
    ShareLevel(k, Squares(m));
    LossLevel(k, Exact(k, m), m);
    TimeToLevel(k, level, Exact(k, m) - m as real);
  }

  lemma HighLevel(k: real, level: real, m: nat)
    requires k > 0.0 && level >= 500_000_000.0 * SquaresBound(m)
    ensures Bound(k, m) <= level * SECOND as real / k
  {
    ShareLevel(k, SquaresBound(m));
    TimeToLevel(k, level, Bound(k, m));
  }

  // A ramp to a level that is, with the loss of m nanoseconds, below the first m layers is left.
  lemma SlowRampPasses(sqrt: real -> real, step: Level, m: nat)
    requires IsSqrt(sqrt) && step.levelStart == 0.0 && step.levelEnd > 0.0 && step.duration > 0 && m > 0
    requires Slope(step) > 0.0
    requires step.levelEnd + m as real * Slope(step) / SECOND as real <= 500_000_000.0 * Squares(m)
    ensures RampPasses(sqrt, step, 0)
  {
    DurationOfRamp(step);
    RampSumIsLayers(sqrt, Slope(step), m);
    LayerBounds(Slope(step), m);
    LowLevel(Slope(step), step.levelEnd, m);
    assert CutSum(sqrt, Slope(step), LastWhole(Slope(step))) > step.duration;
  }

  // A ramp to a level at or above all the layers is not.
  lemma FastRampStays(sqrt: real -> real, step: Level, m: nat)
    requires IsSqrt(sqrt) && step.levelStart == 0.0 && step.levelEnd > 0.0 && step.duration > 0
    requires step.levelEnd >= 500_000_000.0 * SquaresBound(m)
    ensures !RampPasses(sqrt, step, 0)
  {
    DurationOfRamp(step);
    var k := Slope(step);
    RampSumIsLayers(sqrt, k, m);
    AllLayers(k, m, LastWhole(k));
    HighLevel(k, step.levelEnd, m);
    assert CutSum(sqrt, k, LastWhole(k)) <= step.duration;
  }

  lemma TenSquares()
    ensures 1.5497677 <= Squares(10) <= 1.5497678
  {
    assert Squares(5) == 1.0 + 1.0 / 4.0 + 1.0 / 9.0 + 1.0 / 16.0 + 1.0 / 25.0;
  }

  // Up to 821 million a second in a millisecond or more, every ramp from zero is left.
  lemma RampWithinLayers(sqrt: real -> real, step: Level)
    requires IsSqrt(sqrt) && step.levelStart == 0.0 && 0.0 < step.levelEnd <= 821_000_000.0
    requires step.duration >= 1_000_000
    ensures RampPasses(sqrt, step, 0)
  {
    var k, d := Slope(step), step.duration as real / SECOND as real;
    RampSlope(step);
    calc { k * 0.001; == 0.001 * k; <= { MulLe(0.001, d, k); } d * k; == k * d; <= 821_000_000.0; }
    TenSquares();
    SquaresAtLeast(10, 780);
    assert Squares(780) >= 1.643611;
    SlowRampPasses(sqrt, step, 780);
  }

  // From 822.6 million a second on, none is: half of 10^9 times the sum of all inverse squares.
  lemma RampAboveAllLayers(sqrt: real -> real, step: Level)
    requires IsSqrt(sqrt) && step.levelStart == 0.0 && step.levelEnd >= 822_600_000.0 && step.duration > 0
    ensures !RampPasses(sqrt, step, 0)
  {
    TenSquares();
    FastRampStays(sqrt, step, 10);
  }
}
