/** When the open-workload generator ends, and how it follows a ramp that starts from zero. */
module OpenTermination {
  import opened Prelude
  import opened Scenario
  import opened OpenRamp
  import opened OpenSchedule
  import opened RealFacts

  ghost predicate ConstantFrom(scn: seq<Level>, j: nat) {
    forall i :: j <= i < |scn| ==> Constant(scn[i])
  }

  predicate ServableFrom(scn: seq<Level>, j: nat) {
    forall i :: j <= i < |scn| ==> Servable(scn[i])
  }

  lemma ServableIsSteady(sqrt: real -> real, step: Level)
    requires Constant(step) && step.duration >= 0
    ensures Servable(step) <==> SteadyStep(OpenClock(sqrt), step)
    ensures step.levelEnd > 0.0 && !Servable(step) ==> Ticks(OpenClock(sqrt), step, 0)
    ensures step.levelEnd <= 0.0 ==> forall c: nat :: OpenClock(sqrt)(step, c) == 0.0
  {
    InverseSign(step.levelEnd);
    if step.levelEnd > 0.0 {
      QuantumPositive(step);
      ConstantTicks(sqrt, step);
    } else {
      assert OpenClock(sqrt)(step, 0) == 0.0;
    }
  }

  // A clock that does not advance keeps the generator where it is, emitting the same offset for ever.
  lemma {:induction false} Frozen(clock: Clock, scn: seq<Level>, n: nat, j: nat, f: int, i: nat)
    requires AtStep(clock, scn, n, j, f) && j < |scn| && scn[j].duration >= 0
    requires forall c: nat :: Nanos(clock(scn[j], c)) == 0
    requires f == 0 || forall c: nat :: clock(scn[j], c) != 0.0
    ensures After(clock, scn, n + i) == Some(Gen(j, n + i, f, f))
  {
    if i > 0 {
      Frozen(clock, scn, n, j, f, i - 1);
      assert Nanos(clock(scn[j], n + i - 1)) == 0;
    }
  }

  lemma Panics(clock: Clock, scn: seq<Level>, n: nat, j: nat, f: int)
    requires AtStep(clock, scn, n, j, f) && j < |scn| && f != 0
    requires clock(scn[j], n) == 0.0
    ensures Next(clock, scn, Gen(j, n, f, f)) == Stuck && After(clock, scn, n + 1) == None
  {}

  // A constant step that is not servable is never left: the generator either panics or stays in it.
  lemma NeverLeaves(sqrt: real -> real, scn: seq<Level>, n: nat, j: nat, f: int, m: nat)
    requires AtStep(OpenClock(sqrt), scn, n, j, f) && j < |scn|
    requires Constant(scn[j]) && scn[j].duration >= 0 && !Servable(scn[j])
    ensures !EndsAfter(OpenClock(sqrt), scn, m)
  {
    OpenClockNeverNegative(sqrt);
    ServableIsSteady(sqrt, scn[j]);
    if scn[j].levelEnd > 0.0 {
      StandsStill(OpenClock(sqrt), scn, n, j, f, m);
    } else {
      NoRate(OpenClock(sqrt), scn, n, j, f, m);
    }
  }

  lemma StandsStill(clock: Clock, scn: seq<Level>, n: nat, j: nat, f: int, m: nat)
    requires NeverNegative(clock) && AtStep(clock, scn, n, j, f) && j < |scn| && scn[j].duration >= 0
    requires Ticks(clock, scn[j], 0)
    ensures !EndsAfter(clock, scn, m)
  {
    if After(clock, scn, m).Some? {
      if m <= n { OffsetsNeverDecrease(clock, scn, m, n); } else { Frozen(clock, scn, n, j, f, m - n); }
    }
  }

  lemma NoRate(clock: Clock, scn: seq<Level>, n: nat, j: nat, f: int, m: nat)
    requires NeverNegative(clock) && AtStep(clock, scn, n, j, f) && j < |scn| && scn[j].duration >= 0
    requires forall c: nat :: clock(scn[j], c) == 0.0
    ensures !EndsAfter(clock, scn, m)
  {
    if After(clock, scn, m).Some? {
      if m <= n {
        OffsetsNeverDecrease(clock, scn, m, n);
      } else if f == 0 {
        forall c: nat ensures Nanos(clock(scn[j], c)) == 0 {}
        Frozen(clock, scn, n, j, f, m - n);
      } else {
        Panics(clock, scn, n, j, f);
        OffsetsNeverDecrease(clock, scn, n + 1, m);
      }
    }
  }

  lemma UnservableNeverEnds(sqrt: real -> real, scn: seq<Level>, n: nat, j: nat, f: int)
    requires AtStep(OpenClock(sqrt), scn, n, j, f) && j < |scn|
    requires Constant(scn[j]) && scn[j].duration >= 0 && !Servable(scn[j])
    ensures !Ends(OpenClock(sqrt), scn)
  {
    forall m: nat ensures !EndsAfter(OpenClock(sqrt), scn, m) { NeverLeaves(sqrt, scn, n, j, f, m); }
  }

  lemma ServableIsPassed(sqrt: real -> real, scn: seq<Level>, n: nat, j: nat, f: int) returns (f': int)
    requires AtStep(OpenClock(sqrt), scn, n, j, f) && j < |scn|
    requires Constant(scn[j]) && scn[j].duration >= 0 && Servable(scn[j])
    ensures AtStep(OpenClock(sqrt), scn, n + TickCount(scn[j]), j + 1, f')
  {
    ServableIsSteady(sqrt, scn[j]);
    DivBounds(scn[j].duration, Quantum(scn[j]));
    TickingStep(OpenClock(sqrt), scn, n, j, f, Quantum(scn[j]));
    f' := StepEnd(scn[j], f);
  }

  // ---------------------------------------------------------------- a ramp from zero

  ghost predicate RampFirst(scn: seq<Level>) {
    |scn| > 0 && scn[0].levelStart == 0.0 && scn[0].levelEnd > 0.0 && scn[0].duration > 0
  }

  lemma RampSlope(step: Level)
    requires step.levelStart == 0.0 && step.levelEnd > 0.0 && step.duration > 0
    ensures Slope(step) > 0.0
    ensures Slope(step) * (step.duration as real / SECOND as real) == step.levelEnd
  {
    var d := step.duration as real / SECOND as real;
    assert d > 0.0;
    DivLe(step.levelEnd, 0.0, d);
  }

  lemma RampInterval(sqrt: real -> real, step: Level, n: nat)
    requires IsSqrt(sqrt)
    requires step.levelStart == 0.0 && step.levelEnd > 0.0 && step.duration > 0
    ensures Slope(step) > 0.0
    ensures n == 0 ==> OpenClock(sqrt)(step, n) == 0.0
    ensures n > 0 ==> RateAt(sqrt, Slope(step), n) > 0.0
                      && OpenClock(sqrt)(step, n) == 1.0 / RateAt(sqrt, Slope(step), n) > 0.0
  {
    RampSlope(step);
    if n == 0 {
      IdealSquare(sqrt, Slope(step), 0);
    } else {
      Gap(sqrt, Slope(step), n - 1);
      InverseSign(RateAt(sqrt, Slope(step), n));
    }
  }

  // Request n is emitted while the ramp is running.
  ghost predicate InRamp(sqrt: real -> real, scn: seq<Level>, n: nat) {
    After(OpenClock(sqrt), scn, n + 1).Some? && After(OpenClock(sqrt), scn, n).value.curStep == 0
  }

  lemma RampTurn(sqrt: real -> real, scn: seq<Level>, n: nat) returns (k: real)
    requires IsSqrt(sqrt) && RampFirst(scn) && InRamp(sqrt, scn, n)
    ensures k == Slope(scn[0]) > 0.0
    ensures n == 0 ==> After(OpenClock(sqrt), scn, n + 1).value.accum == 0
    ensures n > 0 ==> InRamp(sqrt, scn, n - 1) && RateAt(sqrt, k, n) > 0.0
                      && After(OpenClock(sqrt), scn, n + 1).value.accum
                           == After(OpenClock(sqrt), scn, n).value.accum + Nanos(1.0 / RateAt(sqrt, k, n))
  {
    var clock := OpenClock(sqrt);
    OpenClockNeverNegative(sqrt);
    k := Slope(scn[0]);
    RampInterval(sqrt, scn[0], n);
    OffsetsNeverDecrease(clock, scn, n, n + 1);
    if n > 0 { OffsetsNeverDecrease(clock, scn, n - 1, n); }
  }

  // The sum of the intervals of requests 1..n of a ramp of slope k, each cut to whole nanoseconds.
  function CutSum(sqrt: real -> real, k: real, n: nat): int
    requires k > 0.0
  {
    if n == 0 then 0 else CutSum(sqrt, k, n - 1) + Nanos(Inverse(RateAt(sqrt, k, n)))
  }

  // It is the offset of request n.
  lemma {:induction false} RampOffset(sqrt: real -> real, scn: seq<Level>, n: nat)
    requires IsSqrt(sqrt) && RampFirst(scn) && InRamp(sqrt, scn, n)
    ensures Slope(scn[0]) > 0.0
    ensures After(OpenClock(sqrt), scn, n + 1).value.accum == CutSum(sqrt, Slope(scn[0]), n)
  {
    var k := RampTurn(sqrt, scn, n);
    if n > 0 { RampOffset(sqrt, scn, n - 1); }
  }

  // Truncation loses less than a nanosecond an interval, and only there.
  lemma {:induction false} TruncationLoss(sqrt: real -> real, k: real, n: nat)
    requires IsSqrt(sqrt) && k > 0.0
    ensures Truncates(SumOfIntervals(sqrt, k, n), CutSum(sqrt, k, n), n)
  {
    if n > 0 {
      SumNext(sqrt, k, n);
      TruncationLoss(sqrt, k, n - 1);
      TruncateOne(SumOfIntervals(sqrt, k, n - 1), CutSum(sqrt, k, n - 1), n - 1, Inverse(RateAt(sqrt, k, n)));
    }
  }

  lemma SumNext(sqrt: real -> real, k: real, n: nat)
    requires IsSqrt(sqrt) && k > 0.0 && n > 0
    ensures SumOfIntervals(sqrt, k, n) == SumOfIntervals(sqrt, k, n - 1) + Inverse(RateAt(sqrt, k, n))
  {
    Gap(sqrt, k, n - 1);
  }

  // a is the sum of n truncated intervals that add up to exact seconds.
  ghost predicate Truncates(exact: real, a: int, n: nat) {
    exact * SECOND as real - n as real <= a as real <= exact * SECOND as real
    && (n > 0 ==> exact * SECOND as real - n as real < a as real)
  }

  lemma TruncateOne(exact: real, a: int, n: nat, interval: real)
    requires Truncates(exact, a, n)
    ensures Truncates(exact + interval, a + Nanos(interval), n + 1)
  {}

  // Every request of the ramp goes out no later than the profile asks for it, and earlier by no more
  // than the first ideal gap plus a nanosecond a request.
  lemma RampAccuracy(sqrt: real -> real, scn: seq<Level>, n: nat)
    requires IsSqrt(sqrt) && RampFirst(scn) && InRamp(sqrt, scn, n)
    ensures Slope(scn[0]) > 0.0
    ensures var k, a := Slope(scn[0]), After(OpenClock(sqrt), scn, n + 1).value.accum as real;
            a <= Ideal(sqrt, k, n) * SECOND as real
            && a >= (Ideal(sqrt, k, n + 1) - Ideal(sqrt, k, 1)) * SECOND as real - n as real
  {
    RampOffset(sqrt, scn, n);
    TruncationLoss(sqrt, Slope(scn[0]), n);
    SumAccuracy(sqrt, Slope(scn[0]), n);
  }

  // Requests the profile of slope k has asked for by offset a.
  function Asked(k: real, a: int): real {
    var t := a as real / SECOND as real;
    k * (t * t) / 2.0
  }

  // The same in terms of the load profile: at offset a the ramp has asked for k*a*a/2 requests, and
  // request number n (counting from 0) is out by the time it asks for n.
  lemma NoRequestIsLate(sqrt: real -> real, scn: seq<Level>, n: nat)
    requires IsSqrt(sqrt) && RampFirst(scn) && InRamp(sqrt, scn, n)
    ensures Slope(scn[0]) > 0.0
    ensures Asked(Slope(scn[0]), After(OpenClock(sqrt), scn, n + 1).value.accum) <= n as real
  {
    var k, a := NotBeforeZero(sqrt, scn, n);
    NotLate(sqrt, k, a, n);
  }

  lemma NotBeforeZero(sqrt: real -> real, scn: seq<Level>, n: nat) returns (k: real, a: int)
    requires IsSqrt(sqrt) && RampFirst(scn) && InRamp(sqrt, scn, n)
    ensures k == Slope(scn[0]) > 0.0 && a == After(OpenClock(sqrt), scn, n + 1).value.accum >= 0
    ensures a as real <= Ideal(sqrt, k, n) * SECOND as real
  {
    OpenClockNeverNegative(sqrt);
    OffsetsNeverDecrease(OpenClock(sqrt), scn, n + 1, n + 1);
    RampAccuracy(sqrt, scn, n);
    k, a := Slope(scn[0]), After(OpenClock(sqrt), scn, n + 1).value.accum;
  }

  lemma NotLate(sqrt: real -> real, k: real, a: int, n: nat)
    requires IsSqrt(sqrt) && k > 0.0 && 0 <= a && a as real <= Ideal(sqrt, k, n) * SECOND as real
    ensures Asked(k, a) <= n as real
  {
    var t, u := a as real / SECOND as real, Ideal(sqrt, k, n);
    IdealSquare(sqrt, k, n);
    SquareOrder(t, u);
    ScaleSquare(k, t, u, n as real);
  }

  lemma ScaleSquare(k: real, t: real, u: real, n: real)
    requires k > 0.0 && t * t <= u * u && u * u == 2.0 * n / k
    ensures k * (t * t) / 2.0 <= n
  {
    var x, q := t * t, 2.0 * n / k;
    assert q * k == 2.0 * n;
    MulLe(x, q, k);
    assert x * k == k * x;
  }

  // ---------------------------------------------------------------- when a ramp is left

  // The number of the last request whose interval is at least a nanosecond: it is asked for at a rate
  // of at most 10^9 a second.
  function LastWhole(k: real): nat
    requires k > 0.0
  {
    DivLe(SECOND as real * SECOND as real, 0.0, 2.0 * k);
    (SECOND as real * SECOND as real / (2.0 * k)).Floor
  }

  lemma WholeIff(sqrt: real -> real, k: real, n: nat)
    requires IsSqrt(sqrt) && k > 0.0 && n > 0
    ensures RateAt(sqrt, k, n) > 0.0 && Inverse(RateAt(sqrt, k, n)) > 0.0
    ensures RateAt(sqrt, k, n) <= SECOND as real <==> n <= LastWhole(k)
    ensures Nanos(Inverse(RateAt(sqrt, k, n))) >= (if n <= LastWhole(k) then 1 else 0)
    ensures n > LastWhole(k) ==> Nanos(Inverse(RateAt(sqrt, k, n))) == 0
  {
    var rate := RateAt(sqrt, k, n);
    Gap(sqrt, k, n - 1);
    InverseSign(rate);
    QuantumPositive(Level(rate, rate, 0));
    RateSquare(sqrt, k, n);
    SquareOrder(rate, SECOND as real);
    DivLe(n as real, SECOND as real * SECOND as real, 2.0 * k);
    DivLe(SECOND as real * SECOND as real, n as real, 2.0 * k);
    assert n as real * (2.0 * k) == 2.0 * k * n as real;
  }

  // The sum grows with every request up to that one, and then no more.
  lemma {:induction false} CutSumSettles(sqrt: real -> real, k: real, m: nat, n: nat)
    requires IsSqrt(sqrt) && k > 0.0 && m <= n
    ensures CutSum(sqrt, k, m) <= CutSum(sqrt, k, n)
    ensures m < n && m < LastWhole(k) ==> CutSum(sqrt, k, m) < CutSum(sqrt, k, n)
    ensures m >= LastWhole(k) ==> CutSum(sqrt, k, m) == CutSum(sqrt, k, n)
    decreases n - m
  {
    if m < n {
      WholeIff(sqrt, k, m + 1);
      CutSumSettles(sqrt, k, m + 1, n);
    }
  }

  // A step whose level rises. What comes of a ramp depends on its slope, and on how many requests there
  // have been before it.
  predicate Rising(step: Level) { step.levelStart < step.levelEnd && step.duration > 0 }

  lemma RisingSlope(step: Level)
    requires Rising(step)
    ensures Slope(step) > 0.0
  {
    DivLe(step.levelEnd - step.levelStart, 0.0, step.duration as real / SECOND as real);
  }

  // What an interval i of a rising step is, by levels and duration: n requests after the start of the ramp
  // that the step's slope makes, i*i*2n times the slope is one.
  lemma IntervalOfRise(sqrt: real -> real, step: Level, n: nat)
    requires IsSqrt(sqrt) && Rising(step)
    ensures n == 0 ==> OpenClock(sqrt)(step, n) == 0.0
    ensures n > 0 ==>
              var i := OpenClock(sqrt)(step, n);
              i > 0.0
              && i * i * (2.0 * n as real) * ((step.levelEnd - step.levelStart) * SECOND as real)
                   == step.duration as real
  {
    RisingSlope(step);
    if n == 0 {
      IdealSquare(sqrt, Slope(step), 0);
    } else {
      SlopeTimesDuration(step);
      IntervalBySlope(sqrt, Slope(step), n, step.duration as real,
                      (step.levelEnd - step.levelStart) * SECOND as real);
    }
  }

  lemma IntervalBySlope(sqrt: real -> real, k: real, n: nat, d: real, rise: real)
    requires IsSqrt(sqrt) && k > 0.0 && n > 0 && k * d == rise
    ensures var i := Inverse(RateAt(sqrt, k, n)); i > 0.0 && i * i * (2.0 * n as real) * rise == d
  {
    Gap(sqrt, k, n - 1);
    InverseSign(RateAt(sqrt, k, n));
    RateSquare(sqrt, k, n);
    IntervalByRate(Inverse(RateAt(sqrt, k, n)), RateAt(sqrt, k, n), k, n as real, d, rise);
  }

  lemma IntervalByRate(i: real, rate: real, k: real, n: real, d: real, rise: real)
    requires i * rate == 1.0 && rate * rate == 2.0 * k * n && k * d == rise
    ensures i * i * (2.0 * n) * rise == d
  {
    InverseSquare(i, rate, 2.0 * k * n);
    Regroup(i * i, n, k, d);
  }

  lemma SlopeTimesDuration(step: Level)
    requires Rising(step)
    ensures Slope(step) * step.duration as real == (step.levelEnd - step.levelStart) * SECOND as real
  {
    var d := step.duration as real / SECOND as real;
    assert d > 0.0 && d * SECOND as real == step.duration as real;
    assert Slope(step) * d == step.levelEnd - step.levelStart;
  }

  lemma InverseSquare(i: real, rate: real, square: real)
    requires i * rate == 1.0 && rate * rate == square
    ensures i * i * square == 1.0
  {
    assert i * i * (rate * rate) == (i * rate) * (i * rate);
  }

  lemma Regroup(square: real, n: real, k: real, d: real)
    requires square * (2.0 * k * n) == 1.0
    ensures square * (2.0 * n) * (k * d) == d
  {
    calc {
      square * (2.0 * n) * (k * d);
      square * (2.0 * k * n) * d;
      d;
    }
  }

  // And of a step that stands still or falls.
  lemma IntervalOtherwise(sqrt: real -> real, step: Level, n: nat)
    requires !Rising(step) && step.duration >= 0
    ensures var i := OpenClock(sqrt)(step, n);
            if step.levelStart == step.levelEnd > 0.0 then i > 0.0 && i * step.levelEnd == 1.0 else i == 0.0
  {
    if step.levelStart == step.levelEnd { InverseSign(step.levelEnd); }
    if step.levelStart > step.levelEnd && step.duration > 0 { FallingSlope(step); }
  }

  // The whole nanoseconds of the intervals of the first n requests, if all are those of one ramp; the
  // first of all has none.
  function Spent(sqrt: real -> real, k: real, n: nat): int
    requires k > 0.0
  {
    if n == 0 then 0 else CutSum(sqrt, k, n - 1)
  }

  // What decides whether a ramp is left can be computed beforehand: the whole nanoseconds of all its
  // intervals, those of the first n requests apart, have to be more than its duration.
  predicate RampPasses(sqrt: real -> real, step: Level, n: nat)
    requires Rising(step)
  {
    RisingSlope(step);
    CutSum(sqrt, Slope(step), LastWhole(Slope(step))) > step.duration + Spent(sqrt, Slope(step), n)
  }

  lemma RampClock(sqrt: real -> real, step: Level, n: nat)
    requires IsSqrt(sqrt) && Rising(step)
    ensures Slope(step) > 0.0 && OpenClock(sqrt)(step, n) >= 0.0
    ensures n > 0 ==> OpenClock(sqrt)(step, n) > 0.0
    ensures Spent(sqrt, Slope(step), n + 1) == Spent(sqrt, Slope(step), n) + Nanos(OpenClock(sqrt)(step, n))
  {
    RisingSlope(step);
    if n > 0 { WholeIff(sqrt, Slope(step), n); } else { IdealSquare(sqrt, Slope(step), 0); }
  }

  // One turn, with an interval that does not stop the generator.
  lemma OneTurnOn(clock: Clock, scn: seq<Level>, g: Gen, b: int)
    requires g.curStep < |scn| && After(clock, scn, g.cnt) == Some(g)
    requires clock(scn[g.curStep], g.cnt) > 0.0 || g.accum == 0
    requires b == g.accum + Nanos(clock(scn[g.curStep], g.cnt))
    ensures After(clock, scn, g.cnt + 1)
         == Some(if b > g.finished + scn[g.curStep].duration then Gen(g.curStep + 1, g.cnt + 1, b, b)
                 else g.(cnt := g.cnt + 1, accum := b))
  {}

  // The generator in a ramp that it entered with n requests, at offset f, and now it has made m.
  function InRampAt(sqrt: real -> real, k: real, n: nat, j: nat, f: int, m: nat): Gen
    requires k > 0.0
  {
    Gen(j, m, f + Spent(sqrt, k, m) - Spent(sqrt, k, n), f)
  }

  lemma SpentGrows(sqrt: real -> real, k: real, m: nat, n: nat)
    requires IsSqrt(sqrt) && k > 0.0 && m <= n
    ensures 0 <= Spent(sqrt, k, m) <= Spent(sqrt, k, n) <= CutSum(sqrt, k, LastWhole(k))
  {
    CutSumSettles(sqrt, k, 0, if m == 0 then 0 else m - 1);
    if n > 0 {
      CutSumSettles(sqrt, k, if m == 0 then 0 else m - 1, n - 1);
      CutSumBound(sqrt, k, n - 1);
    } else {
      CutSumBound(sqrt, k, 0);
    }
  }

  // What a clock spends in a step, request by request; only the very first may take no time.
  ghost predicate Spends(clock: Clock, step: Level, spent: nat -> int) {
    forall i: nat :: SpendsAt(clock, step, spent, i)
  }

  ghost predicate SpendsAt(clock: Clock, step: Level, spent: nat -> int, i: nat) {
    spent(i) <= spent(i + 1) == spent(i) + Nanos(clock(step, i)) && (i > 0 ==> clock(step, i) > 0.0)
  }

  lemma NextTurn(clock: Clock, scn: seq<Level>, g: Gen, spent: nat -> int)
    requires g.curStep < |scn| && After(clock, scn, g.cnt) == Some(g) && SpendsAt(clock, scn[g.curStep], spent, g.cnt)
    requires g.accum + spent(g.cnt + 1) - spent(g.cnt) <= g.finished + scn[g.curStep].duration
    ensures After(clock, scn, g.cnt + 1)
         == Some(g.(cnt := g.cnt + 1, accum := g.accum + spent(g.cnt + 1) - spent(g.cnt)))
  {
    OneTurnOn(clock, scn, g, g.accum + spent(g.cnt + 1) - spent(g.cnt));
  }

  lemma {:induction false} StaysWhile(clock: Clock, scn: seq<Level>, n: nat, j: nat, f: int, m: nat, spent: nat -> int)
    requires AtStep(clock, scn, n, j, f) && j < |scn| && n <= m
    requires Spends(clock, scn[j], spent) && spent(m) - spent(n) <= scn[j].duration
    ensures After(clock, scn, m) == Some(Gen(j, m, f + spent(m) - spent(n), f))
    decreases m
  {
    if n < m {
      var i := m - 1;
      assert SpendsAt(clock, scn[j], spent, i) && i + 1 == m;
      StaysWhile(clock, scn, n, j, f, i, spent);
      NextTurn(clock, scn, Gen(j, i, f + spent(i) - spent(n), f), spent);
    }
  }

  function SpentBy(sqrt: real -> real, k: real): nat -> int
    requires k > 0.0
  {
    (i: nat) => Spent(sqrt, k, i)
  }

  lemma RampSpends(sqrt: real -> real, step: Level)
    requires IsSqrt(sqrt) && Rising(step)
    ensures Slope(step) > 0.0 && Spends(OpenClock(sqrt), step, SpentBy(sqrt, Slope(step)))
  {
    RisingSlope(step);
    forall i: nat ensures SpendsAt(OpenClock(sqrt), step, SpentBy(sqrt, Slope(step)), i) {
      RampClock(sqrt, step, i);
      SpentGrows(sqrt, Slope(step), i, i + 1);
    }
  }

  // As long as what has been spent is within the duration, the generator is in the ramp.
  lemma StaysInRamp(sqrt: real -> real, scn: seq<Level>, n: nat, j: nat, f: int, m: nat)
    requires IsSqrt(sqrt) && AtStep(OpenClock(sqrt), scn, n, j, f) && j < |scn| && Rising(scn[j]) && n <= m
    requires Slope(scn[j]) > 0.0
    requires Spent(sqrt, Slope(scn[j]), m) - Spent(sqrt, Slope(scn[j]), n) <= scn[j].duration
    ensures After(OpenClock(sqrt), scn, m) == Some(InRampAt(sqrt, Slope(scn[j]), n, j, f, m))
  {
    RampSpends(sqrt, scn[j]);
    StaysWhile(OpenClock(sqrt), scn, n, j, f, m, SpentBy(sqrt, Slope(scn[j])));
  }

  // The number of the request that goes past a sum of nanoseconds.
  function FirstPast(sqrt: real -> real, k: real, sum: int, m: nat): (r: nat)
    requires k > 0.0 && CutSum(sqrt, k, m) > sum >= 0
    ensures 0 < r <= m && CutSum(sqrt, k, r - 1) <= sum < CutSum(sqrt, k, r)
  {
    if CutSum(sqrt, k, m - 1) > sum then FirstPast(sqrt, k, sum, m - 1) else m
  }

  lemma PastIsLater(sqrt: real -> real, k: real, sum: int, n: nat, m: nat)
    requires IsSqrt(sqrt) && k > 0.0 && Spent(sqrt, k, n) <= sum < CutSum(sqrt, k, m)
    ensures n <= m
  {
    if m < n { CutSumSettles(sqrt, k, m, n - 1); }
  }

  // How many requests there have been when a ramp entered with n of them is left.
  function AfterRamp(sqrt: real -> real, step: Level, n: nat): (r: nat)
    requires IsSqrt(sqrt) && Rising(step) && RampPasses(sqrt, step, n)
    ensures r > n
  {
    RisingSlope(step);
    var k := Slope(step);
    SpentGrows(sqrt, k, n, n);
    var m := FirstPast(sqrt, k, step.duration + Spent(sqrt, k, n), LastWhole(k));
    PastIsLater(sqrt, k, step.duration + Spent(sqrt, k, n), n, m);
    m + 1
  }

  lemma RampIsLeft(sqrt: real -> real, scn: seq<Level>, n: nat, j: nat, f: int) returns (f': int)
    requires IsSqrt(sqrt) && AtStep(OpenClock(sqrt), scn, n, j, f) && j < |scn|
    requires Rising(scn[j]) && RampPasses(sqrt, scn[j], n)
    ensures AtStep(OpenClock(sqrt), scn, AfterRamp(sqrt, scn[j], n), j + 1, f')
  {
    RisingSlope(scn[j]);
    var k, m := Slope(scn[j]), AfterRamp(sqrt, scn[j], n) - 1;
    SpentGrows(sqrt, k, n, n);
    StaysInRamp(sqrt, scn, n, j, f, m);
    RampClock(sqrt, scn[j], m);
    var g := InRampAt(sqrt, k, n, j, f, m);
    f' := g.accum + Nanos(OpenClock(sqrt)(scn[j], m));
    OneTurnOn(OpenClock(sqrt), scn, g, f');
  }

  lemma RampIsNotLeft(sqrt: real -> real, scn: seq<Level>, n: nat, j: nat, f: int, m: nat)
    requires IsSqrt(sqrt) && AtStep(OpenClock(sqrt), scn, n, j, f) && j < |scn| && n <= m
    requires Rising(scn[j]) && !RampPasses(sqrt, scn[j], n)
    ensures After(OpenClock(sqrt), scn, m).Some? && After(OpenClock(sqrt), scn, m).value.curStep == j
  {
    RisingSlope(scn[j]);
    SpentGrows(sqrt, Slope(scn[j]), n, m);
    StaysInRamp(sqrt, scn, n, j, f, m);
  }

  lemma CutSumBound(sqrt: real -> real, k: real, n: nat)
    requires IsSqrt(sqrt) && k > 0.0
    ensures CutSum(sqrt, k, n) <= CutSum(sqrt, k, LastWhole(k))
  {
    if n <= LastWhole(k) { CutSumSettles(sqrt, k, n, LastWhole(k)); } else { CutSumSettles(sqrt, k, LastWhole(k), n); }
  }

  // ---------------------------------------------------------------- slower ramps

  // The level of the ramp and the rate of its first request, sqrt(2k), are at most 5*10^8 together.
  predicate ModerateRamp(sqrt: real -> real, scn: seq<Level>) {
    |scn| > 0 && scn[0].levelStart == 0.0 && scn[0].levelEnd > 0.0 && scn[0].duration > 0
    && (RampSlope(scn[0]); scn[0].levelEnd + RateAt(sqrt, Slope(scn[0]), 1) <= 500_000_000.0)
  }

  // Truncation makes the ramp last longer, but the rate stays below twice their sum.
  lemma {:induction false} RateBounded(sqrt: real -> real, scn: seq<Level>, n: nat)
    requires IsSqrt(sqrt) && ModerateRamp(sqrt, scn) && NonNegativeDurations(scn)
    requires n > 0 && InRamp(sqrt, scn, n)
    ensures Slope(scn[0]) > 0.0
    ensures RateAt(sqrt, Slope(scn[0]), n) <= 2.0 * (scn[0].levelEnd + RateAt(sqrt, Slope(scn[0]), 1))
  {
    RampSlope(scn[0]);
    if n > 1 {
      var a := TimeSpent(sqrt, scn, n);
      RateBounded(sqrt, scn, n - 1);
      NextRate(sqrt, Slope(scn[0]), n, scn[0].levelEnd, scn[0].duration as real, a);
    } else {
      RateSquare(sqrt, Slope(scn[0]), 1);
    }
  }

  // When request n of the ramp is due to be computed, the last offset is within the ramp's duration.
  lemma TimeSpent(sqrt: real -> real, scn: seq<Level>, n: nat) returns (a: real)
    requires IsSqrt(sqrt) && RampFirst(scn) && NonNegativeDurations(scn)
    requires n > 1 && InRamp(sqrt, scn, n)
    ensures InRamp(sqrt, scn, n - 1)
    ensures Slope(scn[0]) > 0.0 && a <= scn[0].duration as real
    ensures a >= (Ideal(sqrt, Slope(scn[0]), n) - Ideal(sqrt, Slope(scn[0]), 1)) * SECOND as real - (n - 1) as real
  {
    var clock := OpenClock(sqrt);
    OpenClockNeverNegative(sqrt);
    OffsetsNeverDecrease(clock, scn, n - 1, n);
    WithinFirst(clock, scn, n);
    RampAccuracy(sqrt, scn, n - 1);
    a := After(clock, scn, n).value.accum as real;
  }

  lemma {:induction false} FirstStepStartsAtZero(clock: Clock, scn: seq<Level>, n: nat)
    requires NeverNegative(clock)
    requires After(clock, scn, n).Some? && After(clock, scn, n).value.curStep == 0
    ensures After(clock, scn, n).value.finished == 0
  {
    if n > 0 {
      OffsetsNeverDecrease(clock, scn, n - 1, n);
      FirstStepStartsAtZero(clock, scn, n - 1);
    }
  }

  lemma WithinFirst(clock: Clock, scn: seq<Level>, n: nat)
    requires NeverNegative(clock) && NonNegativeDurations(scn) && scn != []
    requires After(clock, scn, n).Some? && After(clock, scn, n).value.curStep == 0
    ensures After(clock, scn, n).value.accum <= scn[0].duration
  {
    FirstStepStartsAtZero(clock, scn, n);
    Overshoot(clock, scn, n);
  }

  // With a <= duration nanoseconds gone and the previous rate bounded, so is the next rate.
  lemma NextRate(sqrt: real -> real, k: real, n: nat, level: real, duration: real, a: real)
    requires IsSqrt(sqrt) && k > 0.0 && n > 1
    requires k * (duration / SECOND as real) == level
    requires level + RateAt(sqrt, k, 1) <= 500_000_000.0
    requires RateAt(sqrt, k, n - 1) <= 2.0 * (level + RateAt(sqrt, k, 1))
    requires a <= duration
    requires a >= (Ideal(sqrt, k, n) - Ideal(sqrt, k, 1)) * SECOND as real - (n - 1) as real
    ensures RateAt(sqrt, k, n) <= 2.0 * (level + RateAt(sqrt, k, 1))
  {
    var u, u1 := Ideal(sqrt, k, n), Ideal(sqrt, k, 1);
    var d, x := duration / SECOND as real, (n - 1) as real / SECOND as real;
    assert u <= d + u1 + x;
    RateSquare(sqrt, k, n - 1);
    Spread(k, u, d, u1, x);
    LossBounded(RateAt(sqrt, k, n - 1), level + RateAt(sqrt, k, 1));
    assert k * x == k * (n - 1) as real / SECOND as real;
  }

  lemma LossBounded(rate: real, b: real)
    requires 0.0 <= rate <= 2.0 * b <= SECOND as real
    ensures rate * rate / 2.0 / SECOND as real <= b
  {
    MulLe(rate, SECOND as real, rate);
    assert rate * rate <= 1_000_000_000.0 * rate;
  }

  lemma Spread(k: real, u: real, d: real, u1: real, x: real)
    requires k > 0.0 && u <= d + u1 + x
    ensures k * u <= k * d + k * u1 + k * x
  {
    MulLe(u, d + u1 + x, k);
    assert u * k == k * u;
  }

  lemma NextEmission(clock: Clock, scn: seq<Level>, n: nat)
    requires After(clock, scn, n).Some? && After(clock, scn, n).value.curStep < |scn|
    requires NeverNegative(clock)
    requires clock(scn[After(clock, scn, n).value.curStep], n) > 0.0
    ensures After(clock, scn, n + 1).Some?
    ensures After(clock, scn, n + 1).value.accum ==
              After(clock, scn, n).value.accum + Nanos(clock(scn[After(clock, scn, n).value.curStep], n))
  {
    OffsetsNeverDecrease(clock, scn, n, n);
  }

  // ---------------------------------------------------------------- every scenario

  // How many requests there have been when a step entered with n of them is left, if it ever is. A step
  // that falls, or rises in no time, has no intervals at all.
  function Passage(sqrt: real -> real, step: Level, n: nat): Option<nat>
    requires IsSqrt(sqrt)
  {
    if step.levelStart == step.levelEnd then if Servable(step) then Some(n + TickCount(step)) else None
    else if Rising(step) && RampPasses(sqrt, step, n) then Some(AfterRamp(sqrt, step, n))
    else None
  }

  // All steps from j on are left, one after the other.
  predicate PassesFrom(sqrt: real -> real, scn: seq<Level>, j: nat, n: nat)
    requires IsSqrt(sqrt)
    decreases |scn| - j
  {
    j >= |scn|
    || (Passage(sqrt, scn[j], n).Some? && PassesFrom(sqrt, scn, j + 1, Passage(sqrt, scn[j], n).value))
  }

  lemma StepIsLeft(sqrt: real -> real, scn: seq<Level>, n: nat, j: nat, f: int) returns (f': int)
    requires IsSqrt(sqrt) && NonNegativeDurations(scn) && AtStep(OpenClock(sqrt), scn, n, j, f) && j < |scn|
    requires Passage(sqrt, scn[j], n).Some?
    ensures AtStep(OpenClock(sqrt), scn, Passage(sqrt, scn[j], n).value, j + 1, f')
  {
    if Constant(scn[j]) {
      f' := ServableIsPassed(sqrt, scn, n, j, f);
    } else {
      f' := RampIsLeft(sqrt, scn, n, j, f);
    }
  }

  lemma StepIsNotLeft(sqrt: real -> real, scn: seq<Level>, n: nat, j: nat, f: int)
    requires IsSqrt(sqrt) && NonNegativeDurations(scn) && AtStep(OpenClock(sqrt), scn, n, j, f) && j < |scn|
    requires Passage(sqrt, scn[j], n).None?
    ensures !Ends(OpenClock(sqrt), scn)
  {
    if Constant(scn[j]) {
      UnservableNeverEnds(sqrt, scn, n, j, f);
    } else {
      forall m: nat ensures !EndsAfter(OpenClock(sqrt), scn, m) {
        if Rising(scn[j]) { RampHolds(sqrt, scn, n, j, f, m); } else { NoIntervals(sqrt, scn, n, j, f, m); }
      }
    }
  }

  lemma RampHolds(sqrt: real -> real, scn: seq<Level>, n: nat, j: nat, f: int, m: nat)
    requires IsSqrt(sqrt) && AtStep(OpenClock(sqrt), scn, n, j, f) && j < |scn|
    requires Rising(scn[j]) && !RampPasses(sqrt, scn[j], n)
    ensures !EndsAfter(OpenClock(sqrt), scn, m)
  {
    OpenClockNeverNegative(sqrt);
    if m <= n {
      if After(OpenClock(sqrt), scn, m).Some? { OffsetsNeverDecrease(OpenClock(sqrt), scn, m, n); }
    } else {
      RampIsNotLeft(sqrt, scn, n, j, f, m);
    }
  }

  lemma NoIntervals(sqrt: real -> real, scn: seq<Level>, n: nat, j: nat, f: int, m: nat)
    requires AtStep(OpenClock(sqrt), scn, n, j, f) && j < |scn| && scn[j].duration >= 0
    requires !Constant(scn[j]) && !Rising(scn[j])
    ensures !EndsAfter(OpenClock(sqrt), scn, m)
  {
    OpenClockNeverNegative(sqrt);
    if scn[j].duration > 0 { FallingSlope(scn[j]); }
    assert forall c: nat :: OpenClock(sqrt)(scn[j], c) == 0.0;
    NoRate(OpenClock(sqrt), scn, n, j, f, m);
  }

  lemma FallingSlope(step: Level)
    requires step.levelEnd <= step.levelStart && step.duration > 0
    ensures Slope(step) <= 0.0
  {
    DivLe(step.levelEnd - step.levelStart, 0.0, step.duration as real / SECOND as real);
  }

  lemma {:induction false} EndsFromIff(sqrt: real -> real, scn: seq<Level>, n: nat, j: nat, f: int)
    requires IsSqrt(sqrt) && NonNegativeDurations(scn) && j <= |scn| && AtStep(OpenClock(sqrt), scn, n, j, f)
    ensures Ends(OpenClock(sqrt), scn) <==> PassesFrom(sqrt, scn, j, n)
    decreases |scn| - j
  {
    if j == |scn| {
      assert EndsAfter(OpenClock(sqrt), scn, n);
    } else if Passage(sqrt, scn[j], n).Some? {
      var f' := StepIsLeft(sqrt, scn, n, j, f);
      EndsFromIff(sqrt, scn, Passage(sqrt, scn[j], n).value, j + 1, f');
    } else {
      StepIsNotLeft(sqrt, scn, n, j, f);
    }
  }

  // For every scenario, whatever its steps: the generator ends, rather than panicking or running for
  // ever, if and only if each step in turn is one that is left.
  lemma ScenarioEndsIff(sqrt: real -> real, scn: seq<Level>)
    requires IsSqrt(sqrt) && NonNegativeDurations(scn)
    ensures Ends(OpenClock(sqrt), scn) <==> PassesFrom(sqrt, scn, 0, 0)
  {
    EndsFromIff(sqrt, scn, 0, 0, 0);
  }

  // ---------------------------------------------------------------- the profiles in use

  // At most one ramp, from zero, and constant steps after it.
  ghost predicate RampThenConstant(scn: seq<Level>) {
    NonNegativeDurations(scn) && (ConstantFrom(scn, 0) || (RampFirst(scn) && ConstantFrom(scn, 1)))
  }

  function FirstConstant(scn: seq<Level>): nat {
    if |scn| > 0 && scn[0].levelStart != scn[0].levelEnd then 1 else 0
  }

  // The ramp, if there is one, is left.
  predicate RampIsPassed(sqrt: real -> real, scn: seq<Level>) {
    FirstConstant(scn) == 1 ==> Rising(scn[0]) && RampPasses(sqrt, scn[0], 0)
  }

  // From the beginning of a run of constant steps, it is enough that every level is above zero and at
  // most one request a nanosecond.
  lemma {:induction false} ConstantsPassIff(sqrt: real -> real, scn: seq<Level>, j: nat, n: nat)
    requires IsSqrt(sqrt) && j <= |scn| && ConstantFrom(scn, j)
    ensures PassesFrom(sqrt, scn, j, n) <==> ServableFrom(scn, j)
    decreases |scn| - j
  {
    if j < |scn| && Servable(scn[j]) { ConstantsPassIff(sqrt, scn, j + 1, n + TickCount(scn[j])); }
  }

  // The generator of such a profile ends, rather than panicking or running for ever, if and only if
  // its ramp is left, and every constant level is above zero and at most one request a nanosecond.
  lemma OpenScheduleEndsIff(sqrt: real -> real, scn: seq<Level>)
    requires IsSqrt(sqrt) && RampThenConstant(scn)
    ensures Ends(OpenClock(sqrt), scn) <==> RampIsPassed(sqrt, scn) && ServableFrom(scn, FirstConstant(scn))
  {
    ScenarioEndsIff(sqrt, scn);
    if FirstConstant(scn) == 0 {
      ConstantsPassIff(sqrt, scn, 0, 0);
    } else {
      assert !Constant(scn[0]);
      if RampIsPassed(sqrt, scn) { ConstantsPassIff(sqrt, scn, 1, AfterRamp(sqrt, scn[0], 0)); }
    }
  }

  // A schedule that ends has no other way to stop: the "calculations stuck" panic is unreachable.
  lemma EndingExcludesPanic(sqrt: real -> real, scn: seq<Level>, n: nat)
    requires Ends(OpenClock(sqrt), scn) && StopsAfter(OpenClock(sqrt), scn, n)
    ensures EndsAfter(OpenClock(sqrt), scn, n)
  {
    OpenClockNeverNegative(sqrt);
    var m: nat :| EndsAfter(OpenClock(sqrt), scn, m);
    StopIsUnique(OpenClock(sqrt), scn, m, n);
    StopIsUnique(OpenClock(sqrt), scn, n, m);
  }

  // Where the generator stands, it has begun its step.
  lemma {:induction false} StepBegan(clock: Clock, scn: seq<Level>, n: nat) returns (b: nat)
    requires NeverNegative(clock) && After(clock, scn, n).Some?
    ensures b <= n && AtStep(clock, scn, b, After(clock, scn, n).value.curStep, After(clock, scn, n).value.finished)
  {
    if n == 0 {
      b := 0;
    } else {
      OffsetsNeverDecrease(clock, scn, n - 1, n);
      var g, g' := After(clock, scn, n - 1).value, After(clock, scn, n).value;
      if g'.curStep == g.curStep { b := StepBegan(clock, scn, n - 1); } else { b := n; }
    }
  }

  // After the first, every offset of a schedule that ends is above the one before it.
  lemma OffsetsIncrease(sqrt: real -> real, scn: seq<Level>, n: nat)
    requires IsSqrt(sqrt) && NonNegativeDurations(scn) && Ends(OpenClock(sqrt), scn)
    requires n > 0 && After(OpenClock(sqrt), scn, n + 1).Some?
    ensures After(OpenClock(sqrt), scn, n).value.accum < After(OpenClock(sqrt), scn, n + 1).value.accum
  {
    var clock := OpenClock(sqrt);
    OpenClockNeverNegative(sqrt);
    OffsetsNeverDecrease(clock, scn, n, n + 1);
    var g := After(clock, scn, n).value;
    var b := StepBegan(clock, scn, n);
    if Passage(sqrt, scn[g.curStep], b).None? { StepIsNotLeft(sqrt, scn, b, g.curStep, g.finished); }
    if Constant(scn[g.curStep]) { ServableIsSteady(sqrt, scn[g.curStep]); } else { RampStep(sqrt, scn, b, n); }
    NextEmission(clock, scn, n);
  }

  // In a ramp that is left, intervals stay above zero nanoseconds.
  lemma RampStep(sqrt: real -> real, scn: seq<Level>, b: nat, n: nat)
    requires IsSqrt(sqrt) && NonNegativeDurations(scn) && b <= n && n > 0 && After(OpenClock(sqrt), scn, n).Some?
    requires var g := After(OpenClock(sqrt), scn, n).value;
             AtStep(OpenClock(sqrt), scn, b, g.curStep, g.finished) && g.curStep < |scn|
             && Rising(scn[g.curStep]) && RampPasses(sqrt, scn[g.curStep], b)
    ensures var step := scn[After(OpenClock(sqrt), scn, n).value.curStep];
            OpenClock(sqrt)(step, n) > 0.0 && Nanos(OpenClock(sqrt)(step, n)) >= 1
  {
    var g := After(OpenClock(sqrt), scn, n).value;
    var step := scn[g.curStep];
    RisingSlope(step);
    StillInRamp(sqrt, scn, b, g.curStep, g.finished, n);
    RampClock(sqrt, step, n);
    WithinLastWhole(sqrt, Slope(step), n);
    WholeIff(sqrt, Slope(step), n);
  }

  lemma WithinLastWhole(sqrt: real -> real, k: real, n: nat)
    requires IsSqrt(sqrt) && k > 0.0 && n > 0 && Spent(sqrt, k, n) < CutSum(sqrt, k, LastWhole(k))
    ensures n <= LastWhole(k)
  {
    if n > LastWhole(k) { CutSumSettles(sqrt, k, LastWhole(k), n - 1); }
  }

  // While the generator is in a ramp, what it has spent there is within the duration.
  lemma StillInRamp(sqrt: real -> real, scn: seq<Level>, b: nat, j: nat, f: int, n: nat)
    requires IsSqrt(sqrt) && AtStep(OpenClock(sqrt), scn, b, j, f) && j < |scn| && b <= n
    requires Rising(scn[j]) && RampPasses(sqrt, scn[j], b)
    requires After(OpenClock(sqrt), scn, n).Some? && After(OpenClock(sqrt), scn, n).value.curStep == j
    ensures Slope(scn[j]) > 0.0
    ensures Spent(sqrt, Slope(scn[j]), n) <= scn[j].duration + Spent(sqrt, Slope(scn[j]), b)
  {
    RisingSlope(scn[j]);
    var k, m := Slope(scn[j]), AfterRamp(sqrt, scn[j], b);
    var f' := RampIsLeft(sqrt, scn, b, j, f);
    OpenClockNeverNegative(sqrt);
    if n >= m {
      OffsetsNeverDecrease(OpenClock(sqrt), scn, m, n);
    } else {
      SpentGrows(sqrt, k, n, m - 1);
    }
  }

  // ---------------------------------------------------------------- total overshoot

  // The intervals that carried the generator out of its steps, among its first n.
  function LastIntervals(clock: Clock, scn: seq<Level>, n: nat): int
    requires After(clock, scn, n).Some?
  {
    if n == 0 then 0
    else
      var g := After(clock, scn, n - 1).value;
      LastIntervals(clock, scn, n - 1)
      + if After(clock, scn, n).value.curStep > g.curStep then Nanos(clock(scn[g.curStep], n - 1)) else 0
  }

  lemma OneTurn(clock: Clock, scn: seq<Level>, n: nat)
    requires NeverNegative(clock) && NonNegativeDurations(scn) && After(clock, scn, n + 1).Some?
    ensures var g, g' := After(clock, scn, n).value, After(clock, scn, n + 1).value;
            g.curStep < |scn|
            && ((g'.curStep == g.curStep && g'.finished == g.finished)
                || (g'.curStep == g.curStep + 1
                    && 1 <= g'.finished - g.finished - scn[g.curStep].duration <= Nanos(clock(scn[g.curStep], n))))
  {
    Overshoot(clock, scn, n);
    OffsetsNeverDecrease(clock, scn, n, n + 1);
  }

  // A step begins later than the planned durations before it, by at most one last interval each.
  lemma {:induction false} TotalOvershoot(clock: Clock, scn: seq<Level>, n: nat)
    requires NeverNegative(clock) && NonNegativeDurations(scn) && After(clock, scn, n).Some?
    ensures var g := After(clock, scn, n).value;
            g.curStep <= |scn|
            && TotalDuration(scn[..g.curStep]) + g.curStep
                 <= g.finished <= TotalDuration(scn[..g.curStep]) + LastIntervals(clock, scn, n)
  {
    if n > 0 {
      TotalOvershoot(clock, scn, n - 1);
      OneTurn(clock, scn, n - 1);
      DurationSnoc(scn, After(clock, scn, n - 1).value.curStep);
    }
  }

  // So the last offset of a schedule that ends is past the total duration, by at most the intervals
  // that ended its steps.
  lemma FinalOffset(clock: Clock, scn: seq<Level>, n: nat)
    requires NeverNegative(clock) && NonNegativeDurations(scn) && scn != []
    requires EndsAfter(clock, scn, n)
    ensures n > 0
    ensures TotalDuration(scn) + |scn| <= Offsets(clock, scn, n)[n - 1]
              <= TotalDuration(scn) + LastIntervals(clock, scn, n)
  {
    TotalOvershoot(clock, scn, n);
    assert scn[..|scn|] == scn;
    EndsAtTurn(clock, scn, n);
  }

  lemma EndsAtTurn(clock: Clock, scn: seq<Level>, n: nat)
    requires NeverNegative(clock) && NonNegativeDurations(scn) && scn != []
    requires EndsAfter(clock, scn, n)
    ensures n > 0 && After(clock, scn, n).value.finished == Offsets(clock, scn, n)[n - 1]
  {
    if n > 0 { OneTurn(clock, scn, n - 1); }
  }

  lemma {:induction false} DurationNonNegative(scn: seq<Level>)
    requires NonNegativeDurations(scn)
    ensures TotalDuration(scn) >= 0
  {
    if scn != [] { DurationNonNegative(scn[1..]); }
  }

  lemma DurationOfFront(scn: seq<Level>, j: nat)
    requires NonNegativeDurations(scn) && j <= |scn|
    ensures TotalDuration(scn[..j]) <= TotalDuration(scn)
  {
    assert scn[..j] + scn[j..] == scn;
    DurationAppend(scn[..j], scn[j..]);
    DurationNonNegative(scn[j..]);
  }

  // No offset, and so no interval, is more than the total duration and the intervals that ended steps: as
  // long as these are together within 63 bits, nothing the generator computes is out of range.
  lemma OffsetBound(clock: Clock, scn: seq<Level>, n: nat)
    requires NeverNegative(clock) && NonNegativeDurations(scn) && After(clock, scn, n).Some?
    ensures 0 <= After(clock, scn, n).value.accum <= TotalDuration(scn) + LastIntervals(clock, scn, n)
  {
    var g := After(clock, scn, n).value;
    TotalOvershoot(clock, scn, n);
    OffsetsNeverDecrease(clock, scn, n, n);
    WithinStep(clock, scn, n);
    WithinTotal(scn, g.curStep, g.finished, g.accum, LastIntervals(clock, scn, n));
  }

  lemma WithinStep(clock: Clock, scn: seq<Level>, n: nat)
    requires NeverNegative(clock) && NonNegativeDurations(scn) && After(clock, scn, n).Some?
    ensures var g := After(clock, scn, n).value;
            g.accum <= g.finished + if g.curStep < |scn| then scn[g.curStep].duration else 0
  {
    if n > 0 { OneTurn(clock, scn, n - 1); }
    Overshoot(clock, scn, n);
  }

  lemma WithinTotal(scn: seq<Level>, j: nat, finished: int, accum: int, last: int)
    requires NonNegativeDurations(scn) && j <= |scn| && finished <= TotalDuration(scn[..j]) + last
    requires accum <= finished + if j < |scn| then scn[j].duration else 0
    ensures accum <= TotalDuration(scn) + last
  {
    DurationOfFront(scn, j);
    if j < |scn| {
      DurationSnoc(scn, j);
      DurationOfFront(scn, j + 1);
    }
  }

  // A ramp has sent more requests than the area under it by the time it is left.
  lemma RampServesItsArea(sqrt: real -> real, scn: seq<Level>, n: nat)
    requires IsSqrt(sqrt) && RampFirst(scn) && NonNegativeDurations(scn)
    requires InRamp(sqrt, scn, n) && After(OpenClock(sqrt), scn, n + 1).value.curStep == 1
    ensures Slope(scn[0]) > 0.0
    ensures Asked(Slope(scn[0]), scn[0].duration) < (n + 1) as real
  {
    OpenClockNeverNegative(sqrt);
    NoRequestIsLate(sqrt, scn, n);
    OneTurn(OpenClock(sqrt), scn, n);
    FirstStepStartsAtZero(OpenClock(sqrt), scn, n);
    AskedGrows(Slope(scn[0]), scn[0].duration, After(OpenClock(sqrt), scn, n + 1).value.accum);
  }

  lemma AskedGrows(k: real, a: int, b: int)
    requires k > 0.0 && 0 <= a <= b
    ensures Asked(k, a) <= Asked(k, b)
  {
    var s, t := a as real / SECOND as real, b as real / SECOND as real;
    SquareOrder(s, t);
    var x, y := s * s, t * t;
    MulLe(x, y, k);
    assert x * k == k * x && y * k == k * y;
  }
}
