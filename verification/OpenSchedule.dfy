/** The open-workload schedule generator: request offsets, in nanoseconds, for a profile of
    request rates. */
module OpenSchedule {
  import opened Prelude
  import opened Scenario
  import opened Sequences
  import opened OpenRamp
  import opened RealFacts

  function Slope(step: Level): real
    requires step.duration != 0
  {
    (step.levelEnd - step.levelStart) / (step.duration as real / SECOND as real)
  }

  function Inverse(rate: real): real {
    if rate > 0.0 then 1.0 / rate else 0.0
  }

  // Seconds to the next request after cnt requests. With a zero duration the slope is infinite and
  // the rate not a number; with a negative slope the root is not a number. "Not a number" is not
  // above zero, so in both cases the interval is zero.
  function Interval(sqrt: real -> real, step: Level, cnt: nat): real {
    if step.levelStart == step.levelEnd then Inverse(step.levelEnd)
    else if step.duration == 0 || Slope(step) <= 0.0 then 0.0
    else Inverse(RateAt(sqrt, Slope(step), cnt))
  }

  // The interval as a function of the step and the request count; the generator below is written
  // over any such function.
  type Clock = (Level, nat) -> real

  function OpenClock(sqrt: real -> real): Clock {
    (step: Level, cnt: nat) => Interval(sqrt, step, cnt)
  }

  ghost predicate NeverNegative(clock: Clock) {
    forall step: Level, cnt: nat :: clock(step, cnt) >= 0.0
  }

  // Conversion to whole nanoseconds truncates; intervals are never negative.
  function Nanos(interval: real): int {
    (interval * SECOND as real).Floor
  }

  // The generator's variables: step index, requests so far, last offset, offset at which the step began.
  datatype Gen = Gen(curStep: nat, cnt: nat, accum: int, finished: int)

  // One turn of the generator: the schedule is over, the generator panics, or it emits gen.accum.
  datatype Turn = Ended | Stuck | Emit(gen: Gen)

  const START := Gen(0, 0, 0, 0)

  function Next(clock: Clock, scn: seq<Level>, g: Gen): Turn {
    if g.curStep >= |scn| then Ended
    else
      var step := scn[g.curStep];
      var interval := clock(step, g.cnt);
      if g.accum != 0 && interval == 0.0 then Stuck
      else
        var accum := g.accum + Nanos(interval);
        if accum > g.finished + step.duration then Emit(Gen(g.curStep + 1, g.cnt + 1, accum, accum))
        else Emit(Gen(g.curStep, g.cnt + 1, accum, g.finished))
  }

  // The generator after n emissions, if it gets that far.
  function After(clock: Clock, scn: seq<Level>, n: nat): Option<Gen> {
    if n == 0 then Some(START)
    else
      match After(clock, scn, n - 1)
      case None => None
      case Some(g) => if Next(clock, scn, g).Emit? then Some(Next(clock, scn, g).gen) else None
  }

  ghost predicate StopsAfter(clock: Clock, scn: seq<Level>, n: nat) {
    After(clock, scn, n).Some? && !Next(clock, scn, After(clock, scn, n).value).Emit?
  }

  // The generator goes through all steps, with n offsets in all.
  ghost predicate EndsAfter(clock: Clock, scn: seq<Level>, n: nat) {
    After(clock, scn, n).Some? && After(clock, scn, n).value.curStep >= |scn|
  }

  ghost predicate Ends(clock: Clock, scn: seq<Level>) {
    exists n :: EndsAfter(clock, scn, n)
  }

  // The first n offsets the generator emits.
  function Offsets(clock: Clock, scn: seq<Level>, n: nat): (offsets: seq<int>)
    requires After(clock, scn, n).Some?
    ensures |offsets| == n
  {
    if n == 0 then [] else Offsets(clock, scn, n - 1) + [After(clock, scn, n).value.accum]
  }

  // What became of the generator: it closed its channel, it panicked, or it waits for a receiver.
  datatype Status = Closed | Panicked | Waiting

  function StatusOf(turn: Turn): Status {
    match turn
    case Ended => Closed
    case Stuck => Panicked
    case Emit(_) => Waiting
  }

  // The generator for a receiver that takes so many offsets (demand) if it can: a scenario on which the
  // generator never stops has as many as are asked for.
  method GenerateSchedule(sqrt: real -> real, scn: seq<Level>, demand: nat) returns (offsets: seq<int>, status: Status)
    ensures |offsets| <= demand && After(OpenClock(sqrt), scn, |offsets|).Some?
    ensures offsets == Offsets(OpenClock(sqrt), scn, |offsets|)
    ensures status == StatusOf(Next(OpenClock(sqrt), scn, After(OpenClock(sqrt), scn, |offsets|).value))
    ensures status == Waiting ==> |offsets| == demand
  {
    ghost var clock := OpenClock(sqrt);
    var curStep, cnt, accum, finished := 0, 0, 0, 0;
    offsets, status := [], Closed;
    while curStep < |scn|
      invariant cnt <= demand && status == Closed
      invariant After(clock, scn, cnt) == Some(Gen(curStep, cnt, accum, finished))
      invariant offsets == Offsets(clock, scn, cnt)
      decreases demand - cnt
    {
      var step := scn[curStep];
      var interval := Interval(sqrt, step, cnt);
      ghost var turn := Next(clock, scn, Gen(curStep, cnt, accum, finished));
      if accum != 0 && interval == 0.0 {
        status := Panicked;
        return;
      }
      assert turn.Emit?;
      if cnt == demand {
        status := Waiting;
        return;
      }
      accum := accum + Nanos(interval);
      offsets := offsets + [accum];
      cnt := cnt + 1;
      if accum > finished + step.duration {
        curStep := curStep + 1;
        finished := accum;
      }
      assert turn.gen == Gen(curStep, cnt, accum, finished);
      Emitted(clock, scn, cnt - 1, turn.gen);
    }
  }

  lemma Emitted(clock: Clock, scn: seq<Level>, n: nat, g: Gen)
    requires After(clock, scn, n).Some? && Next(clock, scn, After(clock, scn, n).value) == Emit(g)
    ensures After(clock, scn, n + 1) == Some(g)
    ensures Offsets(clock, scn, n + 1) == Offsets(clock, scn, n) + [g.accum]
  {}

  // ---------------------------------------------------------------- every scenario

  lemma InverseSign(rate: real)
    ensures Inverse(rate) >= 0.0
    ensures Inverse(rate) == 0.0 <==> rate <= 0.0
    ensures rate > 0.0 ==> Inverse(rate) * rate == 1.0
  {
    if rate > 0.0 { DivLe(1.0, 0.0, rate); }
  }

  lemma OpenClockNeverNegative(sqrt: real -> real)
    ensures NeverNegative(OpenClock(sqrt))
  {
    forall step: Level, cnt: nat
      ensures OpenClock(sqrt)(step, cnt) >= 0.0
    {
      InverseSign(step.levelEnd);
      if step.duration != 0 && Slope(step) > 0.0 { InverseSign(RateAt(sqrt, Slope(step), cnt)); }
    }
  }

  // Offsets never decrease and steps are never revisited, whatever the scenario: the consumer's
  // "offsets have to be ever-increasing" panic is unreachable.
  lemma {:induction false} OffsetsNeverDecrease(clock: Clock, scn: seq<Level>, m: nat, n: nat)
    requires NeverNegative(clock)
    requires m <= n && After(clock, scn, n).Some?
    ensures After(clock, scn, m).Some?
    ensures 0 <= After(clock, scn, m).value.accum <= After(clock, scn, n).value.accum
    ensures After(clock, scn, m).value.curStep <= After(clock, scn, n).value.curStep
    ensures After(clock, scn, n).value.cnt == n
    decreases n
  {
    if n > 0 {
      var g := After(clock, scn, n - 1).value;
      assert clock(scn[g.curStep], g.cnt) >= 0.0;
      OffsetsNeverDecrease(clock, scn, if m < n then m else n - 1, n - 1);
    }
  }

  // A stop is final, so there is only one.
  lemma StopIsUnique(clock: Clock, scn: seq<Level>, m: nat, n: nat)
    requires NeverNegative(clock)
    requires StopsAfter(clock, scn, m) && After(clock, scn, n).Some?
    ensures n <= m
  {
    if n > m {
      OffsetsNeverDecrease(clock, scn, m + 1, n);
    }
  }

  ghost predicate NonNegativeDurations(scn: seq<Level>) {
    forall i :: 0 <= i < |scn| ==> scn[i].duration >= 0
  }

  // While in a step, the last offset is inside it; a step is left by overshooting its planned end by
  // more than nothing and by no more than the interval that did it.
  lemma {:induction false} Overshoot(clock: Clock, scn: seq<Level>, n: nat)
    requires NeverNegative(clock) && NonNegativeDurations(scn) && After(clock, scn, n).Some?
    ensures var g := After(clock, scn, n).value;
            g.curStep <= |scn| && g.finished <= g.accum
            && (g.curStep < |scn| ==> g.accum <= g.finished + scn[g.curStep].duration)
    ensures After(clock, scn, n + 1).Some? ==>
              var g, g' := After(clock, scn, n).value, After(clock, scn, n + 1).value;
              g.curStep < g'.curStep ==>
                g'.curStep == g.curStep + 1
                && 0 < g'.finished - (g.finished + scn[g.curStep].duration)
                     <= Nanos(clock(scn[g.curStep], n))
  {
    if n > 0 {
      Overshoot(clock, scn, n - 1);
      var g := After(clock, scn, n - 1).value;
      assert clock(scn[g.curStep], g.cnt) >= 0.0;
    }
    OffsetsNeverDecrease(clock, scn, n, n);
  }

  // ---------------------------------------------------------------- steps of constant rate

  ghost predicate Constant(step: Level) { step.levelStart == step.levelEnd }

  // The rates for which an interval is at least one nanosecond.
  predicate Servable(step: Level) { 0.0 < step.levelEnd <= SECOND as real }

  function Quantum(step: Level): int { Nanos(Inverse(step.levelEnd)) }

  lemma QuantumPositive(step: Level)
    requires step.levelEnd > 0.0
    ensures Quantum(step) >= 0
    ensures Quantum(step) >= 1 <==> step.levelEnd <= SECOND as real
  {
    InverseSign(step.levelEnd);
    var x := Inverse(step.levelEnd);
    DivLe(1.0, 1.0 / SECOND as real, step.levelEnd);
    DivLe(1.0, x, step.levelEnd);
    DivLe(step.levelEnd, SECOND as real, 1.0);
  }

  // The generator stands at the beginning of step j, having emitted n offsets, the last at f.
  ghost predicate AtStep(clock: Clock, scn: seq<Level>, n: nat, j: nat, f: int) {
    After(clock, scn, n) == Some(Gen(j, n, f, f))
  }

  // A clock that ticks every q nanoseconds throughout the step.
  ghost predicate Ticks(clock: Clock, step: Level, q: int) {
    forall c: nat :: clock(step, c) > 0.0 && Nanos(clock(step, c)) == q
  }

  lemma ConstantTicks(sqrt: real -> real, step: Level)
    requires Constant(step) && step.levelEnd > 0.0
    ensures Ticks(OpenClock(sqrt), step, Quantum(step))
  {
    InverseSign(step.levelEnd);
  }

  lemma OneTick(clock: Clock, scn: seq<Level>, g: Gen, q: int)
    requires g.curStep < |scn| && After(clock, scn, g.cnt) == Some(g)
    requires clock(scn[g.curStep], g.cnt) > 0.0 && Nanos(clock(scn[g.curStep], g.cnt)) == q
    requires g.accum + q <= g.finished + scn[g.curStep].duration
    ensures After(clock, scn, g.cnt + 1) == Some(g.(cnt := g.cnt + 1, accum := g.accum + q))
  {}

  lemma {:induction false} InsideTicks(clock: Clock, scn: seq<Level>, n: nat, j: nat, f: int, q: int, i: nat)
    requires AtStep(clock, scn, n, j, f) && j < |scn|
    requires q >= 1 && Ticks(clock, scn[j], q)
    requires i * q <= scn[j].duration
    ensures After(clock, scn, n + i) == Some(Gen(j, n + i, f + i * q, f))
  {
    if i > 0 {
      assert (i - 1) * q == i * q - q;
      InsideTicks(clock, scn, n, j, f, q, i - 1);
      assert clock(scn[j], n + i - 1) > 0.0;
      var m, a := n + i - 1, f + (i - 1) * q;
      OneTick(clock, scn, Gen(j, m, a, f), q);
      assert m + 1 == n + i && a + q == f + i * q;
    }
  }

  lemma LastTick(clock: Clock, scn: seq<Level>, n: nat, j: nat, f: int, q: int, i: nat, end: int)
    requires AtStep(clock, scn, n, j, f) && j < |scn|
    requires q >= 1 && Ticks(clock, scn[j], q)
    requires end == f + i * q + q && i * q <= scn[j].duration < end - f
    ensures AtStep(clock, scn, n + i + 1, j + 1, end)
  {
    InsideTicks(clock, scn, n, j, f, q, i);
    assert clock(scn[j], n + i) > 0.0;
    assert Nanos(clock(scn[j], n + i)) == q;
  }

  lemma DivBounds(d: int, q: int)
    requires d >= 0 && q >= 1
    ensures d / q >= 0 && d / q * q <= d < (d / q + 1) * q == d / q * q + q
  {}

  // A step of constant interval q emits floor(duration / q) + 1 offsets, wherever it stands.
  lemma TickingStep(clock: Clock, scn: seq<Level>, n: nat, j: nat, f: int, q: int)
    requires AtStep(clock, scn, n, j, f) && j < |scn|
    requires q >= 1 && Ticks(clock, scn[j], q) && scn[j].duration >= 0
    ensures AtStep(clock, scn, n + (scn[j].duration / q + 1), j + 1, f + (scn[j].duration / q + 1) * q)
  {
    DivBounds(scn[j].duration, q);
    LastTick(clock, scn, n, j, f, q, scn[j].duration / q, f + (scn[j].duration / q + 1) * q);
  }

  // The offsets of one step of interval q that begins at f.
  function TicksFrom(f: int, q: int, m: nat): seq<int> {
    seq(m, i => f + (i + 1) * q)
  }

  function TickCount(step: Level): nat {
    if step.duration < 0 || Quantum(step) < 1 then 0 else step.duration / Quantum(step) + 1
  }

  // The reference form of a schedule of constant steps: one arithmetic progression per step.
  function SteppedOffsets(scn: seq<Level>, j: nat, f: int): seq<int>
    decreases |scn| - j
  {
    if j >= |scn| then []
    else TicksFrom(f, Quantum(scn[j]), TickCount(scn[j])) + SteppedOffsets(scn, j + 1, StepEnd(scn[j], f))
  }

  function StepEnd(step: Level, f: int): int { f + TickCount(step) * Quantum(step) }

  // The clock serves every step from j on at its own constant interval.
  ghost predicate Steady(clock: Clock, scn: seq<Level>, j: nat) {
    forall i :: j <= i < |scn| ==> SteadyStep(clock, scn[i])
  }

  ghost predicate SteadyStep(clock: Clock, step: Level) {
    Quantum(step) >= 1 && step.duration >= 0 && Ticks(clock, step, Quantum(step))
  }

  // The generator has emitted exactly these offsets and stands at the beginning of step j.
  ghost predicate AtStepWith(clock: Clock, scn: seq<Level>, offsets: seq<int>, j: nat, f: int) {
    AtStep(clock, scn, |offsets|, j, f) && Offsets(clock, scn, |offsets|) == offsets
  }

  lemma TickAt(clock: Clock, scn: seq<Level>, n: nat, j: nat, f: int, q: int, i: nat)
    requires AtStep(clock, scn, n, j, f) && j < |scn|
    requires q >= 1 && Ticks(clock, scn[j], q) && scn[j].duration >= 0
    requires i <= scn[j].duration / q + 1
    ensures After(clock, scn, n + i).Some? && After(clock, scn, n + i).value.accum == f + i * q
  {
    var d := scn[j].duration;
    DivBounds(d, q);
    if i <= d / q {
      MulLeInt(i, d / q, q);
      InsideTicks(clock, scn, n, j, f, q, i);
    } else {
      assert i == d / q + 1;
      TickingStep(clock, scn, n, j, f, q);
    }
  }

  lemma MulLeInt(a: int, b: int, q: int)
    requires a <= b && q >= 0
    ensures a * q <= b * q
  {}

  lemma {:induction false} TickOffsets(clock: Clock, scn: seq<Level>, n: nat, j: nat, f: int, q: int, i: nat)
    requires AtStep(clock, scn, n, j, f) && j < |scn|
    requires q >= 1 && Ticks(clock, scn[j], q) && scn[j].duration >= 0
    requires i <= scn[j].duration / q + 1
    ensures After(clock, scn, n + i).Some?
    ensures Offsets(clock, scn, n + i) == Offsets(clock, scn, n) + TicksFrom(f, q, i)
  {
    TickAt(clock, scn, n, j, f, q, i);
    if i > 0 {
      TickOffsets(clock, scn, n, j, f, q, i - 1);
      assert TicksFrom(f, q, i) == TicksFrom(f, q, i - 1) + [f + i * q];
    }
  }

  lemma SteadyStepOffsets(clock: Clock, scn: seq<Level>, offsets: seq<int>, j: nat, f: int)
    requires j < |scn| && SteadyStep(clock, scn[j])
    requires AtStepWith(clock, scn, offsets, j, f)
    ensures AtStepWith(clock, scn, offsets + TicksFrom(f, Quantum(scn[j]), TickCount(scn[j])), j + 1,
                       StepEnd(scn[j], f))
  {
    var q, m := Quantum(scn[j]), TickCount(scn[j]);
    DivBounds(scn[j].duration, q);
    TickingStep(clock, scn, |offsets|, j, f, q);
    TickOffsets(clock, scn, |offsets|, j, f, q, m);
    Joined(clock, scn, offsets, TicksFrom(f, q, m), j + 1, StepEnd(scn[j], f));
  }

  lemma Joined(clock: Clock, scn: seq<Level>, offsets: seq<int>, part: seq<int>, j: nat, f: int)
    requires AtStep(clock, scn, |offsets| + |part|, j, f)
    requires Offsets(clock, scn, |offsets| + |part|) == offsets + part
    ensures AtStepWith(clock, scn, offsets + part, j, f)
  {
    assert |offsets + part| == |offsets| + |part|;
  }

  // A schedule of servable constant steps is exactly the reference form, and then it ends.
  lemma {:induction false} SteppedSchedule(clock: Clock, scn: seq<Level>, offsets: seq<int>, j: nat, f: int)
    returns (end: int)
    requires j <= |scn| && Steady(clock, scn, j)
    requires AtStepWith(clock, scn, offsets, j, f)
    ensures AtStepWith(clock, scn, offsets + SteppedOffsets(scn, j, f), |scn|, end)
    decreases |scn| - j
  {
    if j == |scn| {
      end := f;
      assert offsets + SteppedOffsets(scn, j, f) == offsets;
    } else {
      SteadyStepOffsets(clock, scn, offsets, j, f);
      var part := TicksFrom(f, Quantum(scn[j]), TickCount(scn[j]));
      end := SteppedSchedule(clock, scn, offsets + part, j + 1, StepEnd(scn[j], f));
      Reassociate(offsets, part, SteppedOffsets(scn, j + 1, StepEnd(scn[j], f)));
    }
  }
}
