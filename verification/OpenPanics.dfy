/** The three fates of the open-workload generator: it ends, it panics, or it emits for ever. */
module OpenPanics {
  import opened Scenario
  import opened OpenRamp
  import opened OpenSchedule
  import opened OpenTermination

  ghost predicate PanicsAfter(clock: Clock, scn: seq<Level>, n: nat) {
    After(clock, scn, n).Some? && Next(clock, scn, After(clock, scn, n).value).Stuck?
  }

  ghost predicate PanicsAtAll(clock: Clock, scn: seq<Level>) { exists n :: PanicsAfter(clock, scn, n) }

  ghost predicate EmitsForever(clock: Clock, scn: seq<Level>) { forall n: nat :: After(clock, scn, n).Some? }

  // No time at all between two requests: a constant rate that is not above zero, a rate that falls, or one that
  // rises in no time.
  predicate HasNoIntervals(step: Level) {
    if step.levelStart == step.levelEnd then step.levelEnd <= 0.0
    else step.levelEnd < step.levelStart || step.duration <= 0
  }

  // The first step that is not left has no intervals, and is not the first of all.
  predicate StuckFrom(sqrt: real -> real, scn: seq<Level>, j: nat, n: nat)
    requires IsSqrt(sqrt)
    decreases |scn| - j
  {
    j < |scn|
    && match Passage(sqrt, scn[j], n)
       case Some(m) => StuckFrom(sqrt, scn, j + 1, m)
       case None => j > 0 && HasNoIntervals(scn[j])
  }

  // Only at offset zero does a step begin that is the first.
  lemma {:induction false} LaterStepsBeginLater(clock: Clock, scn: seq<Level>, n: nat)
    requires NeverNegative(clock) && NonNegativeDurations(scn) && After(clock, scn, n).Some?
    ensures var g := After(clock, scn, n).value; g.finished >= 0 && (g.curStep > 0 ==> g.accum > 0)
  {
    if n > 0 {
      LaterStepsBeginLater(clock, scn, n - 1);
      OffsetsNeverDecrease(clock, scn, n - 1, n);
    }
  }

  lemma EndingIsFinal(clock: Clock, scn: seq<Level>, n: nat)
    requires NeverNegative(clock) && EndsAfter(clock, scn, n)
    ensures !PanicsAtAll(clock, scn) && !EmitsForever(clock, scn)
  {
    assert After(clock, scn, n + 1).None?;
    forall m: nat ensures !PanicsAfter(clock, scn, m) {
      if PanicsAfter(clock, scn, m) {
        StopIsUnique(clock, scn, m, n);
        StopIsUnique(clock, scn, n, m);
      }
    }
  }

  lemma PanicIsFinal(clock: Clock, scn: seq<Level>, n: nat)
    requires PanicsAfter(clock, scn, n)
    ensures PanicsAtAll(clock, scn) && !EmitsForever(clock, scn)
  {
    assert After(clock, scn, n + 1).None?;
  }

  lemma {:induction false} EarlierSome(clock: Clock, scn: seq<Level>, m: nat, n: nat)
    requires m <= n && After(clock, scn, n).Some?
    ensures After(clock, scn, m).Some?
    decreases n
  {
    if m < n { EarlierSome(clock, scn, m, n - 1); }
  }

  lemma NeverPanics(clock: Clock, scn: seq<Level>)
    requires EmitsForever(clock, scn)
    ensures !PanicsAtAll(clock, scn)
  {
    forall n: nat ensures !PanicsAfter(clock, scn, n) { assert After(clock, scn, n + 1).Some?; }
  }

  // From some moment on it always goes on.
  lemma ForeverFrom(clock: Clock, scn: seq<Level>, n: nat)
    requires forall m: nat :: n <= m ==> After(clock, scn, m).Some?
    ensures EmitsForever(clock, scn) && !PanicsAtAll(clock, scn)
  {
    forall m: nat ensures After(clock, scn, m).Some? { if m < n { EarlierSome(clock, scn, m, n); } }
    NeverPanics(clock, scn);
  }

  lemma StaysFrozen(clock: Clock, scn: seq<Level>, n: nat, j: nat, f: int)
    requires AtStep(clock, scn, n, j, f) && j < |scn| && scn[j].duration >= 0
    requires forall c: nat :: Nanos(clock(scn[j], c)) == 0
    requires f == 0 || forall c: nat :: clock(scn[j], c) != 0.0
    ensures EmitsForever(clock, scn) && !PanicsAtAll(clock, scn)
  {
    forall m: nat | n <= m ensures After(clock, scn, m).Some? { Frozen(clock, scn, n, j, f, m - n); }
    ForeverFrom(clock, scn, n);
  }

  lemma NoIntervalsAtAll(sqrt: real -> real, step: Level, c: nat)
    requires HasNoIntervals(step) && step.duration >= 0
    ensures OpenClock(sqrt)(step, c) == 0.0
  {
    InverseSign(step.levelEnd);
    if step.levelStart != step.levelEnd && step.duration > 0 { FallingSlope(step); }
  }

  // A step that is never left, entered with n requests at offset f.
  lemma HeldStep(sqrt: real -> real, scn: seq<Level>, n: nat, j: nat, f: int)
    requires IsSqrt(sqrt) && NonNegativeDurations(scn) && AtStep(OpenClock(sqrt), scn, n, j, f) && j < |scn|
    requires Passage(sqrt, scn[j], n).None?
    ensures PanicsAtAll(OpenClock(sqrt), scn) <==> f != 0 && HasNoIntervals(scn[j])
    ensures EmitsForever(OpenClock(sqrt), scn) <==> !PanicsAtAll(OpenClock(sqrt), scn)
  {
    var clock, step := OpenClock(sqrt), scn[j];
    if HasNoIntervals(step) {
      forall c: nat ensures clock(step, c) == 0.0 { NoIntervalsAtAll(sqrt, step, c); }
      if f != 0 {
        Panics(clock, scn, n, j, f);
        PanicIsFinal(clock, scn, n);
      } else {
        forall c: nat ensures Nanos(clock(step, c)) == 0 {}
        StaysFrozen(clock, scn, n, j, f);
      }
    } else if Constant(step) {
      ServableIsSteady(sqrt, step);
      StaysFrozen(clock, scn, n, j, f);
    } else {
      forall m: nat | n <= m ensures After(clock, scn, m).Some? { RampIsNotLeft(sqrt, scn, n, j, f, m); }
      ForeverFrom(clock, scn, n);
    }
  }

  lemma {:induction false} FateFrom(sqrt: real -> real, scn: seq<Level>, n: nat, j: nat, f: int)
    requires IsSqrt(sqrt) && NonNegativeDurations(scn) && j <= |scn| && AtStep(OpenClock(sqrt), scn, n, j, f)
    requires f != 0 <==> j > 0
    ensures PanicsAtAll(OpenClock(sqrt), scn) <==> StuckFrom(sqrt, scn, j, n)
    ensures EmitsForever(OpenClock(sqrt), scn) <==> !PassesFrom(sqrt, scn, j, n) && !StuckFrom(sqrt, scn, j, n)
    decreases |scn| - j
  {
    OpenClockNeverNegative(sqrt);
    if j == |scn| {
      EndingIsFinal(OpenClock(sqrt), scn, n);
    } else if Passage(sqrt, scn[j], n).Some? {
      var f' := StepIsLeft(sqrt, scn, n, j, f);
      LaterStepsBeginLater(OpenClock(sqrt), scn, Passage(sqrt, scn[j], n).value);
      FateFrom(sqrt, scn, Passage(sqrt, scn[j], n).value, j + 1, f');
    } else {
      HeldStep(sqrt, scn, n, j, f);
    }
  }

  // For every scenario: the generator panics if and only if the first step that is not left has no intervals
  // and comes after another; it ends if and only if every step is left; otherwise it emits for ever.
  lemma GeneratorFate(sqrt: real -> real, scn: seq<Level>)
    requires IsSqrt(sqrt) && NonNegativeDurations(scn)
    ensures PanicsAtAll(OpenClock(sqrt), scn) <==> StuckFrom(sqrt, scn, 0, 0)
    ensures Ends(OpenClock(sqrt), scn) <==> PassesFrom(sqrt, scn, 0, 0)
    ensures EmitsForever(OpenClock(sqrt), scn) <==> !PassesFrom(sqrt, scn, 0, 0) && !StuckFrom(sqrt, scn, 0, 0)
  {
    ScenarioEndsIff(sqrt, scn);
    FateFrom(sqrt, scn, 0, 0, 0);
  }

  // Constant rates: the panic is for a rate that is not above zero, after rates that can all be served.
  lemma {:induction false} ConstantsStuckIff(sqrt: real -> real, scn: seq<Level>, j: nat, n: nat)
    requires IsSqrt(sqrt) && j <= |scn| && ConstantFrom(scn, j)
    ensures StuckFrom(sqrt, scn, j, n)
       <==> exists i :: j <= i < |scn| && i > 0 && scn[i].levelEnd <= 0.0 && forall h :: j <= h < i ==> Servable(scn[h])
    decreases |scn| - j
  {
    if j < |scn| {
      if Servable(scn[j]) {
        ConstantsStuckIff(sqrt, scn, j + 1, n + TickCount(scn[j]));
      } else if StuckFrom(sqrt, scn, j, n) {
        assert scn[j].levelEnd <= 0.0;
      }
    }
  }
}
