/** How the Taurus module turns a load setting into a workload profile, and what the two generators
    make of that profile. */
module LoadTranslation {
  import opened Scenario
  import opened Sequences
  import opened OpenRamp
  import opened RealFacts
  import OpenSchedule
  import OpenTermination
  import RampThreshold
  import ClosedSchedule

  // Throughput in requests a second, ramp-up and hold in seconds; zero means "not given".
  datatype Load = Load(throughput: real, concurrency: int, rampUp: real, steps: nat, hold: real)

  // Python's round: to the nearest integer, halves to the even one.
  function Round(x: real): int {
    var f := x.Floor;
    var frac := x - f as real;
    if frac < 0.5 || (frac == 0.5 && f % 2 == 0) then f else f + 1
  }

  // A duration is written with three decimals of a second.
  function WrittenNanos(seconds: real): int {
    Round(seconds * 1000.0) * 1_000_000
  }

  function TargetLevel(load: Load): real {
    if load.throughput != 0.0 then load.throughput else load.concurrency as real
  }

  function Flat(level: real, seconds: real): Level {
    Level(level, level, WrittenNanos(seconds))
  }

  function Share(level: real, i: nat, steps: nat): real
    requires steps > 0
  {
    level * i as real / steps as real
  }

  // The level of the i-th flat step, counting from 1.
  function StepLevel(level: real, steps: nat, i: nat): int
    requires steps > 0
  {
    Round(Share(level, i, steps))
  }

  // Steps i, i+1, ... of a ramp-up broken into flat steps.
  function StepsFrom(level: real, rampUp: real, steps: nat, i: nat): seq<Level>
    requires i <= steps
    decreases steps - i
  {
    if i == steps then []
    else [Flat(StepLevel(level, steps, i + 1) as real, rampUp / steps as real)] + StepsFrom(level, rampUp, steps, i + 1)
  }

  function RampPart(load: Load): seq<Level> {
    if load.rampUp == 0.0 then []
    else if load.steps == 0 then [Level(0.0, TargetLevel(load), WrittenNanos(load.rampUp))]
    else StepsFrom(TargetLevel(load), load.rampUp, load.steps, 0)
  }

  function HoldPart(load: Load): seq<Level> {
    if load.hold == 0.0 then [] else [Flat(TargetLevel(load), load.hold)]
  }

  function Profile(load: Load): seq<Level> { RampPart(load) + HoldPart(load) }

  // Append the flat steps of a ramp-up.
  method AppendSteps(before: seq<Level>, level: real, rampUp: real, steps: nat) returns (res: seq<Level>)
    requires steps > 0
    ensures res == before + StepsFrom(level, rampUp, steps, 0)
  {
    res := before;
    var stepDur := rampUp / steps as real;
    for step := 0 to steps
      invariant res + StepsFrom(level, rampUp, steps, step) == before + StepsFrom(level, rampUp, steps, 0)
    {
      var stepLevel := StepLevel(level, steps, step + 1) as real;
      var next := Flat(stepLevel, stepDur);
      Reassociate(res, [next], StepsFrom(level, rampUp, steps, step + 1));
      res := res + [next];
    }
  }

  method TranslateLoad(load: Load) returns (res: seq<Level>)
    ensures res == Profile(load)
  {
    res := [];
    var level := TargetLevel(load);
    if load.rampUp != 0.0 {
      if load.steps != 0 {
        res := AppendSteps(res, level, load.rampUp, load.steps);
      } else {
        res := res + [Level(0.0, level, WrittenNanos(load.rampUp))];
      }
    }
    if load.hold != 0.0 {
      res := res + [Flat(level, load.hold)];
    }
  }

  // ---------------------------------------------------------------- rounding

  lemma RoundMonotone(x: real, y: real)
    requires x <= y
    ensures Round(x) <= Round(y)
  {
    assert x.Floor <= y.Floor;
  }

  lemma RoundWhole(n: int, x: real)
    requires x == n as real
    ensures Round(x) == n
  {
    assert x.Floor == n;
  }

  lemma RoundPositive(x: real)
    requires x >= 0.0
    ensures Round(x) >= 0
    ensures Round(x) > 0 <==> x > 0.5
  {
    if x <= 0.5 { assert x.Floor == 0; } else { RoundAbove(x); }
  }

  lemma RoundAbove(x: real)
    requires x > 0.5
    ensures Round(x) > 0
  {
    var f := x.Floor;
    if f <= 0 { assert f == 0; }
  }

  lemma WrittenNonNegative(seconds: real)
    requires seconds >= 0.0
    ensures WrittenNanos(seconds) >= 0
    ensures WrittenNanos(seconds) >= 1_000_000 <==> seconds > 0.0005
    ensures WrittenNanos(seconds) == 0 <==> seconds <= 0.0005
  {
    RoundPositive(seconds * 1000.0);
  }

  lemma QuotientMonotone(level: real, steps: nat, i: nat, j: nat)
    requires level >= 0.0 && steps > 0 && i <= j
    ensures 0.0 <= Share(level, i, steps) <= Share(level, j, steps)
  {
    var a, b, s := i as real, j as real, steps as real;
    MulLe(a, b, level);
    assert a * level == level * a && b * level == level * b;
    MulLe(0.0, a, level);
    DivLe(level * a, 0.0, s);
    var q := level * b / s;
    assert q * s == level * b;
    DivLe(level * a, q, s);
  }

  // Step levels never fall.
  lemma StepLevelsRise(level: real, steps: nat, i: nat, j: nat)
    requires level >= 0.0 && steps > 0 && i <= j
    ensures 0 <= StepLevel(level, steps, i) <= StepLevel(level, steps, j)
  {
    QuotientMonotone(level, steps, i, j);
    RoundMonotone(Share(level, i, steps), Share(level, j, steps));
    RoundPositive(Share(level, i, steps));
  }

  lemma Cancel(x: real, z: real)
    requires z > 0.0
    ensures x * z / z == x
  {
    DivLe(x * z, x, z);
  }

  // The last step has the level asked for, rounded.
  lemma LastStepLevel(level: real, steps: nat)
    requires steps > 0
    ensures StepLevel(level, steps, steps) == Round(level)
  {
    ShareOfAll(level, steps as real, steps);
  }

  lemma ShareOfAll(level: real, s: real, steps: nat)
    requires steps > 0 && s == steps as real
    ensures Share(level, steps, steps) == level
  {
    Cancel(level, s);
  }

  // The first step is above zero exactly when the level is more than half a unit a step.
  lemma FirstStepLevel(level: real, steps: nat)
    requires level >= 0.0 && steps > 0
    ensures StepLevel(level, steps, 1) > 0 <==> 2.0 * level > steps as real
  {
    QuotientMonotone(level, steps, 1, 1);
    RoundPositive(Share(level, 1, steps));
    DivLe(level, 0.5, steps as real);
  }

  // ---------------------------------------------------------------- closed workload

  predicate Reasonable(load: Load) {
    load.throughput >= 0.0 && load.concurrency >= 0 && load.rampUp >= 0.0 && load.hold >= 0.0
  }

  lemma RoundNear(x: real)
    ensures -0.5 <= Round(x) as real - x <= 0.5
  {}

  predicate Near(x: int, y: real, e: real) { -e <= x as real - y <= e }

  // Three decimals are within half a millisecond.
  lemma WrittenNear(seconds: real)
    ensures Near(WrittenNanos(seconds), seconds * SECOND as real, 500_000.0)
  {
    RoundNear(seconds * 1000.0);
  }

  lemma {:induction false} StepsLast(level: real, rampUp: real, steps: nat, i: nat)
    requires 0 < steps && i <= steps
    ensures var ramp, d := StepsFrom(level, rampUp, steps, i), WrittenNanos(rampUp / steps as real);
            |ramp| == steps - i && TotalDuration(ramp) == (steps - i) * d
            && forall j :: 0 <= j < |ramp| ==> ramp[j].duration == d
    decreases steps - i
  {
    if i < steps {
      var d := WrittenNanos(rampUp / steps as real);
      StepsLast(level, rampUp, steps, i + 1);
      assert (steps - i) * d == (steps - (i + 1)) * d + d;
    }
  }

  lemma Times(n: nat, d: int, x: real, e: real)
    requires Near(d, x, e)
    ensures Near(n * d, n as real * x, n as real * e)
  {
    MulLe(-e, d as real - x, n as real);
    MulLe(d as real - x, e, n as real);
  }

  lemma Parts(n: nat, rampUp: real)
    requires n > 0
    ensures Near(n * WrittenNanos(rampUp / n as real), rampUp * SECOND as real, n as real * 500_000.0)
  {
    var part := rampUp / n as real;
    WrittenNear(part);
    Times(n, WrittenNanos(part), part * SECOND as real, 500_000.0);
    WholeOfParts(rampUp, n as real, part);
  }

  // How many pieces a ramp-up has.
  function Pieces(load: Load): nat {
    if load.rampUp == 0.0 then 0 else if load.steps == 0 then 1 else load.steps
  }

  // A ramp-up takes the time asked for, within half a millisecond a piece, in pieces of the same duration.
  lemma RampLasts(load: Load)
    requires Reasonable(load)
    ensures var ramp, n := RampPart(load), Pieces(load);
            |ramp| == n && (forall i, j :: 0 <= i < j < n ==> ramp[i].duration == ramp[j].duration)
            && Near(TotalDuration(ramp), load.rampUp * SECOND as real, n as real * 500_000.0)
  {
    if load.rampUp != 0.0 && load.steps > 0 {
      StepsLast(TargetLevel(load), load.rampUp, load.steps, 0);
      Parts(load.steps, load.rampUp);
    } else if load.rampUp != 0.0 {
      WrittenNear(load.rampUp);
      OneStep(RampPart(load)[0]);
    }
  }

  lemma OneStep(step: Level)
    ensures TotalDuration([step]) == step.duration
  {
    assert [step][1..] == [];
  }

  lemma WholeOfParts(x: real, n: real, part: real)
    requires n > 0.0 && part == x / n
    ensures n * (part * SECOND as real) == x * SECOND as real
  {
    assert part * n == x;
    assert n * (part * SECOND as real) == part * n * SECOND as real;
  }

  // The rest of the profile is the hold, at the level asked for, within half a millisecond of its time.
  lemma HoldLasts(load: Load)
    requires Reasonable(load)
    ensures var ramp, all := RampPart(load), Profile(load);
            ramp <= all && |all| == |ramp| + (if load.hold == 0.0 then 0 else 1)
            && Near(TotalDuration(all) - TotalDuration(ramp), load.hold * SECOND as real, 500_000.0)
            && (load.hold > 0.0 ==>
                  all[|ramp|].levelStart == all[|ramp|].levelEnd
                    == if load.throughput != 0.0 then load.throughput else load.concurrency as real)
  {
    DurationAppend(RampPart(load), HoldPart(load));
    WrittenNear(load.hold);
    if load.hold != 0.0 { OneStep(HoldPart(load)[0]); }
  }

  // The whole number nearest to a share of a level.
  predicate NearestShare(x: real, level: real, i: nat, steps: nat)
    requires steps > 0
  {
    x.Floor as real == x && -0.5 <= x - level * i as real / steps as real <= 0.5
  }

  lemma StepLevelNear(level: real, steps: nat, i: nat)
    requires steps > 0
    ensures NearestShare(StepLevel(level, steps, i) as real, level, i, steps)
  {
    RoundNear(Share(level, i, steps));
  }

  // A ramp-up in one piece rises from zero to the level asked for; one in steps is flat in each, at the whole
  // number nearest to its share of the level.
  lemma RampLevels(load: Load, i: nat)
    requires Reasonable(load) && i < Pieces(load)
    ensures i < |RampPart(load)|
    ensures var step := RampPart(load)[i];
            var level := if load.throughput != 0.0 then load.throughput else load.concurrency as real;
            if load.steps == 0 then step.levelStart == 0.0 && step.levelEnd == level
            else step.levelStart == step.levelEnd && NearestShare(step.levelEnd, level, i + 1, load.steps)
  {
    if load.steps > 0 {
      StepsAreConstant(TargetLevel(load), load.rampUp, load.steps, 0);
      StepLevelNear(TargetLevel(load), load.steps, i + 1);
    }
  }

  lemma {:induction false} StepsAreStaircase(level: real, rampUp: real, steps: nat, i: nat, tail: seq<Level>,
                                             from: real)
    requires level >= 0.0 && rampUp >= 0.0 && 0 < steps && i <= steps
    requires from == (if i == 0 then 0.0 else StepLevel(level, steps, i) as real)
    requires ClosedSchedule.Staircase(tail, StepLevel(level, steps, steps) as real)
    ensures ClosedSchedule.Staircase(StepsFrom(level, rampUp, steps, i) + tail, from)
    ensures ClosedSchedule.FinalLevel(StepsFrom(level, rampUp, steps, i) + tail, from)
              == ClosedSchedule.FinalLevel(tail, StepLevel(level, steps, steps) as real)
    decreases steps - i
  {
    var all := StepsFrom(level, rampUp, steps, i) + tail;
    if i == steps {
      assert all == tail;
    } else {
      StepLevelsRise(level, steps, i, i + 1);
      DivLe(rampUp, 0.0, steps as real);
      WrittenNonNegative(rampUp / steps as real);
      assert all[1..] == StepsFrom(level, rampUp, steps, i + 1) + tail;
      StepsAreStaircase(level, rampUp, steps, i + 1, tail, StepLevel(level, steps, i + 1) as real);
    }
  }

  // A closed load becomes a staircase of whole levels that ends at the concurrency.
  lemma ClosedLoadIsStaircase(load: Load)
    requires Reasonable(load) && load.throughput == 0.0
    ensures ClosedSchedule.Staircase(Profile(load), 0.0)
    ensures load.rampUp > 0.0 || load.hold > 0.0 ==>
              ClosedSchedule.FinalLevel(Profile(load), 0.0) == load.concurrency as real
  {
    var c := load.concurrency as real;
    WrittenNonNegative(load.rampUp);
    WrittenNonNegative(load.hold);
    assert c.Floor == load.concurrency;
    if load.rampUp != 0.0 && load.steps != 0 {
      LastStepLevel(c, load.steps);
      RoundWhole(load.concurrency, c);
      StepsAreStaircase(c, load.rampUp, load.steps, 0, HoldPart(load), 0.0);
    } else if load.rampUp != 0.0 {
      var all := Profile(load);
      assert all[0] == Level(0.0, c, WrittenNanos(load.rampUp)) && all[1..] == HoldPart(load);
      assert ClosedSchedule.FinalLevel(HoldPart(load), c) == c;
    } else {
      assert Profile(load) == HoldPart(load);
    }
  }

  // So the closed generator starts exactly as many workers as were asked for.
  lemma ClosedLoadStartsConcurrencyWorkers(load: Load)
    requires Reasonable(load) && load.throughput == 0.0
    requires load.rampUp > 0.0 || load.hold > 0.0
    ensures |ClosedSchedule.Offsets(Profile(load), 0.0, 0)| == load.concurrency
  {
    ClosedLoadIsStaircase(load);
    ClosedSchedule.WorkersStarted(Profile(load), 0.0, 0);
  }

  // ---------------------------------------------------------------- open workload

  lemma {:induction false} StepsAreConstant(level: real, rampUp: real, steps: nat, i: nat)
    requires level >= 0.0 && rampUp >= 0.0 && 0 < steps && i <= steps
    ensures |StepsFrom(level, rampUp, steps, i)| == steps - i
    ensures forall j :: 0 <= j < steps - i ==>
              StepsFrom(level, rampUp, steps, i)[j].duration >= 0
              && StepsFrom(level, rampUp, steps, i)[j].levelStart == StepsFrom(level, rampUp, steps, i)[j].levelEnd
                 == StepLevel(level, steps, i + 1 + j) as real
    decreases steps - i
  {
    if i < steps {
      DivLe(rampUp, 0.0, steps as real);
      WrittenNonNegative(rampUp / steps as real);
      StepsAreConstant(level, rampUp, steps, i + 1);
    }
  }

  predicate OpenLoad(load: Load) {
    Reasonable(load) && load.throughput > 0.0
  }

  // The highest rate with a nanosecond from one request to the next.
  const FASTEST: int := 1_000_000_000

  // What a caller can check beforehand. The level that is held is at most the fastest rate. A ramp-up
  // in one piece is not written as zero seconds, and is left; one broken into steps asks for more than
  // half a request a second for each step, and its last level is not too fast either.
  predicate Schedulable(sqrt: real -> real, load: Load)
    requires OpenLoad(load)
  {
    var level := load.throughput;
    (load.hold == 0.0 || level <= FASTEST as real)
    && (load.rampUp == 0.0
        || (if load.steps > 0 then 2.0 * level > load.steps as real && Round(level) <= FASTEST
            else WrittenNanos(load.rampUp) > 0
                 && OpenTermination.RampPasses(sqrt, Level(0.0, level, WrittenNanos(load.rampUp)), 0)))
  }

  lemma StepBetween(level: real, steps: nat, i: nat)
    requires level >= 0.0 && 1 <= i <= steps
    ensures StepLevel(level, steps, 1) <= StepLevel(level, steps, i) <= Round(level)
  {
    StepLevelsRise(level, steps, 1, i);
    StepLevelsRise(level, steps, i, steps);
    LastStepLevel(level, steps);
  }

  lemma StepServableIff(level: real, steps: nat, i: nat, step: Level)
    requires level >= 0.0 && 1 <= i <= steps && step.levelEnd == StepLevel(level, steps, i) as real
    ensures 2.0 * level > steps as real && Round(level) <= FASTEST ==> OpenSchedule.Servable(step)
    ensures i == 1 && OpenSchedule.Servable(step) ==> 2.0 * level > steps as real
    ensures i == steps && OpenSchedule.Servable(step) ==> Round(level) <= FASTEST
  {
    FirstStepLevel(level, steps);
    LastStepLevel(level, steps);
    StepBetween(level, steps, i);
  }

  lemma StepsServableIff(load: Load)
    requires OpenLoad(load) && load.rampUp > 0.0 && load.steps > 0
    ensures var level, n, ramp := load.throughput, load.steps, RampPart(load);
            OpenSchedule.NonNegativeDurations(ramp) && OpenTermination.ConstantFrom(ramp, 0) && |ramp| == n
            && (OpenTermination.ServableFrom(ramp, 0) <==> 2.0 * level > n as real && Round(level) <= FASTEST)
  {
    var level, n, ramp := load.throughput, load.steps, RampPart(load);
    StepsAreConstant(level, load.rampUp, n, 0);
    StepServableIff(level, n, 1, ramp[0]);
    StepServableIff(level, n, n, ramp[n - 1]);
    if 2.0 * level > n as real && Round(level) <= FASTEST {
      forall j | 0 <= j < n ensures OpenSchedule.Servable(ramp[j]) {
        StepServableIff(level, n, j + 1, ramp[j]);
      }
    }
  }

  lemma ProfileOf(load: Load)
    requires OpenLoad(load) && (load.rampUp > 0.0 && load.steps == 0 ==> WrittenNanos(load.rampUp) > 0)
    ensures var ramp, hold, scn := RampPart(load), HoldPart(load), Profile(load);
            OpenTermination.RampThenConstant(scn)
            && (load.rampUp == 0.0 ==> scn == hold && OpenTermination.FirstConstant(scn) == 0)
            && (load.rampUp > 0.0 && load.steps > 0 ==> OpenTermination.FirstConstant(scn) == 0)
            && (load.rampUp > 0.0 && load.steps == 0 ==>
                  OpenTermination.FirstConstant(scn) == 1 && scn[0] == ramp[0] && |ramp| == 1)
  {
    WrittenNonNegative(load.hold);
    if load.rampUp == 0.0 {
      TakeAll(HoldPart(load));
      assert Profile(load) == HoldPart(load);
    } else if load.steps > 0 {
      StepsServableIff(load);
      assert Profile(load)[0] == RampPart(load)[0];
    }
  }

  lemma HoldServableIff(load: Load)
    requires OpenLoad(load)
    ensures OpenTermination.ServableFrom(HoldPart(load), 0) <==> load.hold == 0.0 || load.throughput <= FASTEST as real
  {
    if load.hold != 0.0 { assert HoldPart(load)[0] == Flat(load.throughput, load.hold); }
  }

  lemma ServableParts(a: seq<Level>, b: seq<Level>, k: nat)
    requires k <= |a|
    ensures OpenTermination.ServableFrom(a + b, k)
       <==> OpenTermination.ServableFrom(a, k) && OpenTermination.ServableFrom(b, 0)
  {
    forall i | 0 <= i < |b| ensures (a + b)[|a| + i] == b[i] {}
    forall i | 0 <= i < |a| ensures (a + b)[i] == a[i] {}
  }

  // A ramp written with a duration of zero has no usable slope: offset 0 is emitted for ever.
  lemma ZeroRampNeverEnds(sqrt: real -> real, scn: seq<Level>, n: nat)
    requires scn != [] && scn[0].levelStart != scn[0].levelEnd && scn[0].duration == 0
    ensures !OpenSchedule.EndsAfter(OpenSchedule.OpenClock(sqrt), scn, n)
  {
    OpenTermination.Frozen(OpenSchedule.OpenClock(sqrt), scn, 0, 0, 0, n);
  }

  // The open generator ends on the profile of an open load, rather than panicking or emitting for
  // ever, if and only if the load is schedulable.
  lemma OpenLoadEndsIff(sqrt: real -> real, load: Load)
    requires IsSqrt(sqrt) && OpenLoad(load)
    ensures OpenSchedule.Ends(OpenSchedule.OpenClock(sqrt), Profile(load)) <==> Schedulable(sqrt, load)
  {
    WrittenNonNegative(load.rampUp);
    if load.rampUp > 0.0 && load.steps == 0 && WrittenNanos(load.rampUp) == 0 {
      forall n: nat ensures !OpenSchedule.EndsAfter(OpenSchedule.OpenClock(sqrt), Profile(load), n) {
        ZeroRampNeverEnds(sqrt, Profile(load), n);
      }
    } else {
      ProfileOf(load);
      OpenTermination.OpenScheduleEndsIff(sqrt, Profile(load));
      HoldServableIff(load);
      ServableParts(RampPart(load), HoldPart(load), OpenTermination.FirstConstant(Profile(load)));
      if load.rampUp > 0.0 && load.steps > 0 { StepsServableIff(load); }
    }
  }

  // ---------------------------------------------------------------- slower and faster loads

  // Up to 821 million a second, the ramp-up only has to be long enough to be written.
  lemma ModerateLoad(sqrt: real -> real, load: Load)
    requires IsSqrt(sqrt) && OpenLoad(load) && load.throughput <= 821_000_000.0
    ensures Schedulable(sqrt, load)
       <==> load.rampUp == 0.0
            || (if load.steps == 0 then load.rampUp > 0.0005 else 2.0 * load.throughput > load.steps as real)
  {
    RoundMonotone(load.throughput, 821_000_000.0);
    RoundWhole(821_000_000, 821_000_000.0);
    WrittenNonNegative(load.rampUp);
    if load.rampUp > 0.0005 && load.steps == 0 {
      RampThreshold.RampWithinLayers(sqrt, Level(0.0, load.throughput, WrittenNanos(load.rampUp)));
    }
  }

  // From 822.6 million a second on, no ramp-up in one piece ends.
  lemma FastRampNeverEnds(sqrt: real -> real, load: Load)
    requires IsSqrt(sqrt) && OpenLoad(load) && load.throughput >= 822_600_000.0
    requires load.rampUp > 0.0 && load.steps == 0
    ensures !OpenSchedule.Ends(OpenSchedule.OpenClock(sqrt), Profile(load))
  {
    OpenLoadEndsIff(sqrt, load);
    if WrittenNanos(load.rampUp) > 0 {
      RampThreshold.RampAboveAllLayers(sqrt, Level(0.0, load.throughput, WrittenNanos(load.rampUp)));
    }
  }

  // One request a second ramped up in ten steps: the first step rounds to level zero.
  lemma TenStepsToOneNeverEnd(sqrt: real -> real)
    requires IsSqrt(sqrt)
    ensures var load := Load(1.0, 1, 10.0, 10, 0.0);
            OpenLoad(load) && !OpenSchedule.Ends(OpenSchedule.OpenClock(sqrt), Profile(load))
  {
    var load := Load(1.0, 1, 10.0, 10, 0.0);
    OpenLoadEndsIff(sqrt, load);
    ModerateLoad(sqrt, load);
  }
}
