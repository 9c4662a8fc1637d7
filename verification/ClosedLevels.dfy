/** Closed workloads whose levels are not whole, or fall: what the schedule is then. */
module ClosedLevels {
  import opened Scenario
  import opened ClosedSchedule

  // ---------------------------------------------------------------- levels that are not whole

  // The least number of workers that bring a level up to another.
  ghost predicate LeastToReach(level: real, goal: real, n: nat) {
    level + n as real >= goal && (n > 0 ==> level + (n - 1) as real < goal)
  }

  // The greatest number of workers within a span.
  ghost predicate MostWithin(span: real, n: nat) { n as real <= span < (n + 1) as real }

  lemma TurnsReach(level: real, goal: real)
    ensures LeastToReach(level, goal, Turns(level, goal))
  {}

  // Whatever its levels, a rising step starts at once as many workers as bring the level up to its own, at least;
  // then, at every nanosecond inside it, those that its straight line has reached: the line is less than one
  // worker ahead of them, and they are not ahead of where it is a nanosecond later.
  lemma AnyRiseFollowsProfile(step: Level, level: real, offset: int, x: int) returns (jump: nat, climbed: nat)
    requires step.levelStart < step.levelEnd && 0 <= x < step.duration
    ensures StartedBy(Block(step, level, offset), offset + x) == jump + climbed
    ensures LeastToReach(level, step.levelStart, jump)
    ensures Profile(step, x) - 1.0 < step.levelStart + climbed as real < Profile(step, x + 1)
  {
    var first, climb := Copies(Turns(level, step.levelStart), offset), StepOffsets(step, offset);
    jump := |first|;
    TurnsReach(level, step.levelStart);
    StartedByAppend(first, climb, offset + x);
    AllStarted(first, offset + x);
    SpacingFacts(step);
    climbed := RisingStarted(Spacing(step), |climb|, offset, x);
    DueOnProfile(step, x, climbed);
    if climbed < |climb| { DueOnProfile(step, x, climbed + 1); } else { ProfileBelowEnd(step, x); }
  }

  // It starts all that its levels have room for, in order and within its duration; a step that falls, or stays
  // level, starts those that bring the level up to its own, at once, and no more.
  lemma AnyStepStarts(step: Level, level: real, offset: int) returns (jump: nat, climb: nat)
    requires step.duration >= 0
    ensures var b := Block(step, level, offset);
            |b| == jump + climb && Ordered(b)
            && (forall i :: 0 <= i < jump ==> b[i] == offset)
            && forall i :: 0 <= i < |b| ==> offset <= b[i] <= offset + step.duration
    ensures LeastToReach(level, step.levelStart, jump)
    ensures if step.levelStart < step.levelEnd then MostWithin(step.levelEnd - step.levelStart, climb) else climb == 0
  {
    var first, rest := Copies(Turns(level, step.levelStart), offset), StepOffsets(step, offset);
    jump, climb := |first|, |rest|;
    TurnsReach(level, step.levelStart);
    if step.levelStart < step.levelEnd {
      SpacingFacts(step);
      forall i | 0 <= i < |rest| ensures offset <= rest[i] <= offset + step.duration {
        RisingInStep(step, |rest|, offset, i);
      }
      forall i, j | 0 <= i < j < |rest| ensures rest[i] <= rest[j] {
        RisingOrdered(Spacing(step), |rest|, offset, i, j);
      }
    }
    OrderedAppend(first, rest, offset);
  }

  // ---------------------------------------------------------------- levels that fall

  ghost predicate WholeLevels(scn: seq<Level>, level: real) {
    Whole(level)
    && (scn != [] ==> Whole(scn[0].levelStart) && Whole(scn[0].levelEnd) && WholeLevels(scn[1..], scn[0].levelEnd))
  }

  function Up(from: real, to: real): real { if from < to then to - from else 0.0 }

  // By how much the level goes up in all, and by how much it comes down.
  function Rises(scn: seq<Level>, level: real): real {
    if scn == [] then 0.0
    else Up(level, scn[0].levelStart) + Up(scn[0].levelStart, scn[0].levelEnd) + Rises(scn[1..], scn[0].levelEnd)
  }

  function Falls(scn: seq<Level>, level: real): real {
    if scn == [] then 0.0
    else Up(scn[0].levelStart, level) + Up(scn[0].levelEnd, scn[0].levelStart) + Falls(scn[1..], scn[0].levelEnd)
  }

  lemma {:induction false} UpAndDown(scn: seq<Level>, level: real)
    ensures Rises(scn, level) - Falls(scn, level) == FinalLevel(scn, level) - level && Falls(scn, level) >= 0.0
  {
    if scn != [] { UpAndDown(scn[1..], scn[0].levelEnd); }
  }

  lemma UpIsCounted(from: real, to: real)
    requires Whole(from) && Whole(to)
    ensures Turns(from, to) as real == Up(from, to)
    ensures from < to ==> (to - from).Floor as real == Up(from, to)
  {
    if from < to { WholeDifference(from, to); }
  }

  lemma {:induction false} WorkersAreRises(scn: seq<Level>, level: real, offset: int)
    requires WholeLevels(scn, level)
    ensures |Offsets(scn, level, offset)| as real == Rises(scn, level)
  {
    if scn != [] {
      UpIsCounted(level, scn[0].levelStart);
      UpIsCounted(scn[0].levelStart, scn[0].levelEnd);
      WorkersAreRises(scn[1..], scn[0].levelEnd, offset + scn[0].duration);
    }
  }

  // For all whole levels: a worker is started for every unit the level goes up, and none is stopped when it comes
  // down; so the workers in the end are more than the final level by all that it has come down, and as many as
  // that if and only if it never does.
  lemma FinalWorkers(scn: seq<Level>)
    requires WholeLevels(scn, 0.0)
    ensures |Offsets(scn, 0.0, 0)| as real == FinalLevel(scn, 0.0) + Falls(scn, 0.0)
    ensures |Offsets(scn, 0.0, 0)| as real == FinalLevel(scn, 0.0) <==> NeverFalls(scn, 0.0)
  {
    WorkersAreRises(scn, 0.0, 0);
    UpAndDown(scn, 0.0);
    NoFallIff(scn, 0.0);
  }

  predicate NeverFalls(scn: seq<Level>, level: real) {
    scn != [] ==> level <= scn[0].levelStart <= scn[0].levelEnd && NeverFalls(scn[1..], scn[0].levelEnd)
  }

  lemma {:induction false} NoFallIff(scn: seq<Level>, level: real)
    ensures Falls(scn, level) == 0.0 <==> NeverFalls(scn, level)
    ensures Falls(scn, level) >= 0.0
  {
    if scn != [] { NoFallIff(scn[1..], scn[0].levelEnd); }
  }
}
