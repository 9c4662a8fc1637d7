/** The closed-workload schedule generator: the offset, in nanoseconds, at which each worker starts. */
module ClosedSchedule {
  import opened Scenario
  import opened Sequences
  import opened RealFacts

  // Turns of a loop counting up by one from one level to just below another.
  function Turns(from: real, to: real): nat {
    if from < to then -((from - to).Floor) else 0
  }

  function Copies(n: nat, offset: int): (s: seq<int>)
    ensures |s| == n
  {
    seq(n, i => offset)
  }

  // Conversion to whole nanoseconds truncates towards zero.
  function Nanos(x: real): int {
    if x >= 0.0 then x.Floor else -((-x).Floor)
  }

  function Spacing(step: Level): real
    requires step.levelStart < step.levelEnd
  {
    step.duration as real / (step.levelEnd - step.levelStart)
  }

  function RisingAt(spacing: real, offset: int, i: nat): int {
    offset + Nanos(spacing * (i + 1) as real)
  }

  // The first n workers of a rising step that begins at offset.
  function Rising(spacing: real, n: nat, offset: int): (s: seq<int>)
    ensures |s| == n
  {
    seq(n, i requires 0 <= i => RisingAt(spacing, offset, i))
  }

  function StepOffsets(step: Level, offset: int): seq<int> {
    if step.levelStart < step.levelEnd
    then Rising(Spacing(step), (step.levelEnd - step.levelStart).Floor, offset)
    else []
  }

  // One step: the jump from the current level to its starting level, then the climb.
  function Block(step: Level, level: real, offset: int): seq<int> {
    Copies(Turns(level, step.levelStart), offset) + StepOffsets(step, offset)
  }

  function Offsets(scn: seq<Level>, level: real, offset: int): seq<int> {
    if scn == [] then []
    else Block(scn[0], level, offset) + Offsets(scn[1..], scn[0].levelEnd, offset + scn[0].duration)
  }

  lemma TurnTaken(from: real, m: nat, to: real)
    ensures from + m as real < to ==> m < Turns(from, to)
    ensures from + m as real >= to && m <= Turns(from, to) ==> m == Turns(from, to)
  {}

  // Reach the starting level of a step.
  method ReachLevel(offsets: seq<int>, curLevel: real, levelStart: real, curOffset: int) returns (more: seq<int>)
    ensures more == offsets + Copies(Turns(curLevel, levelStart), curOffset)
  {
    more := offsets;
    var i := curLevel;
    ghost var m: nat := 0;
    while i < levelStart
      invariant i == curLevel + m as real && m <= Turns(curLevel, levelStart)
      invariant more == offsets + Copies(m, curOffset)
      decreases levelStart - i
    {
      TurnTaken(curLevel, m, levelStart);
      more := more + [curOffset];
      i, m := i + 1.0, m + 1;
    }
    TurnTaken(curLevel, m, levelStart);
  }

  lemma RisingSnoc(spacing: real, m: nat, offset: int)
    ensures Rising(spacing, m + 1, offset) == Rising(spacing, m, offset) + [RisingAt(spacing, offset, m)]
  {}

  // Progress through a rising step.
  method ProgressThrough(offsets: seq<int>, step: Level, curOffset: int) returns (more: seq<int>)
    ensures more == offsets + StepOffsets(step, curOffset)
  {
    more := offsets;
    if step.levelStart < step.levelEnd {
      var durStep := Spacing(step);
      var i := 1.0; // the worker of level 0 has been started already
      ghost var m: nat := 0;
      while i <= step.levelEnd - step.levelStart
        invariant i == (m + 1) as real && m <= (step.levelEnd - step.levelStart).Floor
        invariant more == offsets + Rising(durStep, m, curOffset)
        decreases step.levelEnd - step.levelStart + 1.0 - i
      {
        RisingSnoc(durStep, m, curOffset);
        assert i == (m + 1) as real;
        assert curOffset + Nanos(durStep * i) == RisingAt(durStep, curOffset, m);
        more := more + [curOffset + Nanos(durStep * i)];
        i, m := i + 1.0, m + 1;
      }
      assert m == (step.levelEnd - step.levelStart).Floor;
    }
  }

  method AppendStep(offsets: seq<int>, step: Level, curLevel: real, curOffset: int) returns (more: seq<int>)
    ensures more == offsets + Block(step, curLevel, curOffset)
  {
    more := ReachLevel(offsets, curLevel, step.levelStart, curOffset);
    more := ProgressThrough(more, step, curOffset);
  }

  // The offsets of the steps before s have been appended, and the others follow.
  ghost predicate Upto(scn: seq<Level>, s: nat, offsets: seq<int>, level: real, offset: int) {
    s <= |scn| && offsets + Offsets(scn[s..], level, offset) == Offsets(scn, 0.0, 0)
  }

  lemma NoStepYet(scn: seq<Level>)
    ensures Upto(scn, 0, [], 0.0, 0)
  {
    assert scn[0..] == scn;
  }

  lemma AllSteps(scn: seq<Level>, offsets: seq<int>, level: real, offset: int)
    requires Upto(scn, |scn|, offsets, level, offset)
    ensures offsets == Offsets(scn, 0.0, 0)
  {
    assert scn[|scn|..] == [];
  }

  lemma StepAppended(scn: seq<Level>, s: nat, before: seq<int>, level: real, offset: int)
    requires s < |scn| && Upto(scn, s, before, level, offset)
    ensures Upto(scn, s + 1, before + Block(scn[s], level, offset), scn[s].levelEnd, offset + scn[s].duration)
  {
    assert scn[s..][0] == scn[s] && scn[s..][1..] == scn[s + 1..];
    Reassociate(before, Block(scn[s], level, offset), Offsets(scn[s + 1..], scn[s].levelEnd, offset + scn[s].duration));
  }

  method GenerateSchedule(scn: seq<Level>) returns (offsets: seq<int>)
    ensures offsets == Offsets(scn, 0.0, 0)
  {
    offsets := [];
    var curLevel, curOffset := 0.0, 0;
    NoStepYet(scn);
    for s := 0 to |scn|
      invariant Upto(scn, s, offsets, curLevel, curOffset)
    {
      StepAppended(scn, s, offsets, curLevel, curOffset);
      offsets := AppendStep(offsets, scn[s], curLevel, curOffset);
      curLevel, curOffset := scn[s].levelEnd, curOffset + scn[s].duration;
    }
    AllSteps(scn, offsets, curLevel, curOffset);
  }

  // ---------------------------------------------------------------- integer levels that never fall

  ghost predicate Whole(level: real) { level.Floor as real == level }

  // Whole levels from `level` on, never falling, with durations that are not negative.
  ghost predicate Staircase(scn: seq<Level>, level: real) {
    scn != [] ==> RisingStep(scn[0], level) && Staircase(scn[1..], scn[0].levelEnd)
  }

  function FinalLevel(scn: seq<Level>, level: real): real {
    if scn == [] then level else FinalLevel(scn[1..], scn[0].levelEnd)
  }

  lemma FloorOfInt(n: int, x: real)
    requires x == n as real
    ensures x.Floor == n
  {}

  lemma WholeDifference(a: real, b: real)
    requires Whole(a) && Whole(b) && a <= b
    ensures (b - a).Floor as real == b - a
    ensures Turns(a, b) as real == b - a
  {
    FloorOfInt(b.Floor - a.Floor, b - a);
    FloorOfInt(a.Floor - b.Floor, a - b);
  }

  lemma StepCount(step: Level, level: real, offset: int)
    requires Whole(level) && Whole(step.levelStart) && Whole(step.levelEnd)
    requires level <= step.levelStart <= step.levelEnd
    ensures Turns(level, step.levelStart) as real == step.levelStart - level
    ensures |StepOffsets(step, offset)| as real == step.levelEnd - step.levelStart
  {
    WholeDifference(level, step.levelStart);
    WholeDifference(step.levelStart, step.levelEnd);
  }

  // One worker is started for each unit of the final level.
  lemma {:induction false} WorkersStarted(scn: seq<Level>, level: real, offset: int)
    requires Staircase(scn, level)
    ensures |Offsets(scn, level, offset)| as real == FinalLevel(scn, level) - level
  {
    if scn != [] {
      StepCount(scn[0], level, offset);
      WorkersStarted(scn[1..], scn[0].levelEnd, offset + scn[0].duration);
    }
  }

  lemma SpacingFacts(step: Level)
    requires step.levelStart < step.levelEnd && step.duration >= 0
    ensures Spacing(step) >= 0.0
    ensures Spacing(step) * (step.levelEnd - step.levelStart) == step.duration as real
  {
    var d, span := Spacing(step), step.levelEnd - step.levelStart;
    assert d * span == step.duration as real;
    if d < 0.0 { Monotone(span, d, 0.0); }
  }

  lemma Monotone(d: real, a: real, b: real)
    requires d >= 0.0 && a <= b
    ensures d * a <= d * b
  {}

  lemma Positive(d: real, a: real)
    requires d >= 0.0 && a >= 0.0
    ensures d * a >= 0.0
  {}

  lemma PointBelow(d: real, a: real, span: real, dur: real)
    requires d >= 0.0 && a <= span && d * span == dur
    ensures d * a <= dur
  {
    Monotone(d, a, span);
  }

  lemma NanosMonotone(x: real, y: real)
    requires 0.0 <= x <= y
    ensures 0 <= Nanos(x) <= Nanos(y)
  {}

  // The offsets of a rising step are in order and within the step.
  lemma RisingInStep(step: Level, n: nat, offset: int, i: nat)
    requires step.levelStart < step.levelEnd && step.duration >= 0
    requires n as real <= step.levelEnd - step.levelStart && i < n
    ensures offset <= Rising(Spacing(step), n, offset)[i] <= offset + step.duration
  {
    var d := Spacing(step);
    SpacingFacts(step);
    Positive(d, (i + 1) as real);
    PointBelow(d, (i + 1) as real, step.levelEnd - step.levelStart, step.duration as real);
    NanosMonotone(d * (i + 1) as real, step.duration as real);
    assert Nanos(step.duration as real) == step.duration;
  }

  lemma RisingOrdered(spacing: real, n: nat, offset: int, i: nat, j: nat)
    requires spacing >= 0.0 && i <= j < n
    ensures Rising(spacing, n, offset)[i] <= Rising(spacing, n, offset)[j]
  {
    Positive(spacing, (i + 1) as real);
    Monotone(spacing, (i + 1) as real, (j + 1) as real);
    NanosMonotone(spacing * (i + 1) as real, spacing * (j + 1) as real);
  }

  ghost predicate RisingStep(step: Level, level: real) {
    Whole(level) && Whole(step.levelStart) && Whole(step.levelEnd)
    && level <= step.levelStart <= step.levelEnd && step.duration >= 0
  }

  lemma BlockInStep(step: Level, level: real, offset: int, i: nat)
    requires RisingStep(step, level) && i < |Block(step, level, offset)|
    ensures offset <= Block(step, level, offset)[i] <= offset + step.duration
  {
    var j, climb := Turns(level, step.levelStart), StepOffsets(step, offset);
    if j <= i { RisingInStep(step, |climb|, offset, i - j); }
  }

  // Every offset lies within the scenario.
  lemma {:induction false} OffsetsInScenario(scn: seq<Level>, level: real, offset: int, i: nat)
    requires Staircase(scn, level) && i < |Offsets(scn, level, offset)|
    ensures offset <= Offsets(scn, level, offset)[i] <= offset + TotalDuration(scn)
  {
    var step := scn[0];
    var b := Block(step, level, offset);
    DurationNonNegative(scn[1..], step.levelEnd);
    if i < |b| {
      BlockInStep(step, level, offset, i);
    } else {
      OffsetsInScenario(scn[1..], step.levelEnd, offset + step.duration, i - |b|);
    }
  }

  ghost predicate Ordered(s: seq<int>) {
    forall i, j :: 0 <= i < j < |s| ==> s[i] <= s[j]
  }

  lemma OrderedAppend(a: seq<int>, b: seq<int>, m: int)
    requires Ordered(a) && Ordered(b)
    requires forall i :: 0 <= i < |a| ==> a[i] <= m
    requires forall i :: 0 <= i < |b| ==> m <= b[i]
    ensures Ordered(a + b)
  {}

  lemma BlockOrdered(step: Level, level: real, offset: int)
    requires RisingStep(step, level)
    ensures Ordered(Block(step, level, offset))
  {
    var jump, climb := Copies(Turns(level, step.levelStart), offset), StepOffsets(step, offset);
    forall i, j | 0 <= i < j < |climb| ensures climb[i] <= climb[j] {
      SpacingFacts(step);
      RisingOrdered(Spacing(step), |climb|, offset, i, j);
    }
    forall i | 0 <= i < |climb| ensures offset <= climb[i] { RisingInStep(step, |climb|, offset, i); }
    OrderedAppend(jump, climb, offset);
  }

  lemma StepThenRest(scn: seq<Level>, level: real, offset: int)
    requires scn != [] && Staircase(scn, level)
    requires Ordered(Block(scn[0], level, offset))
    requires Ordered(Offsets(scn[1..], scn[0].levelEnd, offset + scn[0].duration))
    ensures Ordered(Offsets(scn, level, offset))
  {
    var end := offset + scn[0].duration;
    var block, rest := Block(scn[0], level, offset), Offsets(scn[1..], scn[0].levelEnd, end);
    forall i | 0 <= i < |block| ensures block[i] <= end { BlockInStep(scn[0], level, offset, i); }
    forall i | 0 <= i < |rest| ensures end <= rest[i] { OffsetsInScenario(scn[1..], scn[0].levelEnd, end, i); }
    OrderedAppend(block, rest, end);
    assert Offsets(scn, level, offset) == block + rest;
  }

  // No offset comes before an earlier one.
  lemma {:induction false} OffsetsOrdered(scn: seq<Level>, level: real, offset: int)
    requires Staircase(scn, level)
    ensures Ordered(Offsets(scn, level, offset))
  {
    if scn != [] {
      BlockOrdered(scn[0], level, offset);
      OffsetsOrdered(scn[1..], scn[0].levelEnd, offset + scn[0].duration);
      StepThenRest(scn, level, offset);
    }
  }

  lemma {:induction false} DurationNonNegative(scn: seq<Level>, level: real)
    requires Staircase(scn, level)
    ensures TotalDuration(scn) >= 0
  {
    if scn != [] { DurationNonNegative(scn[1..], scn[0].levelEnd); }
  }

  // ---------------------------------------------------------------- the load profile

  // How many workers have been started by nanosecond t.
  function StartedBy(offsets: seq<int>, t: int): nat {
    if offsets == [] then 0 else (if offsets[0] <= t then 1 else 0) + StartedBy(offsets[1..], t)
  }

  lemma {:induction false} StartedByAppend(a: seq<int>, b: seq<int>, t: int)
    ensures StartedBy(a + b, t) == StartedBy(a, t) + StartedBy(b, t)
  {
    if a == [] {
      assert a + b == b;
    } else {
      assert (a + b)[1..] == a[1..] + b;
      StartedByAppend(a[1..], b, t);
    }
  }

  lemma {:induction false} AllStarted(a: seq<int>, t: int)
    requires forall i :: 0 <= i < |a| ==> a[i] <= t
    ensures StartedBy(a, t) == |a|
  {
    if a != [] { AllStarted(a[1..], t); }
  }

  lemma {:induction false} NoneStarted(a: seq<int>, t: int)
    requires forall i :: 0 <= i < |a| ==> t < a[i]
    ensures StartedBy(a, t) == 0
  {
    if a != [] { NoneStarted(a[1..], t); }
  }

  lemma {:induction false} StartedInOrder(a: seq<int>, t: int, c: nat)
    requires c <= |a|
    requires forall i :: 0 <= i < c ==> a[i] <= t
    requires forall i :: c <= i < |a| ==> t < a[i]
    ensures StartedBy(a, t) == c
  {
    assert a == a[..c] + a[c..];
    StartedByAppend(a[..c], a[c..], t);
    AllStarted(a[..c], t);
    NoneStarted(a[c..], t);
  }

  // The straight line from levelStart to levelEnd, x nanoseconds into the step.
  function Profile(step: Level, x: int): real
    requires step.duration > 0
  {
    step.levelStart + (step.levelEnd - step.levelStart) * x as real / step.duration as real
  }

  // Whether worker number i of a rising step has been started x nanoseconds into it.
  ghost predicate Due(spacing: real, x: int, i: nat) {
    spacing * i as real < (x + 1) as real
  }

  lemma DueIsStarted(spacing: real, offset: int, x: int, i: nat)
    requires spacing >= 0.0
    ensures RisingAt(spacing, offset, i) <= offset + x <==> Due(spacing, x, i + 1)
  {
    Positive(spacing, (i + 1) as real);
  }

  lemma DueEarlier(spacing: real, x: int, i: nat, j: nat)
    requires spacing >= 0.0 && i <= j && Due(spacing, x, j)
    ensures Due(spacing, x, i)
  {
    Monotone(spacing, i as real, j as real);
  }

  // The last worker that is due.
  lemma {:induction false} LastDue(spacing: real, x: int, n: nat) returns (c: nat)
    requires spacing >= 0.0 && x >= 0
    ensures c <= n && Due(spacing, x, c)
    ensures c < n ==> !Due(spacing, x, c + 1)
  {
    if n == 0 {
      c := 0;
      assert spacing * 0 as real == 0.0;
    } else if Due(spacing, x, n) {
      c := n;
    } else {
      c := LastDue(spacing, x, n - 1);
    }
  }

  lemma RisingStarted(spacing: real, n: nat, offset: int, x: int) returns (c: nat)
    requires spacing >= 0.0 && x >= 0
    ensures c == StartedBy(Rising(spacing, n, offset), offset + x)
    ensures c <= n && Due(spacing, x, c)
    ensures c < n ==> !Due(spacing, x, c + 1)
  {
    c := LastDue(spacing, x, n);
    forall i | 0 <= i < c ensures Rising(spacing, n, offset)[i] <= offset + x {
      DueEarlier(spacing, x, i + 1, c);
      DueIsStarted(spacing, offset, x, i);
    }
    forall i | c <= i < n ensures offset + x < Rising(spacing, n, offset)[i] {
      if Due(spacing, x, i + 1) { DueEarlier(spacing, x, c + 1, i + 1); }
      DueIsStarted(spacing, offset, x, i);
    }
    StartedInOrder(Rising(spacing, n, offset), offset + x, c);
  }

  // c workers being due is the same as the profile having reached c levels at the next nanosecond.
  lemma DueOnProfile(step: Level, x: int, c: nat)
    requires step.levelStart < step.levelEnd && step.duration > 0
    ensures Due(Spacing(step), x, c) <==> step.levelStart + c as real < Profile(step, x + 1)
    ensures !Due(Spacing(step), x, c) ==> Profile(step, x) < step.levelStart + c as real
  {
    var d, span, dur := Spacing(step), step.levelEnd - step.levelStart, step.duration as real;
    assert d * span == dur;
    LinePoint(d, span, dur, c as real, (x + 1) as real);
    LinePoint(d, span, dur, c as real, x as real);
  }

  lemma LinePoint(d: real, span: real, dur: real, c: real, y: real)
    requires span > 0.0 && dur > 0.0 && d * span == dur
    ensures d * c < y <==> c < span * y / dur
  {
    var p := span * y / dur;
    assert p * dur == span * y;
    assert (d * c) * span == c * dur;
    if d * c < y { MulLt(d * c, y, span); }
    if c < p { MulLt(c, p, dur); }
  }

  // x nanoseconds into step j the workers started so far follow its straight line.
  ghost predicate FollowsProfile(step: Level, x: int, workers: int)
    requires step.duration > 0
  {
    if step.levelStart == step.levelEnd then workers as real == step.levelStart
    else Profile(step, x).Floor <= workers && workers as real < Profile(step, x + 1)
  }

  lemma BlockFollowsProfile(step: Level, level: real, offset: int, x: int)
    requires RisingStep(step, level) && 0 <= x < step.duration
    ensures FollowsProfile(step, x, level.Floor + StartedBy(Block(step, level, offset), offset + x))
  {
    var jump, climb := Copies(Turns(level, step.levelStart), offset), StepOffsets(step, offset);
    StepCount(step, level, offset);
    StartedByAppend(jump, climb, offset + x);
    AllStarted(jump, offset + x);
    if step.levelStart < step.levelEnd {
      SpacingFacts(step);
      var c := RisingStarted(Spacing(step), |climb|, offset, x);
      DueOnProfile(step, x, c);
      if c < |climb| { DueOnProfile(step, x, c + 1); } else { ProfileBelowEnd(step, x); }
      FloorBelow(Profile(step, x), step.levelStart.Floor + c);
    }
  }

  lemma FloorBelow(x: real, n: int)
    requires x < (n + 1) as real
    ensures x.Floor <= n
  {}

  lemma ProfileBelowEnd(step: Level, x: int)
    requires step.levelStart < step.levelEnd && 0 <= x < step.duration
    ensures Profile(step, x) < step.levelEnd
  {
    var span, dur, p := step.levelEnd - step.levelStart, step.duration as real, Profile(step, x) - step.levelStart;
    assert p * dur == span * x as real;
    MulLt(x as real, dur, span);
    if p >= span {
      if p > span { MulLt(span, p, dur); }
    }
  }

  // The level and the offset at which step j begins.
  function BeginningOf(scn: seq<Level>, level: real, offset: int, j: nat): (real, int)
    requires j <= |scn|
  {
    if j == 0 then (level, offset) else BeginningOf(scn[1..], scn[0].levelEnd, offset + scn[0].duration, j - 1)
  }

  lemma {:induction false} BeginningIs(scn: seq<Level>, level: real, offset: int, j: nat)
    requires j <= |scn|
    ensures BeginningOf(scn, level, offset, j)
         == (if j == 0 then level else scn[j - 1].levelEnd, offset + TotalDuration(scn[..j]))
  {
    if j > 0 {
      BeginningIs(scn[1..], scn[0].levelEnd, offset + scn[0].duration, j - 1);
      assert scn[..j][1..] == scn[1..][..j - 1];
    }
  }

  lemma AroundFirst(scn: seq<Level>, level: real, offset: int) returns (later: seq<int>)
    requires scn != [] && Staircase(scn, level)
    ensures RisingStep(scn[0], level)
    ensures Offsets(scn, level, offset) == [] + (Block(scn[0], level, offset) + later)
    ensures forall i :: 0 <= i < |later| ==> offset + scn[0].duration <= later[i]
  {
    var end := offset + scn[0].duration;
    later := Offsets(scn[1..], scn[0].levelEnd, end);
    forall i | 0 <= i < |later| ensures end <= later[i] { OffsetsInScenario(scn[1..], scn[0].levelEnd, end, i); }
  }

  lemma OneBlockMore(all: seq<int>, block: seq<int>, front: seq<int>, rest: seq<int>)
    requires all == block + (front + rest)
    ensures all == block + front + rest
  {}

  lemma AllAtMost(a: seq<int>, b: seq<int>, bound: int)
    requires forall i :: 0 <= i < |a| ==> a[i] <= bound
    requires forall i :: 0 <= i < |b| ==> b[i] <= bound
    ensures forall i :: 0 <= i < |a + b| ==> (a + b)[i] <= bound
  {}

  // The schedule around a step that begins at (v, start): what is started before it, its own offsets,
  // and what comes later.
  ghost predicate Around(all: seq<int>, level: real, offset: int, past: seq<int>, step: Level, v: real, start: int,
                         later: seq<int>)
  {
    RisingStep(step, v) && start >= offset
    && all == past + (Block(step, v, start) + later)
    && |past| == v.Floor - level.Floor
    && (forall i :: 0 <= i < |past| ==> past[i] <= start)
    && forall i :: 0 <= i < |later| ==> start + step.duration <= later[i]
  }

  lemma OneStepMore(all: seq<int>, first: Level, level: real, offset: int, rest: seq<int>, front: seq<int>, step: Level,
                    v: real, start: int, later: seq<int>)
    requires RisingStep(first, level) && all == Block(first, level, offset) + rest
    requires Around(rest, first.levelEnd, offset + first.duration, front, step, v, start, later)
    ensures Around(all, level, offset, Block(first, level, offset) + front, step, v, start, later)
  {
    BlockDone(first, level, offset);
    OneBlockMore(all, Block(first, level, offset), front, Block(step, v, start) + later);
    AllAtMost(Block(first, level, offset), front, start);
  }

  lemma {:induction false} AroundStep(scn: seq<Level>, level: real, offset: int, j: nat)
    returns (past: seq<int>, later: seq<int>)
    requires Staircase(scn, level) && j < |scn|
    ensures var (v, start) := BeginningOf(scn, level, offset, j);
            Around(Offsets(scn, level, offset), level, offset, past, scn[j], v, start, later)
  {
    if j == 0 {
      past := [];
      later := AroundFirst(scn, level, offset);
    } else {
      var first, end := scn[0], offset + scn[0].duration;
      var (v, start) := BeginningOf(scn, level, offset, j);
      past, later := AroundStep(scn[1..], first.levelEnd, end, j - 1);
      OneStepMore(Offsets(scn, level, offset), first, level, offset, Offsets(scn[1..], first.levelEnd, end), past,
                  scn[j], v, start, later);
      past := Block(first, level, offset) + past;
    }
  }

  lemma BlockDone(step: Level, level: real, offset: int)
    requires RisingStep(step, level)
    ensures |Block(step, level, offset)| == step.levelEnd.Floor - level.Floor
    ensures forall i :: 0 <= i < |Block(step, level, offset)| ==>
              Block(step, level, offset)[i] <= offset + step.duration
  {
    forall i | 0 <= i < |Block(step, level, offset)|
      ensures Block(step, level, offset)[i] <= offset + step.duration
    {
      BlockInStep(step, level, offset, i);
    }
    StepCount(step, level, offset);
  }

  lemma StartedAround(past: seq<int>, block: seq<int>, later: seq<int>, t: int)
    requires forall i :: 0 <= i < |past| ==> past[i] <= t
    requires forall i :: 0 <= i < |later| ==> t < later[i]
    ensures StartedBy(past + (block + later), t) == |past| + StartedBy(block, t)
  {
    StartedByAppend(past, block + later, t);
    StartedByAppend(block, later, t);
    AllStarted(past, t);
    NoneStarted(later, t);
  }

  // At every nanosecond strictly inside a step, the workers started so far are at least the profile
  // rounded down, and fewer than the profile a nanosecond later; in a flat step they equal it.
  lemma ClosedScheduleFollowsProfile(scn: seq<Level>, j: nat, x: int)
    requires Staircase(scn, 0.0) && j < |scn| && 0 <= x < scn[j].duration
    ensures FollowsProfile(scn[j], x, StartedBy(Offsets(scn, 0.0, 0), TotalDuration(scn[..j]) + x))
  {
    var (v, start) := BeginningOf(scn, 0.0, 0, j);
    BeginningIs(scn, 0.0, 0, j);
    var past, later := AroundStep(scn, 0.0, 0, j);
    StartedAround(past, Block(scn[j], v, start), later, start + x);
    BlockFollowsProfile(scn[j], v, start, x);
  }

  // ---------------------------------------------------------------- starting the workers

  // The offsets with the first one as the origin.
  function Shifted(offsets: seq<int>): (s: seq<int>)
    ensures |s| == |offsets|
    ensures forall i :: 0 <= i < |offsets| ==> s[i] == offsets[i] - offsets[0]
  {
    seq(|offsets|, i requires 0 <= i < |offsets| => offsets[i] - offsets[0])
  }

  // Start a worker at each offset, counted from the first one, until a sleep before one is
  // interrupted. signal tells whether the sleep before the i-th worker would be, if there is one;
  // late tells whether its time has come already.
  method StartWorkers(offsets: seq<int>, late: nat -> bool, signal: nat -> bool)
    returns (started: seq<int>, gotSignal: bool)
    requires offsets == [] || offsets[0] >= 0
    ensures started <= Shifted(offsets)
    ensures !gotSignal ==> started == Shifted(offsets)
    ensures gotSignal ==> |started| < |offsets| && signal(|started|) && !late(|started|)
    ensures forall i :: 0 <= i < |started| ==> late(i) || !signal(i)
  {
    started, gotSignal := [], false;
    var subInitial := -1;
    for i := 0 to |offsets|
      invariant |started| == i && (i == 0 ==> subInitial == -1) && (i > 0 ==> subInitial == offsets[0])
      invariant forall j :: 0 <= j < i ==> started[j] == offsets[j] - offsets[0]
      invariant forall j :: 0 <= j < i ==> late(j) || !signal(j)
    {
      if subInitial < 0 { subInitial := offsets[i]; }
      var offset := offsets[i] - subInitial;
      if !late(i) && signal(i) { return started, true; }
      started := started + [offset];
    }
  }

  // Left alone, the run of a staircase starts a worker for each unit of its final level, in order,
  // the first at once and the last within the scenario.
  lemma UninterruptedStarts(scn: seq<Level>, i: nat)
    requires Staircase(scn, 0.0) && i < |Offsets(scn, 0.0, 0)|
    ensures var started := Shifted(Offsets(scn, 0.0, 0));
            |started| as real == FinalLevel(scn, 0.0) && started[0] == 0 && Ordered(started)
            && 0 <= started[i] <= TotalDuration(scn)
  {
    WorkersStarted(scn, 0.0, 0);
    OffsetsOrdered(scn, 0.0, 0);
    OffsetsInScenario(scn, 0.0, 0, 0);
    OffsetsInScenario(scn, 0.0, 0, i);
  }
}
