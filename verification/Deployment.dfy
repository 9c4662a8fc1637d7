/** The parts put together as the generated configuration puts them: one concurrency figure limits
    the workers and the idle connections, and the load decides the schedule. */
module Deployment {
  import opened Scenario
  import opened LoadTranslation
  import OpenSchedule
  import ClosedSchedule
  import Engine
  import EngineProgress
  import ConnPool

  lemma {:induction false} OffsetsIncreasing(clock: OpenSchedule.Clock, scn: seq<Level>, n: nat)
    requires OpenSchedule.NeverNegative(clock) && OpenSchedule.After(clock, scn, n).Some?
    ensures Engine.Increasing([0] + OpenSchedule.Offsets(clock, scn, n))
    ensures n > 0 ==> OpenSchedule.Offsets(clock, scn, n)[n - 1] == OpenSchedule.After(clock, scn, n).value.accum
  {
    if n > 0 {
      OpenSchedule.OffsetsNeverDecrease(clock, scn, n - 1, n);
      OffsetsIncreasing(clock, scn, n - 1);
      var front, last := OpenSchedule.Offsets(clock, scn, n - 1), OpenSchedule.After(clock, scn, n).value.accum;
      assert [0] + OpenSchedule.Offsets(clock, scn, n) == [0] + front + [last];
      AppendIncreasing([0] + front, last);
    }
  }

  lemma AppendIncreasing(os: seq<int>, last: int)
    requires Engine.Increasing(os) && os != [] && os[|os| - 1] <= last
    ensures Engine.Increasing(os + [last])
  {}

  // The first n offsets of a load: all of them, or any front part, as of a load that never ends.
  ghost predicate Drawn(sqrt: real -> real, load: Load, n: nat, offsets: seq<int>) {
    OpenSchedule.After(OpenSchedule.OpenClock(sqrt), Profile(load), n).Some?
    && offsets == OpenSchedule.Offsets(OpenSchedule.OpenClock(sqrt), Profile(load), n)
  }

  // An open run over the schedule of its load, all the way from the load setting: the offsets of
  // the generator reach the workers in order, none is lost or repeated, nothing panics, and there
  // are never more workers than the concurrency asked for.
  lemma OpenRunFollowsLoad(sqrt: real -> real, load: Load, n: nat, offsets: seq<int>, c: Engine.Config,
                           es: seq<Engine.Event>)
    requires Drawn(sqrt, load, n, offsets) && c.maxWorkers == load.concurrency
    ensures var t := Engine.Run(Engine.Start(c, offsets), es, c);
            Engine.Offsets(t.received) <= offsets && !t.dispatcher.Panicked? && !t.negative
            && (t.closed && !t.aborted ==> Engine.Offsets(t.received) == offsets)
            && 1 <= |t.workers| && (load.concurrency > 0 ==> |t.workers| <= load.concurrency)
  {
    OpenSchedule.OpenClockNeverNegative(sqrt);
    OffsetsIncreasing(OpenSchedule.OpenClock(sqrt), Profile(load), n);
    Engine.ScheduleIsHandedOver(c, offsets, es);
    Engine.CountersInEveryRun(c, offsets, es);
    Engine.WorkerLimit(c, offsets, es);
  }

  // And no such run is stranded if and only if its input lasts for its offsets.
  lemma OpenRunNeverStrandsIff(sqrt: real -> real, load: Load, n: nat, offsets: seq<int>, c: Engine.Config)
    requires Drawn(sqrt, load, n, offsets) && c.maxWorkers == load.concurrency
    ensures (forall es :: !Engine.StrandsAfter(c, offsets, es)) <==> Engine.Enough(c, n)
  {
    OpenSchedule.OpenClockNeverNegative(sqrt);
    OffsetsIncreasing(OpenSchedule.OpenClock(sqrt), Profile(load), n);
    Engine.NoRunStrandsIff(c, offsets);
  }

  // Then every run can be brought to its end from every moment of it: all the offsets of the load are handed over,
  // unless it was interrupted, every worker has come to its end, and every request sent has its result.
  lemma OpenRunsCanCompleteIff(sqrt: real -> real, load: Load, n: nat, offsets: seq<int>, c: Engine.Config)
    requires Drawn(sqrt, load, n, offsets) && c.maxWorkers == load.concurrency
    ensures (forall es :: EngineProgress.CanComplete(c, offsets, es))
       <==> load.concurrency <= 0 || c.amount.Endless? || n <= Engine.Capacity(c)
  {
    OpenSchedule.OpenClockNeverNegative(sqrt);
    OffsetsIncreasing(OpenSchedule.OpenClock(sqrt), Profile(load), n);
    EngineProgress.EveryRunCanCompleteIff(c, offsets);
  }

  // Some front part of the schedule has a run that is stranded.
  ghost predicate SomeRunStrands(sqrt: real -> real, load: Load, c: Engine.Config) {
    exists n: nat, offsets, es :: Drawn(sqrt, load, n, offsets) && Engine.StrandsAfter(c, offsets, es)
  }

  // With a load that never ends, some run is stranded unless the input does not end either or the
  // workers are not limited.
  lemma EndlessRunStrandsIff(sqrt: real -> real, load: Load, c: Engine.Config)
    requires forall n: nat :: OpenSchedule.After(OpenSchedule.OpenClock(sqrt), Profile(load), n).Some?
    requires c.maxWorkers == load.concurrency
    ensures SomeRunStrands(sqrt, load, c) <==> c.amount.Left? && c.maxWorkers > 0
  {
    if c.amount.Left? && c.maxWorkers > 0 {
      var n := Engine.Capacity(c) + 1;
      var offsets := OpenSchedule.Offsets(OpenSchedule.OpenClock(sqrt), Profile(load), n);
      OpenRunNeverStrandsIff(sqrt, load, n, offsets, c);
      var es :| Engine.StrandsAfter(c, offsets, es);
      assert Drawn(sqrt, load, n, offsets);
    } else if n: nat, offsets, es :| Drawn(sqrt, load, n, offsets) && Engine.StrandsAfter(c, offsets, es) {
      OpenRunNeverStrandsIff(sqrt, load, n, offsets, c);
      assert Engine.Enough(c, n);
      assert false;
    }
  }

  // After some steps of an open run, its workers use the pool, and one of them blocks.
  ghost predicate OpenRunBlocks(concurrency: nat, c: Engine.Config, schedule: seq<int>, es: seq<Engine.Event>,
                                uses: seq<ConnPool.Event>) {
    c.maxWorkers == concurrency
    && ConnPool.BlocksIn(|Engine.Run(Engine.Start(c, schedule), es, c).workers|, uses, concurrency)
  }

  // With the generated configuration, in which the same concurrency limits the workers and the idle
  // connections, no open run ever blocks on returning a connection if and only if the concurrency is
  // given, that is, not zero.
  lemma OpenRunsNeverBlockIff(concurrency: nat)
    ensures (forall c, schedule, es, uses :: !OpenRunBlocks(concurrency, c, schedule, es, uses)) <==> concurrency > 0
  {
    if concurrency > 0 {
      forall c, schedule, es, uses ensures !OpenRunBlocks(concurrency, c, schedule, es, uses) {
        Engine.WorkerLimit(c, schedule, es);
        ConnPool.ReturnNeverBlocksIff(|Engine.Run(Engine.Start(c, schedule), es, c).workers|, concurrency);
      }
    } else {
      ConnPool.TooManyBlock(1, 0, "");
      assert OpenRunBlocks(0, Engine.Config(1, 0, false, Engine.Endless), [], [], ConnPool.BlockingRun(0, ""));
    }
  }

  // A closed run starts one worker for each offset of its schedule, so it never blocks there.
  lemma ClosedRunsNeverBlock(load: Load, uses: seq<ConnPool.Event>)
    requires Reasonable(load) && load.throughput == 0.0 && (load.rampUp > 0.0 || load.hold > 0.0)
    ensures var workers := |ClosedSchedule.Offsets(Profile(load), 0.0, 0)|;
            workers == load.concurrency && !ConnPool.BlocksIn(workers, uses, load.concurrency)
  {
    ClosedLoadStartsConcurrencyWorkers(load);
    ConnPool.ReturnNeverBlocksIff(load.concurrency, load.concurrency);
  }
}
