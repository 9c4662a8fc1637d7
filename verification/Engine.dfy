/** The running engine: the dispatcher of a workload and any number of workers, whose atomic steps
    interleave freely. */
module Engine {
  import opened Counting

  // Where a worker stands. A step is one operation on something shared.
  datatype PC =
    | Top
    | ToWait
    | AwaitOffset
    | AwaitItem(offset: int)
    | GotItem(offset: int)
    | ToWork(offset: int)
    | Delay(offset: int)
    | ToSleep | SleepCheck | Asleep
    | Woken
    | ToBusy | Punching | Recorded | BusyCheck
    | Pushing
    | Leaving | WorkCheck
    | Finished
    | Exhausted // the input was closed

  // What an input channel still holds before it is closed; without an iteration limit it never is.
  datatype Supply = Endless | Left(n: nat)

  // The workers share one input channel, or have one each when regular expressions are enabled; each
  // channel starts with the same amount.
  datatype Config = Config(minWorkers: int, maxWorkers: int, perWorker: bool, amount: Supply)

  datatype Worker = Worker(pc: PC, stopped: bool, own: Supply)

  // The dispatcher of an open workload, which holds an offset it has taken from the schedule; or of a
  // closed one, which offers zeros without end and starts workers at any time until it stops them.
  datatype Dispatcher =
    | Fetch
    | Attempt(offset: int)  // a send that does not wait
    | Grow(offset: int)     // perhaps spawn a worker
    | Send(offset: int)     // a send that waits
    | Closing
    | Stopping(next: nat)
    | Complete
    | Panicked              // the offsets were not increasing
    | Feeding
    | FeedStopping(next: nat)

  datatype State = State(
    workers: seq<Worker>, shared: Supply,
    waiting: int, working: int, sleeping: int, busy: int, negative: bool, // the status counters
    concurrency: seq<int>,                                                // as recorded in the results
    dispatcher: Dispatcher, schedule: seq<int>, last: int, aborted: bool, closed: bool,
    received: seq<(nat, int)>,                                            // worker and offset, as handed over
    zeros: nat)                                                           // receives from the closed channel

  datatype Event =
    | Step(w: nat, late: bool)   // late: the worker is past the time of its request, and does not sleep
    | Dispatch
    | HandOver(w: nat)           // the dispatcher's offset goes to a worker that waits for one
    | StartWorker                // of a closed workload
    | Abort                      // interrupted, or past the cutoff

  // Where a worker's next step takes it.
  function Next(pc: PC, stopped: bool, closed: bool, item: bool, late: bool): PC {
    match pc
    case Top => if stopped then Finished else ToWait
    case ToWait => AwaitOffset                                // IncWaiting
    case AwaitOffset => if closed then AwaitItem(0) else pc   // a closed channel gives zero
    case AwaitItem(offset) => if item then GotItem(offset) else Exhausted
    case GotItem(offset) => ToWork(offset)                    // DecWaiting
    case ToWork(offset) => Delay(offset)                      // IncWorking
    case Delay(_) => if late then Woken else ToSleep
    case ToSleep => SleepCheck                                // IncSleeping, and its check
    case SleepCheck => Asleep
    case Asleep => Woken                                      // DecSleeping
    case Woken => if stopped then Leaving else ToBusy
    case ToBusy => Punching                                   // IncBusy
    case Punching => Recorded                                 // GetBusy
    case Recorded => BusyCheck                                // DecBusy, and its check
    case BusyCheck => Pushing
    case Pushing => Leaving
    case Leaving => WorkCheck                                 // DecWorking, and its check
    case WorkCheck => Top
    case Finished => pc
    case Exhausted => pc
  }

  // What the step from there adds to each counter.
  function WaitingChange(pc: PC): int { if pc.ToWait? then 1 else if pc.GotItem? then -1 else 0 }

  function WorkingChange(pc: PC): int { if pc.ToWork? then 1 else if pc.Leaving? then -1 else 0 }

  function SleepingChange(pc: PC): int { if pc.ToSleep? then 1 else if pc.Asleep? then -1 else 0 }

  function BusyChange(pc: PC): int { if pc.ToBusy? then 1 else if pc.Recorded? then -1 else 0 }

  // The checks that panic read a counter again, some time after it was changed.
  predicate FindsNegative(s: State, pc: PC) {
    (pc.SleepCheck? && s.sleeping < 0) || (pc.BusyCheck? && s.busy < 0) || (pc.WorkCheck? && s.working < 0)
  }

  // The channel a worker takes its items from.
  function SupplyOf(s: State, w: nat, c: Config): Supply
    requires w < |s.workers|
  {
    if c.perWorker then s.workers[w].own else s.shared
  }

  function Less(supply: Supply): Supply {
    match supply
    case Endless => Endless
    case Left(n) => if n == 0 then Left(0) else Left(n - 1)
  }

  // The worker after its step.
  function Moved(x: Worker, closed: bool, item: bool, late: bool, perWorker: bool): Worker {
    Worker(Next(x.pc, x.stopped, closed, item, late), x.stopped,
           if x.pc.AwaitItem? && perWorker then Less(x.own) else x.own)
  }

  function WorkerStep(s: State, w: nat, late: bool, c: Config): State
    requires w < |s.workers|
  {
    var pc := s.workers[w].pc;
    s.(workers := s.workers[w := Moved(s.workers[w], s.closed, SupplyOf(s, w, c) != Left(0), late, c.perWorker)],
       shared := if pc.AwaitItem? && !c.perWorker then Less(s.shared) else s.shared,
       waiting := s.waiting + WaitingChange(pc),
       working := s.working + WorkingChange(pc),
       sleeping := s.sleeping + SleepingChange(pc),
       busy := s.busy + BusyChange(pc),
       negative := s.negative || FindsNegative(s, pc),
       concurrency := if pc.Punching? then s.concurrency + [s.busy] else s.concurrency,
       zeros := if pc.AwaitOffset? && s.closed then s.zeros + 1 else s.zeros)
  }

  predicate NobodyWaits(s: State) {
    forall w :: 0 <= w < |s.workers| ==> !s.workers[w].pc.AwaitOffset?
  }

  function Spawn(s: State, c: Config): State {
    s.(workers := s.workers + [Worker(Top, false, c.amount)])
  }

  function Stop(s: State, w: nat): State
    requires w < |s.workers|
  {
    s.(workers := s.workers[w := s.workers[w].(stopped := true)])
  }

  function DispatchStep(s: State, c: Config): State {
    match s.dispatcher
    case Fetch =>
      if s.schedule == [] then s.(dispatcher := Closing)
      else if s.aborted then s.(dispatcher := Closing, schedule := s.schedule[1..])
      else if s.schedule[0] < s.last then s.(dispatcher := Panicked)
      else s.(dispatcher := Attempt(s.schedule[0]), last := s.schedule[0], schedule := s.schedule[1..])
    case Attempt(offset) =>
      // the send does not wait: with nobody waiting for an offset, go on to growing
      if NobodyWaits(s) then s.(dispatcher := Grow(offset)) else s
    case Grow(offset) =>
      var notMaxed := c.maxWorkers <= 0 || |s.workers| < c.maxWorkers;
      if notMaxed && s.sleeping <= 0 then Spawn(s, c).(dispatcher := Send(offset)) else s.(dispatcher := Send(offset))
    case Send(_) => s
    case Closing => s.(closed := true, dispatcher := Stopping(0))
    case Stopping(next) =>
      if next < |s.workers| then Stop(s, next).(dispatcher := Stopping(next + 1)) else s.(dispatcher := Complete)
    case Complete => s
    case Panicked => s
    case Feeding => s.(dispatcher := FeedStopping(0))
    case FeedStopping(next) =>
      if next < |s.workers| then Stop(s, next).(dispatcher := FeedStopping(next + 1)) else s
  }

  function Given(s: State, w: nat, offset: int): State
    requires w < |s.workers|
  {
    s.(workers := s.workers[w := s.workers[w].(pc := AwaitItem(offset))], received := s.received + [(w, offset)])
  }

  function HandOverStep(s: State, w: nat): State
    requires w < |s.workers|
  {
    if !s.workers[w].pc.AwaitOffset? then s
    else
      match s.dispatcher
      case Attempt(offset) => Given(s, w, offset).(dispatcher := Fetch)
      case Send(offset) => Given(s, w, offset).(dispatcher := Fetch)
      case Feeding => Given(s, w, 0)
      case FeedStopping(_) => Given(s, w, 0)
      case _ => s
  }

  // One step; an event that is not enabled changes nothing.
  function Do(s: State, e: Event, c: Config): State {
    match e
    case Step(w, late) => if w < |s.workers| then WorkerStep(s, w, late, c) else s
    case Dispatch => DispatchStep(s, c)
    case HandOver(w) => if w < |s.workers| then HandOverStep(s, w) else s
    case StartWorker => if s.dispatcher.Feeding? then Spawn(s, c) else s
    case Abort => s.(aborted := true)
  }

  function Run(s: State, es: seq<Event>, c: Config): State
    decreases |es|
  {
    if es == [] then s else Run(Do(s, es[0], c), es[1..], c)
  }

  // How many workers are spawned to begin with.
  function Initial(minWorkers: int, maxWorkers: int): (n: nat)
    ensures n >= 1 && (maxWorkers > 0 ==> n <= maxWorkers)
    ensures 1 <= minWorkers <= maxWorkers ==> n == minWorkers
    ensures 1 <= maxWorkers <= minWorkers ==> n == maxWorkers
    ensures minWorkers < 1 || maxWorkers < 1 ==> n == 1
  {
    var n := if maxWorkers < minWorkers then maxWorkers else minWorkers;
    if n < 1 then 1 else n
  }

  function Start(c: Config, schedule: seq<int>): State {
    State(seq(Initial(c.minWorkers, c.maxWorkers), _ => Worker(Top, false, c.amount)), c.amount,
          0, 0, 0, 0, false, [], Fetch, schedule, 0, false, false, [], 0)
  }

  // A closed workload begins with no workers.
  function StartClosed(c: Config): State {
    State([], c.amount, 0, 0, 0, 0, false, [], Feeding, [], 0, false, false, [], 0)
  }

  // ---------------------------------------------------------------- the counters

  predicate Waits(w: Worker) { w.pc.AwaitOffset? || w.pc.AwaitItem? || w.pc.GotItem? || w.pc.Exhausted? }

  predicate Sleeps(w: Worker) { w.pc.SleepCheck? || w.pc.Asleep? }

  predicate Busy(w: Worker) { w.pc.Punching? || w.pc.Recorded? }

  predicate Works(w: Worker) {
    w.pc.Delay? || w.pc.ToSleep? || Sleeps(w) || w.pc.Woken? || w.pc.ToBusy? || Busy(w) || w.pc.BusyCheck?
    || w.pc.Pushing? || w.pc.Leaving?
  }

  // Every counter is the number of workers inside its section.
  ghost predicate CountersMatch(s: State) { Counts(s.workers, s.waiting, s.working, s.sleeping, s.busy) }

  ghost predicate Counts(ws: seq<Worker>, waiting: int, working: int, sleeping: int, busy: int) {
    waiting == Count(Waits, ws) && working == Count(Works, ws)
    && sleeping == Count(Sleeps, ws) && busy == Count(Busy, ws)
  }

  ghost predicate RecordsSane(s: State) {
    !s.negative && forall i :: 0 <= i < |s.concurrency| ==> 1 <= s.concurrency[i] <= |s.workers|
  }

  lemma GotoCounts(ws: seq<Worker>, w: nat, x: Worker)
    requires w < |ws|
    ensures Count(Waits, ws[w := x]) == Count(Waits, ws) - One(Waits(ws[w])) + One(Waits(x))
    ensures Count(Works, ws[w := x]) == Count(Works, ws) - One(Works(ws[w])) + One(Works(x))
    ensures Count(Sleeps, ws[w := x]) == Count(Sleeps, ws) - One(Sleeps(ws[w])) + One(Sleeps(x))
    ensures Count(Busy, ws[w := x]) == Count(Busy, ws) - One(Busy(ws[w])) + One(Busy(x))
  {
    CountUpdate(Waits, ws, w, x);
    CountUpdate(Works, ws, w, x);
    CountUpdate(Sleeps, ws, w, x);
    CountUpdate(Busy, ws, w, x);
  }

  lemma NextCounts(x: Worker, closed: bool, item: bool, late: bool, perWorker: bool)
    ensures var y := Moved(x, closed, item, late, perWorker);
            One(Waits(y)) - One(Waits(x)) == WaitingChange(x.pc) && One(Works(y)) - One(Works(x)) == WorkingChange(x.pc)
            && One(Sleeps(y)) - One(Sleeps(x)) == SleepingChange(x.pc)
            && One(Busy(y)) - One(Busy(x)) == BusyChange(x.pc)
  {}

  lemma WorkerStepCounts(s: State, w: nat, late: bool, c: Config)
    requires w < |s.workers| && CountersMatch(s)
    ensures CountersMatch(WorkerStep(s, w, late, c))
  {
    var x, item := s.workers[w], SupplyOf(s, w, c) != Left(0);
    NextCounts(x, s.closed, item, late, c.perWorker);
    GotoCounts(s.workers, w, Moved(x, s.closed, item, late, c.perWorker));
  }

  // A step of the dispatcher leaves all the workers but one, the input and the counters as they are.
  ghost predicate Dispatched(s: State, t: State, c: Config) {
    t.shared == s.shared && t.received == s.received && t.zeros == s.zeros
    && t.waiting == s.waiting && t.working == s.working && t.sleeping == s.sleeping && t.busy == s.busy
    && (t.workers == s.workers || t.workers == Spawn(s, c).workers
        || (StopIndex(s) < |s.workers| && t.workers == Stop(s, StopIndex(s)).workers))
  }

  function StopIndex(s: State): nat {
    if s.dispatcher.Stopping? || s.dispatcher.FeedStopping? then s.dispatcher.next else |s.workers|
  }

  lemma DispatchIs(s: State, c: Config)
    ensures Dispatched(s, DispatchStep(s, c), c)
  {
    DispatchWorkers(s, c);
  }

  lemma DispatchWorkers(s: State, c: Config)
    ensures var ws := DispatchStep(s, c).workers;
            ws == s.workers || ws == Spawn(s, c).workers
            || (StopIndex(s) < |s.workers| && ws == Stop(s, StopIndex(s)).workers)
  {}

  lemma DispatchCounts(s: State, t: State, c: Config)
    requires CountersMatch(s) && Dispatched(s, t, c)
    ensures CountersMatch(t)
  {
    if t.workers == Spawn(s, c).workers {
      SpawnCounts(s, c);
    } else if t.workers != s.workers {
      StopCounts(s, StopIndex(s));
    }
  }

  lemma SpawnCounts(s: State, c: Config)
    requires CountersMatch(s)
    ensures CountersMatch(Spawn(s, c))
  {
    var x := Worker(Top, false, c.amount);
    CountAppend(Waits, s.workers, x);
    CountAppend(Works, s.workers, x);
    CountAppend(Sleeps, s.workers, x);
    CountAppend(Busy, s.workers, x);
  }

  lemma StopCounts(s: State, n: nat)
    requires n < |s.workers| && CountersMatch(s)
    ensures CountersMatch(Stop(s, n))
  {
    GotoCounts(s.workers, n, s.workers[n].(stopped := true));
  }

  lemma GivenCounts(s: State, w: nat, offset: int)
    requires w < |s.workers| && s.workers[w].pc.AwaitOffset? && CountersMatch(s)
    ensures CountersMatch(Given(s, w, offset))
  {
    GotoCounts(s.workers, w, s.workers[w].(pc := AwaitItem(offset)));
  }

  lemma HandOverCounts(s: State, w: nat)
    requires w < |s.workers| && CountersMatch(s)
    ensures CountersMatch(HandOverStep(s, w))
  {
    if s.workers[w].pc.AwaitOffset? {
      GivenCounts(s, w, 0);
      if s.dispatcher.Attempt? || s.dispatcher.Send? { GivenCounts(s, w, s.dispatcher.offset); }
    }
  }

  lemma CountersKept(s: State, e: Event, c: Config)
    requires CountersMatch(s)
    ensures CountersMatch(Do(s, e, c))
  {
    match e
    case Step(w, late) => if w < |s.workers| { WorkerStepCounts(s, w, late, c); }
    case Dispatch =>
      DispatchIs(s, c);
      DispatchCounts(s, DispatchStep(s, c), c);
    case HandOver(w) => if w < |s.workers| { HandOverCounts(s, w); }
    case StartWorker => SpawnCounts(s, c);
    case Abort =>
  }

  lemma WorkersStay(s: State, e: Event, c: Config)
    ensures |s.workers| <= |Do(s, e, c).workers| <= |s.workers| + 1
    ensures e.Step? ==> |Do(s, e, c).workers| == |s.workers|
  {
    if e.Dispatch? { DispatchWorkers(s, c); }
  }

  // A counter that is read, be it for a check or for a result, counts at least its reader.
  lemma RecordsKept(s: State, e: Event, c: Config)
    requires CountersMatch(s) && RecordsSane(s)
    ensures RecordsSane(Do(s, e, c))
  {
    WorkersStay(s, e, c);
    if e.Step? {
      if e.w < |s.workers| { StepRecords(s, e.w, e.late, c); }
    } else {
      assert Do(s, e, c).concurrency == s.concurrency && Do(s, e, c).negative == s.negative;
    }
  }

  lemma StepRecords(s: State, w: nat, late: bool, c: Config)
    requires CountersMatch(s) && RecordsSane(s) && w < |s.workers|
    ensures RecordsSane(WorkerStep(s, w, late, c))
  {
    if s.workers[w].pc.Punching? { CountsSome(Busy, s.workers, w); }
  }

  lemma {:induction false} CountersInRun(s: State, es: seq<Event>, c: Config)
    requires CountersMatch(s) && RecordsSane(s)
    ensures CountersMatch(Run(s, es, c)) && RecordsSane(Run(s, es, c))
    decreases |es|
  {
    if es != [] {
      CountersKept(s, es[0], c);
      RecordsKept(s, es[0], c);
      CountersInRun(Do(s, es[0], c), es[1..], c);
    }
  }

  lemma FreshCounts(ws: seq<Worker>)
    requires forall w :: w in ws ==> w.pc.Top?
    ensures Counts(ws, 0, 0, 0, 0)
  {
    CountsNone(Waits, ws);
    CountsNone(Works, ws);
    CountsNone(Sleeps, ws);
    CountsNone(Busy, ws);
  }

  predicate WaitsNow(w: Worker) { w.pc.AwaitOffset? || w.pc.AwaitItem? || w.pc.GotItem? }

  predicate OutOfInput(w: Worker) { w.pc.Exhausted? }

  // The counters are the numbers of workers inside their sections; sleeping and busy workers are
  // among the working ones; those that ran out of input are still counted as waiting; no check has
  // found a negative counter; and every concurrency recorded is from 1 to the number of workers.
  ghost predicate CountersSound(t: State) {
    t.working == Count(Works, t.workers) && t.sleeping == Count(Sleeps, t.workers)
    && t.busy == Count(Busy, t.workers)
    && t.waiting == Count(WaitsNow, t.workers) + Count(OutOfInput, t.workers)
    && t.sleeping + t.busy <= t.working <= |t.workers|
    && !t.negative
    && forall i :: 0 <= i < |t.concurrency| ==> 1 <= t.concurrency[i] <= |t.workers|
  }

  // So it is in every run of an open workload and in every run of a closed one.
  lemma CountersInEveryRun(c: Config, schedule: seq<int>, es: seq<Event>)
    ensures CountersSound(Run(Start(c, schedule), es, c)) && CountersSound(Run(StartClosed(c), es, c))
  {
    FreshCounts(Start(c, schedule).workers);
    FreshCounts([]);
    CountersInRun(Start(c, schedule), es, c);
    CountersInRun(StartClosed(c), es, c);
    MatchingIsSound(Run(Start(c, schedule), es, c));
    MatchingIsSound(Run(StartClosed(c), es, c));
  }

  lemma MatchingIsSound(t: State)
    requires CountersMatch(t) && RecordsSane(t)
    ensures CountersSound(t)
  {
    CountParts(Sleeps, Busy, Works, t.workers);
    CountSplit(WaitsNow, OutOfInput, Waits, t.workers);
  }

  // ---------------------------------------------------------------- the hand-over

  function Offsets(log: seq<(nat, int)>): (os: seq<int>)
    ensures |os| == |log|
  {
    seq(|log|, i requires 0 <= i < |log| => log[i].1)
  }

  function InHand(d: Dispatcher): seq<int> {
    if d.Attempt? || d.Grow? || d.Send? then [d.offset] else []
  }

  predicate Past(d: Dispatcher) { d.Closing? || d.Stopping? || d.Complete? }

  predicate Fed(d: Dispatcher) { d.Feeding? || d.FeedStopping? }

  // What was handed over, is in hand, and is still to come make up the schedule; when the dispatcher
  // is past it, only an abort can have left some of it out.
  ghost predicate HandedOver(s: State, schedule: seq<int>) {
    !Fed(s.dispatcher)
    && (!Past(s.dispatcher) ==> Offsets(s.received) + InHand(s.dispatcher) + s.schedule == schedule)
    && (Past(s.dispatcher) ==> Offsets(s.received) <= schedule && (!s.aborted ==> Offsets(s.received) == schedule))
    && (s.closed <==> s.dispatcher.Stopping? || s.dispatcher.Complete?)
    && (s.zeros > 0 ==> s.closed)
  }

  predicate Increasing(os: seq<int>) { forall i, j :: 0 <= i < j < |os| ==> os[i] <= os[j] }

  ghost predicate NoPanic(s: State) {
    !s.dispatcher.Panicked? && Increasing([s.last] + s.schedule)
  }

  lemma GivenLog(s: State, w: nat, offset: int)
    requires w < |s.workers|
    ensures Offsets(Given(s, w, offset).received) == Offsets(s.received) + [offset]
  {}

  lemma DispatchHandsOver(s: State, c: Config, schedule: seq<int>)
    requires HandedOver(s, schedule)
    ensures HandedOver(DispatchStep(s, c), schedule)
  {
    if s.dispatcher.Fetch? { FetchHandsOver(s, c, schedule); }
  }

  lemma FetchHandsOver(s: State, c: Config, schedule: seq<int>)
    requires HandedOver(s, schedule) && s.dispatcher.Fetch?
    ensures HandedOver(DispatchStep(s, c), schedule)
  {
    if s.schedule != [] { assert [s.schedule[0]] + s.schedule[1..] == s.schedule; }
  }

  lemma HandedOverKept(s: State, e: Event, c: Config, schedule: seq<int>)
    requires HandedOver(s, schedule)
    ensures HandedOver(Do(s, e, c), schedule)
  {
    match e
    case Dispatch => DispatchHandsOver(s, c, schedule);
    case HandOver(w) =>
      if w < |s.workers| && (s.dispatcher.Attempt? || s.dispatcher.Send?) { GivenLog(s, w, s.dispatcher.offset); }
    case _ =>
  }

  lemma NoPanicKept(s: State, e: Event, c: Config)
    requires NoPanic(s)
    ensures NoPanic(Do(s, e, c))
  {
    if e.Dispatch? && s.dispatcher.Fetch? && s.schedule != [] {
      IncreasingTail(s.last, s.schedule);
    }
  }

  lemma IncreasingTail(last: int, os: seq<int>)
    requires os != [] && Increasing([last] + os)
    ensures last <= os[0] && Increasing([os[0]] + os[1..]) && Increasing([last] + os[1..])
  {
    var all := [last] + os;
    assert all[0] == last && all[1] == os[0];
    assert [os[0]] + os[1..] == all[1..];
    forall i, j | 0 <= i < j < |os| ensures ([last] + os[1..])[i] <= ([last] + os[1..])[j] {
      assert ([last] + os[1..])[j] == all[j + 1];
      assert i > 0 ==> ([last] + os[1..])[i] == all[i + 1];
    }
  }

  lemma {:induction false} HandOverInRun(s: State, es: seq<Event>, c: Config, schedule: seq<int>)
    requires HandedOver(s, schedule) && NoPanic(s)
    ensures HandedOver(Run(s, es, c), schedule) && NoPanic(Run(s, es, c))
    decreases |es|
  {
    if es != [] {
      HandedOverKept(s, es[0], c, schedule);
      NoPanicKept(s, es[0], c);
      HandOverInRun(Do(s, es[0], c), es[1..], c, schedule);
    }
  }

  // In every run over offsets that do not decrease: workers get the offsets of the schedule one by
  // one and in order, none lost or repeated between the two ways of sending; unless it is aborted,
  // the run ends with all of them handed over; a worker gets a zero that is not in the schedule only
  // after the channel is closed; and the dispatcher does not panic.
  lemma ScheduleIsHandedOver(c: Config, schedule: seq<int>, es: seq<Event>)
    requires Increasing([0] + schedule)
    ensures var t := Run(Start(c, schedule), es, c);
            Offsets(t.received) <= schedule
            && (!t.aborted && t.dispatcher.Complete? ==> Offsets(t.received) == schedule)
            && (t.zeros > 0 ==> t.closed) && (t.closed && !t.aborted ==> Offsets(t.received) == schedule)
            && !t.dispatcher.Panicked?
  {
    HandOverInRun(Start(c, schedule), es, c, schedule);
  }

  // ---------------------------------------------------------------- the number of workers

  ghost predicate WithinLimit(s: State, c: Config) {
    1 <= |s.workers| && (c.maxWorkers > 0 ==> |s.workers| <= c.maxWorkers) && !Fed(s.dispatcher)
  }

  lemma LimitKept(s: State, e: Event, c: Config)
    requires WithinLimit(s, c)
    ensures WithinLimit(Do(s, e, c), c)
  {}

  lemma {:induction false} SpawnsInRun(s: State, es: seq<Event>, c: Config)
    requires WithinLimit(s, c)
    ensures WithinLimit(Run(s, es, c), c)
    decreases |es|
  {
    if es != [] {
      LimitKept(s, es[0], c);
      SpawnsInRun(Do(s, es[0], c), es[1..], c);
    }
  }

  lemma {:induction false} WorkersNeverFewer(s: State, es: seq<Event>, c: Config)
    ensures |s.workers| <= |Run(s, es, c).workers|
    decreases |es|
  {
    if es != [] {
      WorkersStay(s, es[0], c);
      WorkersNeverFewer(Do(s, es[0], c), es[1..], c);
    }
  }

  lemma WorkerLimit(c: Config, schedule: seq<int>, es: seq<Event>)
    ensures var n := |Run(Start(c, schedule), es, c).workers|;
            1 <= Initial(c.minWorkers, c.maxWorkers) <= n && (c.maxWorkers > 0 ==> n <= c.maxWorkers)
  {
    SpawnsInRun(Start(c, schedule), es, c);
    WorkersNeverFewer(Start(c, schedule), es, c);
  }

  // ---------------------------------------------------------------- when a send can still succeed

  // Gone, or about to find its input at an end.
  predicate Doomed(s: State, w: nat, c: Config)
    requires w < |s.workers|
  {
    var pc := s.workers[w].pc;
    pc.Finished? || pc.Exhausted? || (pc.AwaitItem? && SupplyOf(s, w, c) == Left(0))
  }

  ghost predicate AllDoomed(s: State, c: Config) {
    forall w :: 0 <= w < |s.workers| ==> Doomed(s, w, c)
  }

  // How many steps, with an item to take and no sleep, bring a worker to wait for an offset.
  function Distance(pc: PC): nat {
    match pc
    case AwaitOffset => 0 case ToWait => 1 case Top => 2 case WorkCheck => 3 case Leaving => 4 case Pushing => 5
    case BusyCheck => 6 case Recorded => 7 case Punching => 8 case ToBusy => 9 case Woken => 10 case Asleep => 11
    case Delay(_) => 11 case SleepCheck => 12 case ToSleep => 13 case ToWork(_) => 12 case GotItem(_) => 13
    case AwaitItem(_) => 14 case Finished => 15 case Exhausted => 15
  }

  // Nobody has been stopped, and the channel is open, as long as the dispatcher is not past the schedule.
  ghost predicate Open(s: State) {
    !Fed(s.dispatcher)
    && (!s.dispatcher.Stopping? && !s.dispatcher.Complete? ==>
          !s.closed && forall w :: 0 <= w < |s.workers| ==> !s.workers[w].stopped && !s.workers[w].pc.Finished?)
  }

  lemma OpenKept(s: State, e: Event, c: Config)
    requires Open(s)
    ensures Open(Do(s, e, c))
  {}

  lemma {:induction false} AliveReceives(s: State, w: nat, c: Config) returns (es: seq<Event>)
    requires s.dispatcher.Send? && !s.closed && w < |s.workers| && !s.workers[w].stopped && !Doomed(s, w, c)
    ensures var t := Run(s, es, c);
            t.received == s.received + [(w, s.dispatcher.offset)]
            && t.dispatcher.Fetch? && t.schedule == s.schedule && t.aborted == s.aborted
    decreases Distance(s.workers[w].pc)
  {
    if s.workers[w].pc.AwaitOffset? {
      es := [HandOver(w)];
      assert Run(s, es, c) == Run(Do(s, HandOver(w), c), [], c);
    } else {
      var t := Do(s, Step(w, true), c);
      var more := AliveReceives(t, w, c);
      es := [Step(w, true)] + more;
      assert es[0] == Step(w, true) && es[1..] == more;
    }
  }

  lemma DoomedStay(s: State, e: Event, c: Config)
    requires s.dispatcher.Send? && AllDoomed(s, c)
    ensures var t := Do(s, e, c);
            t.dispatcher == s.dispatcher && AllDoomed(t, c) && t.received == s.received
  {
    var t := Do(s, e, c);
    forall w | 0 <= w < |s.workers| ensures Doomed(t, w, c) { assert Doomed(s, w, c); }
    if e.HandOver? && e.w < |s.workers| { assert Doomed(s, e.w, c); }
  }

  lemma {:induction false} DoomedForever(s: State, es: seq<Event>, c: Config)
    requires s.dispatcher.Send? && AllDoomed(s, c)
    ensures var t := Run(s, es, c); t.dispatcher == s.dispatcher && t.received == s.received
    decreases |es|
  {
    if es != [] {
      DoomedStay(s, es[0], c);
      DoomedForever(Do(s, es[0], c), es[1..], c);
    }
  }

  // The dispatcher waits to send, and always will: not even an interrupt ends the run.
  ghost predicate Stranded(s: State, c: Config) {
    s.dispatcher.Send? && forall more :: Run(s, more, c).dispatcher == s.dispatcher
  }

  lemma {:induction false} OnlyReceivingMoves(s: State, es: seq<Event>, c: Config)
    requires s.dispatcher.Send? && Run(s, es, c).received != s.received
    ensures exists more :: Run(s, more, c).dispatcher != s.dispatcher
    decreases |es|
  {
    var t := Do(s, es[0], c);
    if t.dispatcher != s.dispatcher {
      assert Run(s, [es[0]], c) == Run(t, [], c);
    } else {
      OnlyReceivingMoves(t, es[1..], c);
      var more :| Run(t, more, c).dispatcher != t.dispatcher;
      assert ([es[0]] + more)[1..] == more;
      assert Run(s, [es[0]] + more, c).dispatcher != s.dispatcher;
    }
  }

  lemma StrandedIffAllDoomed(s: State, c: Config)
    requires Open(s) && s.dispatcher.Send?
    ensures Stranded(s, c) <==> AllDoomed(s, c)
  {
    if AllDoomed(s, c) {
      forall more ensures Run(s, more, c).dispatcher == s.dispatcher { DoomedForever(s, more, c); }
    } else {
      var w :| 0 <= w < |s.workers| && !Doomed(s, w, c);
      var es := AliveReceives(s, w, c);
      OnlyReceivingMoves(s, es, c);
    }
  }

  // ---------------------------------------------------------------- where the items went

  // An offset received has cost an item taken, or is held without one, or was the end of its worker.
  function Spent(w: Worker, m: nat): nat {
    (if w.own.Left? && w.own.n <= m then m - w.own.n else 0) + One(w.pc.AwaitItem? || w.pc.Exhausted?)
  }

  function SpentBy(m: nat): Worker -> nat { (w: Worker) => Spent(w, m) }

  predicate OwnSound(own: Supply, m: nat, perWorker: bool) {
    own.Left? && own.n <= m && (perWorker || own.n == m)
  }

  ghost predicate Accounted(s: State, c: Config) {
    match c.amount
    case Left(m) =>
      s.shared.Left? && s.shared.n <= m && (c.perWorker ==> s.shared == c.amount)
      && (forall w :: 0 <= w < |s.workers| ==> OwnSound(s.workers[w].own, m, c.perWorker))
      && |s.received| + s.zeros == (m - s.shared.n) + Sum(SpentBy(m), s.workers)
    case Endless =>
      s.shared.Endless? && forall w :: 0 <= w < |s.workers| ==> s.workers[w].own.Endless?
  }

  // Only an input at its end exhausts a worker.
  ghost predicate EndsSeen(s: State, c: Config) {
    forall w :: 0 <= w < |s.workers| && s.workers[w].pc.Exhausted? ==> SupplyOf(s, w, c) == Left(0)
  }

  lemma StepAccounted(s: State, w: nat, late: bool, c: Config)
    requires w < |s.workers| && Accounted(s, c)
    ensures Accounted(WorkerStep(s, w, late, c), c)
  {
    if c.amount.Left? {
      SumUpdate(SpentBy(c.amount.n), s.workers, w, WorkerStep(s, w, late, c).workers[w]);
    }
  }

  lemma GivenAccounted(s: State, w: nat, offset: int, c: Config)
    requires w < |s.workers| && s.workers[w].pc.AwaitOffset? && Accounted(s, c)
    ensures Accounted(Given(s, w, offset), c)
  {
    if c.amount.Left? {
      SumUpdate(SpentBy(c.amount.n), s.workers, w, s.workers[w].(pc := AwaitItem(offset)));
    }
  }

  lemma SpawnAccounted(s: State, c: Config)
    requires Accounted(s, c)
    ensures Accounted(Spawn(s, c), c)
  {
    if c.amount.Left? { SumAppend(SpentBy(c.amount.n), s.workers, Worker(Top, false, c.amount)); }
  }

  lemma StopAccounted(s: State, n: nat, c: Config)
    requires n < |s.workers| && Accounted(s, c)
    ensures Accounted(Stop(s, n), c)
  {
    if c.amount.Left? { SumUpdate(SpentBy(c.amount.n), s.workers, n, s.workers[n].(stopped := true)); }
  }

  lemma DispatchAccounted(s: State, t: State, c: Config)
    requires Accounted(s, c) && Dispatched(s, t, c)
    ensures Accounted(t, c)
  {
    if t.workers == Spawn(s, c).workers {
      SpawnAccounted(s, c);
    } else if t.workers != s.workers {
      StopAccounted(s, StopIndex(s), c);
    }
  }

  lemma AccountedKept(s: State, e: Event, c: Config)
    requires Accounted(s, c)
    ensures Accounted(Do(s, e, c), c)
  {
    match e
    case Step(w, late) => if w < |s.workers| { StepAccounted(s, w, late, c); }
    case Dispatch =>
      DispatchIs(s, c);
      DispatchAccounted(s, DispatchStep(s, c), c);
    case HandOver(w) =>
      if w < |s.workers| && s.workers[w].pc.AwaitOffset? {
        GivenAccounted(s, w, 0, c);
        if s.dispatcher.Attempt? || s.dispatcher.Send? { GivenAccounted(s, w, s.dispatcher.offset, c); }
      }
    case StartWorker => SpawnAccounted(s, c);
    case Abort =>
  }

  lemma EndsSeenKept(s: State, e: Event, c: Config)
    requires EndsSeen(s, c)
    ensures EndsSeen(Do(s, e, c), c)
  {
    match e
    case Step(w, late) => if w < |s.workers| { StepEndsSeen(s, w, late, c); }
    case Dispatch =>
      DispatchIs(s, c);
      DispatchEndsSeen(s, DispatchStep(s, c), c);
    case _ =>
  }

  lemma StepEndsSeen(s: State, w: nat, late: bool, c: Config)
    requires EndsSeen(s, c) && w < |s.workers|
    ensures EndsSeen(WorkerStep(s, w, late, c), c)
  {}

  lemma DispatchEndsSeen(s: State, t: State, c: Config)
    requires EndsSeen(s, c) && Dispatched(s, t, c)
    ensures EndsSeen(t, c)
  {}

  // A worker that will ask for an offset before it asks for an item.
  predicate Live(pc: PC) { !pc.AwaitItem? && !pc.Exhausted? && !pc.Finished? }

  // The dispatcher waits to send only with a live worker, or with all the workers there may be.
  ghost predicate SendLive(s: State, c: Config) {
    s.dispatcher.Send? ==>
      (c.maxWorkers > 0 && |s.workers| >= c.maxWorkers)
      || exists w :: 0 <= w < |s.workers| && Live(s.workers[w].pc)
  }

  lemma SendLiveKept(s: State, e: Event, c: Config)
    requires SendLive(s, c) && Open(s) && CountersMatch(s)
    ensures SendLive(Do(s, e, c), c)
  {
    var t := Do(s, e, c);
    if s.dispatcher.Send? {
      if t.dispatcher.Send? && !(c.maxWorkers > 0 && |s.workers| >= c.maxWorkers) {
        var w :| 0 <= w < |s.workers| && Live(s.workers[w].pc);
        assert Live(t.workers[w].pc);
      }
    } else if s.dispatcher.Grow? && e.Dispatch? {
      GrowLive(s, c);
    }
  }

  lemma GrowLive(s: State, c: Config)
    requires s.dispatcher.Grow? && CountersMatch(s)
    ensures SendLive(DispatchStep(s, c), c)
  {
    if s.sleeping > 0 {
      var w := CountWitness(Sleeps, s.workers);
      assert Live(s.workers[w].pc);
    } else if c.maxWorkers <= 0 || |s.workers| < c.maxWorkers {
      assert Live(DispatchStep(s, c).workers[|s.workers|].pc);
    }
  }

  // Everything that holds in every run of an open workload.
  ghost predicate RunInv(s: State, c: Config, schedule: seq<int>) {
    CountersMatch(s) && HandedOver(s, schedule) && NoPanic(s) && WithinLimit(s, c)
    && Open(s) && Accounted(s, c) && EndsSeen(s, c) && SendLive(s, c)
  }

  lemma RunInvKept(s: State, e: Event, c: Config, schedule: seq<int>)
    requires RunInv(s, c, schedule)
    ensures RunInv(Do(s, e, c), c, schedule)
  {
    CountersKept(s, e, c);
    HandedOverKept(s, e, c, schedule);
    NoPanicKept(s, e, c);
    LimitKept(s, e, c);
    OpenKept(s, e, c);
    AccountedKept(s, e, c);
    EndsSeenKept(s, e, c);
    SendLiveKept(s, e, c);
  }

  lemma {:induction false} RunInvInRun(s: State, es: seq<Event>, c: Config, schedule: seq<int>)
    requires RunInv(s, c, schedule)
    ensures RunInv(Run(s, es, c), c, schedule)
    decreases |es|
  {
    if es != [] {
      RunInvKept(s, es[0], c, schedule);
      RunInvInRun(Do(s, es[0], c), es[1..], c, schedule);
    }
  }

  lemma StartInv(c: Config, schedule: seq<int>)
    requires Increasing([0] + schedule)
    ensures RunInv(Start(c, schedule), c, schedule)
  {
    var s := Start(c, schedule);
    FreshCounts(s.workers);
    if c.amount.Left? {
      SumOfEqual(SpentBy(c.amount.n), s.workers, 0);
    }
    assert Offsets(s.received) + InHand(s.dispatcher) + s.schedule == schedule;
  }

  // At any point of any run where the dispatcher waits to send, it is stranded if and only if every
  // worker is gone or stands before an input at its end.
  lemma SendStrandedIff(c: Config, schedule: seq<int>, es: seq<Event>)
    requires Increasing([0] + schedule) && Run(Start(c, schedule), es, c).dispatcher.Send?
    ensures Stranded(Run(Start(c, schedule), es, c), c) <==> AllDoomed(Run(Start(c, schedule), es, c), c)
  {
    StartInv(c, schedule);
    RunInvInRun(Start(c, schedule), es, c, schedule);
    StrandedIffAllDoomed(Run(Start(c, schedule), es, c), c);
  }

  // ---------------------------------------------------------------- when no run is stranded

  // How many offsets the workers are sure to take.
  function Capacity(c: Config): nat
    requires c.amount.Left? && c.maxWorkers > 0
  {
    if c.perWorker then c.maxWorkers * (c.amount.n + 1) else c.amount.n + c.maxWorkers
  }

  // What can be checked before a run.
  predicate Enough(c: Config, requests: nat) {
    c.amount.Endless? || c.maxWorkers <= 0 || requests <= Capacity(c)
  }

  lemma SpentWhenDoomed(s: State, c: Config)
    requires Open(s) && s.dispatcher.Send? && Accounted(s, c) && EndsSeen(s, c)
    requires AllDoomed(s, c) && s.workers != []
    ensures c.amount.Left?
    ensures |s.received| + s.zeros
         == if c.perWorker then |s.workers| * (c.amount.n + 1) else c.amount.n + |s.workers|
  {
    assert Doomed(s, 0, c);
    var m := c.amount.n;
    var k := if c.perWorker then m + 1 else 1;
    forall w | w in s.workers ensures SpentBy(m)(w) == k {
      var i :| 0 <= i < |s.workers| && s.workers[i] == w;
      assert Doomed(s, i, c);
    }
    SumOfEqual(SpentBy(m), s.workers, k);
  }

  // ---------------------------------------------------------------- a run that strands the dispatcher

  lemma {:induction false} RunAppend(s: State, a: seq<Event>, b: seq<Event>, c: Config)
    ensures Run(s, a + b, c) == Run(Run(s, a, c), b, c)
    decreases |a|
  {
    if a == [] {
      assert a + b == b;
    } else {
      assert (a + b)[0] == a[0] && (a + b)[1..] == a[1..] + b;
      RunAppend(Do(s, a[0], c), a[1..], b, c);
    }
  }

  lemma RunOne(s: State, e: Event, c: Config)
    ensures Run(s, [e], c) == Do(s, e, c)
  {
    assert Run(s, [e], c) == Run(Do(s, e, c), [], c);
  }

  lemma RunTwo(s: State, a: Event, b: Event, c: Config)
    ensures Run(s, [a, b], c) == Do(Do(s, a, c), b, c)
  {
    assert [a, b][1..] == [b];
    RunOne(Do(s, a, c), b, c);
  }

  lemma RunThree(s: State, a: Event, b: Event, d: Event, c: Config)
    ensures Run(s, [a, b, d], c) == Do(Do(Do(s, a, c), b, c), d, c)
  {
    assert [a, b, d][1..] == [b, d];
    RunTwo(Do(s, a, c), b, d, c);
  }

  // The workers before d are gone, those after it have not begun, and d stands at pc.
  ghost predicate Quiet(s: State, c: Config, d: nat, pc: PC) {
    !s.aborted && !s.closed && s.sleeping == 0 && s.shared.Left? && c.amount.Left?
    && d < |s.workers| <= c.maxWorkers
    && (forall w :: 0 <= w < d ==> s.workers[w].pc.Exhausted?)
    && (forall w :: d < w < |s.workers| ==> s.workers[w] == Worker(Top, false, c.amount))
    && s.workers[d].pc == pc && !s.workers[d].stopped && s.workers[d].own.Left?
    && (d > 0 && !c.perWorker ==> s.shared.n == 0)
  }

  // All workers so far are gone.
  ghost predicate Deserted(s: State, c: Config) {
    !s.aborted && !s.closed && s.sleeping == 0 && s.shared.Left? && c.amount.Left?
    && 0 < |s.workers| <= c.maxWorkers
    && (forall w :: 0 <= w < |s.workers| ==> s.workers[w].pc.Exhausted?)
    && (!c.perWorker ==> s.shared.n == 0)
  }

  // Between two offsets.
  ghost predicate Calm(s: State, c: Config, d: nat) {
    s.dispatcher.Fetch? && NoPanic(s)
    && (if d < |s.workers| then Quiet(s, c, d, Top) else d == |s.workers| && Deserted(s, c))
  }

  // How many more offsets the workers will take if they are served in this order, worker d having so
  // much left.
  function RemainingFrom(left: nat, c: Config, d: nat): nat
    requires c.amount.Left? && d <= c.maxWorkers
  {
    if c.perWorker then if d == c.maxWorkers then 0 else left + 1 + Times(c.maxWorkers - d - 1, c.amount.n + 1)
    else left + (c.maxWorkers - d)
  }

  function Remaining(s: State, c: Config, d: nat): nat
    requires c.amount.Left? && s.shared.Left? && d <= |s.workers| && d <= c.maxWorkers
    requires d < |s.workers| ==> s.workers[d].own.Left?
  {
    RemainingFrom(if !c.perWorker then s.shared.n else if d < |s.workers| then s.workers[d].own.n else c.amount.n, c, d)
  }

  function Times(a: nat, b: nat): nat { a * b }

  // Nothing but worker d has moved.
  ghost predicate OnlyMoved(s: State, t: State, d: nat) {
    t.dispatcher == s.dispatcher && t.schedule == s.schedule && t.last == s.last && t.shared == s.shared
    && |t.workers| == |s.workers| && d < |s.workers| && t.workers[d].own == s.workers[d].own
  }

  // At work, and not going to sleep.
  predicate Walking(pc: PC) {
    pc.GotItem? || pc.ToWork? || pc.Delay? || pc.Woken? || pc.ToBusy? || pc.Punching? || pc.Recorded? || pc.BusyCheck?
    || pc.Pushing? || pc.Leaving? || pc.WorkCheck?
  }

  lemma WalkOne(s: State, c: Config, d: nat, pc: PC)
    requires Quiet(s, c, d, pc) && Walking(pc)
    ensures var t := Do(s, Step(d, true), c);
            Quiet(t, c, d, Next(pc, false, false, true, true)) && OnlyMoved(s, t, d)
  {}

  // A worker with an item comes round without sleeping.
  lemma {:induction false} WalkRound(s: State, c: Config, d: nat, pc: PC) returns (es: seq<Event>)
    requires Quiet(s, c, d, pc) && (Walking(pc) || pc.Top?)
    ensures Quiet(Run(s, es, c), c, d, Top) && OnlyMoved(s, Run(s, es, c), d)
    decreases Distance(pc)
  {
    if pc.Top? {
      es := [];
    } else {
      WalkOne(s, c, d, pc);
      var t := Do(s, Step(d, true), c);
      var more := WalkRound(t, c, d, Next(pc, false, false, true, true));
      es := [Step(d, true)] + more;
      assert es[0] == Step(d, true) && es[1..] == more;
    }
  }

  // The dispatcher holds the next offset, and worker d has not begun.
  ghost predicate Offering(s: State, t: State, c: Config, d: nat) {
    (t.dispatcher.Attempt? || t.dispatcher.Send?) && Quiet(t, c, d, Top)
    && s.schedule != [] && t.schedule == s.schedule[1..] && t.last == s.schedule[0] && t.shared == s.shared
    && (if d < |s.workers| then t.workers == s.workers else t.workers[d].own == c.amount)
  }

  lemma OfferToNext(s: State, c: Config, d: nat)
    requires Calm(s, c, d) && d < |s.workers| && s.schedule != []
    ensures Offering(s, Run(s, [Dispatch], c), c, d)
  {
    RunOne(s, Dispatch, c);
    IncreasingTail(s.last, s.schedule);
  }

  lemma GrowAll(s: State, c: Config)
    requires Calm(s, c, |s.workers|) && s.schedule != []
    ensures var o, t := s.schedule[0], Run(s, [Dispatch, Dispatch, Dispatch], c);
            t == (if |s.workers| < c.maxWorkers then Spawn(s, c) else s).(
                   dispatcher := Send(o), schedule := s.schedule[1..], last := o)
  {
    IncreasingTail(s.last, s.schedule);
    RunThree(s, Dispatch, Dispatch, Dispatch, c);
    var o := s.schedule[0];
    var s1 := s.(dispatcher := Attempt(o), schedule := s.schedule[1..], last := o);
    assert Do(s, Dispatch, c) == s1;
    assert Do(s1, Dispatch, c) == s1.(dispatcher := Grow(o));
  }

  lemma Offer(s: State, c: Config, d: nat) returns (es: seq<Event>)
    requires Calm(s, c, d) && s.schedule != [] && d < c.maxWorkers
    ensures Offering(s, Run(s, es, c), c, d)
  {
    if d < |s.workers| {
      es := [Dispatch];
      OfferToNext(s, c, d);
    } else {
      es := [Dispatch, Dispatch, Dispatch];
      GrowAll(s, c);
    }
  }

  // Worker d asks, and is given the offset.
  lemma Accept(t: State, c: Config, d: nat)
    requires Quiet(t, c, d, Top) && (t.dispatcher.Attempt? || t.dispatcher.Send?)
    ensures var u := Run(t, [Step(d, true), Step(d, true), HandOver(d)], c);
            Quiet(u, c, d, AwaitItem(t.dispatcher.offset)) && OnlyMoved(t.(dispatcher := Fetch), u, d)
  {
    RunThree(t, Step(d, true), Step(d, true), HandOver(d), c);
    var t1 := Do(t, Step(d, true), c);
    assert Quiet(t1, c, d, ToWait);
    var t2 := Do(t1, Step(d, true), c);
    assert Quiet(t2, c, d, AwaitOffset);
  }

  // How much is left of the input of worker d.
  function LeftFor(s: State, c: Config, d: nat): nat
    requires d < |s.workers| && s.shared.Left? && s.workers[d].own.Left?
  {
    if c.perWorker then s.workers[d].own.n else s.shared.n
  }

  lemma TakeItem(u: State, c: Config, d: nat, o: int)
    requires Quiet(u, c, d, AwaitItem(o)) && LeftFor(u, c, d) > 0
    ensures var v := Do(u, Step(d, true), c);
            Quiet(v, c, d, GotItem(o)) && v.dispatcher == u.dispatcher && v.schedule == u.schedule && v.last == u.last
            && |v.workers| == |u.workers| && LeftFor(v, c, d) == LeftFor(u, c, d) - 1
  {}

  // With an item left, worker d serves the offset and comes round.
  lemma ServeAndReturn(u: State, c: Config, d: nat, o: int) returns (es: seq<Event>)
    requires Quiet(u, c, d, AwaitItem(o)) && LeftFor(u, c, d) > 0
    ensures var v := Run(u, es, c);
            Quiet(v, c, d, Top) && v.dispatcher == u.dispatcher && v.schedule == u.schedule && v.last == u.last
            && |v.workers| == |u.workers| && LeftFor(v, c, d) == LeftFor(u, c, d) - 1
  {
    TakeItem(u, c, d, o);
    var v := Do(u, Step(d, true), c);
    var more := WalkRound(v, c, d, GotItem(o));
    es := [Step(d, true)] + more;
    assert es[0] == Step(d, true) && es[1..] == more;
  }

  // Without one, it is gone.
  lemma FindEnd(u: State, c: Config, d: nat, o: int)
    requires Quiet(u, c, d, AwaitItem(o)) && LeftFor(u, c, d) == 0
    ensures var v := Do(u, Step(d, true), c);
            v.dispatcher == u.dispatcher && v.schedule == u.schedule && v.last == u.last && v.shared == u.shared
            && |v.workers| == |u.workers|
            && if d + 1 < |u.workers| then Quiet(v, c, d + 1, Top) else Deserted(v, c)
  {}

  lemma NextOffset(s: State, v: State)
    requires NoPanic(s) && s.schedule != [] && v.schedule == s.schedule[1..] && v.last == s.schedule[0]
    requires v.dispatcher.Fetch?
    ensures NoPanic(v)
  {
    IncreasingTail(s.last, s.schedule);
  }

  lemma TimesLess(a: nat, b: nat)
    requires a > 0
    ensures Times(a, b) == b + Times(a - 1, b)
  {}

  // The next offset is with worker d.
  ghost predicate Begun(s: State, u: State, c: Config, d: nat) {
    u.dispatcher.Fetch? && NoPanic(u) && s.schedule != [] && u.schedule == s.schedule[1..]
    && d < |u.workers| && u.workers[d].pc.AwaitItem? && Quiet(u, c, d, u.workers[d].pc)
  }

  lemma Begin(s: State, c: Config, d: nat) returns (es: seq<Event>)
    requires Calm(s, c, d) && s.schedule != [] && d < c.maxWorkers
    ensures var u := Run(s, es, c);
            Begun(s, u, c, d) && Remaining(s, c, d) == RemainingFrom(LeftFor(u, c, d), c, d)
  {
    var offer := Offer(s, c, d);
    var accept := [Step(d, true), Step(d, true), HandOver(d)];
    Accept(Run(s, offer, c), c, d);
    RunAppend(s, offer, accept, c);
    es := offer + accept;
    NextOffset(s, Run(s, es, c));
  }

  lemma Finish(u: State, c: Config, d: nat) returns (es: seq<Event>, d': nat)
    requires u.dispatcher.Fetch? && NoPanic(u) && d < |u.workers| <= c.maxWorkers
    requires u.workers[d].pc.AwaitItem? && Quiet(u, c, d, u.workers[d].pc)
    ensures var v := Run(u, es, c);
            Calm(v, c, d') && v.schedule == u.schedule && d' <= c.maxWorkers
            && Remaining(v, c, d') == RemainingFrom(LeftFor(u, c, d), c, d) - 1
  {
    var o := u.workers[d].pc.offset;
    if LeftFor(u, c, d) > 0 {
      es := ServeAndReturn(u, c, d, o);
      d' := d;
    } else {
      FindEnd(u, c, d, o);
      RunOne(u, Step(d, true), c);
      es, d' := [Step(d, true)], d + 1;
      if d + 1 < c.maxWorkers { TimesLess(c.maxWorkers - d - 1, c.amount.n + 1); }
    }
  }

  // One offset more is taken.
  lemma Serve(s: State, c: Config, d: nat) returns (es: seq<Event>, d': nat)
    requires Calm(s, c, d) && s.schedule != [] && d < c.maxWorkers
    ensures var v := Run(s, es, c);
            Calm(v, c, d') && v.schedule == s.schedule[1..] && d' <= c.maxWorkers
            && Remaining(v, c, d') == Remaining(s, c, d) - 1
  {
    var first := Begin(s, c, d);
    var second;
    second, d' := Finish(Run(s, first, c), c, d);
    RunAppend(s, first, second, c);
    es := first + second;
  }

  // With more offsets than the workers will take, the dispatcher ends up waiting for ever.
  lemma {:induction false} ServeAll(s: State, c: Config, d: nat) returns (es: seq<Event>)
    requires Calm(s, c, d) && d <= c.maxWorkers && |s.schedule| > Remaining(s, c, d)
    ensures Run(s, es, c).dispatcher.Send? && AllDoomed(Run(s, es, c), c)
    decreases |s.schedule|
  {
    if d == c.maxWorkers {
      es := [Dispatch, Dispatch, Dispatch];
      GrowAll(s, c);
    } else {
      var first, d' := Serve(s, c, d);
      var more := ServeAll(Run(s, first, c), c, d');
      RunAppend(s, first, more, c);
      es := first + more;
    }
  }

  ghost predicate StrandsAfter(c: Config, schedule: seq<int>, es: seq<Event>) {
    Stranded(Run(Start(c, schedule), es, c), c)
  }

  lemma TooMuchStrands(c: Config, schedule: seq<int>) returns (es: seq<Event>)
    requires Increasing([0] + schedule) && !Enough(c, |schedule|)
    ensures StrandsAfter(c, schedule, es)
  {
    var s := Start(c, schedule);
    if c.perWorker { TimesLess(c.maxWorkers, c.amount.n + 1); }
    assert Times(c.maxWorkers, c.amount.n + 1) == c.maxWorkers * (c.amount.n + 1);
    es := ServeAll(s, c, 0);
    StartInv(c, schedule);
    RunInvInRun(s, es, c, schedule);
    StrandedIffAllDoomed(Run(s, es, c), c);
  }

  lemma EnoughNeverStrands(c: Config, schedule: seq<int>, es: seq<Event>)
    requires Increasing([0] + schedule) && Enough(c, |schedule|)
    ensures !StrandsAfter(c, schedule, es)
  {
    var t := Run(Start(c, schedule), es, c);
    StartInv(c, schedule);
    RunInvInRun(Start(c, schedule), es, c, schedule);
    if t.dispatcher.Send? {
      StrandedIffAllDoomed(t, c);
      if AllDoomed(t, c) { DoomedNeedsMore(t, c, schedule); }
    }
  }

  lemma DoomedNeedsMore(t: State, c: Config, schedule: seq<int>)
    requires RunInv(t, c, schedule) && t.dispatcher.Send? && AllDoomed(t, c)
    ensures !Enough(c, |schedule|)
  {
    assert forall w :: 0 <= w < |t.workers| ==> !Live(t.workers[w].pc) by {
      forall w | 0 <= w < |t.workers| ensures !Live(t.workers[w].pc) { assert Doomed(t, w, c); }
    }
    assert Doomed(t, 0, c);
    SpentWhenDoomed(t, c);
    assert |Offsets(t.received)| + 1 + |t.schedule| == |schedule|;
  }

  // Whatever the offsets, as long as they do not decrease: no run ever strands the dispatcher if and
  // only if the input has no end, or the workers no limit, or there are no more offsets than items
  // and workers together; with an input for each worker, than what all of them take.
  lemma NoRunStrandsIff(c: Config, schedule: seq<int>)
    requires Increasing([0] + schedule)
    ensures (forall es :: !StrandsAfter(c, schedule, es)) <==> Enough(c, |schedule|)
  {
    if Enough(c, |schedule|) {
      forall es ensures !StrandsAfter(c, schedule, es) { EnoughNeverStrands(c, schedule, es); }
    } else {
      var es := TooMuchStrands(c, schedule);
      assert StrandsAfter(c, schedule, es);
    }
  }

  // An input that is empty, and one request more than there may be workers, however many that is.
  lemma EmptyInputStrands(maxWorkers: nat, schedule: seq<int>) returns (es: seq<Event>)
    requires maxWorkers > 0 && |schedule| == maxWorkers + 1 && Increasing([0] + schedule)
    ensures StrandsAfter(Config(1, maxWorkers, false, Left(0)), schedule, es)
  {
    es := TooMuchStrands(Config(1, maxWorkers, false, Left(0)), schedule);
  }
}
