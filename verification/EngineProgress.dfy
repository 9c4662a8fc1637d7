/** That the engine gets on: when it grows and what it records, what an interrupt still lets through, and that
    every run can be brought to its end. */
module EngineProgress {
  import opened Counting
  import opened Engine
  import opened RequestAccounting

  // ---------------------------------------------------------------- growing, recording

  predicate RoomForOneMore(s: State, c: Config) { c.maxWorkers <= 0 || |s.workers| < c.maxWorkers }

  predicate AsleepNow(w: Worker) { w.pc.SleepCheck? || w.pc.Asleep? }

  // In every run: an offset that nobody waits for makes the dispatcher start a worker if there is room for one
  // and no worker is asleep, and only then; the worker has everything before it, and the offset is kept.
  lemma GrowsIff(c: Config, schedule: seq<int>, es: seq<Event>)
    requires Run(Start(c, schedule), es, c).dispatcher.Grow?
    ensures var t, u := Run(Start(c, schedule), es, c), Do(Run(Start(c, schedule), es, c), Dispatch, c);
            u.dispatcher == Send(t.dispatcher.offset)
            && (if RoomForOneMore(t, c) && (forall w :: 0 <= w < |t.workers| ==> !AsleepNow(t.workers[w]))
                then u.workers == t.workers + [Worker(Top, false, c.amount)] else u.workers == t.workers)
  {
    var t := Run(Start(c, schedule), es, c);
    CountersInEveryRun(c, schedule, es);
    if t.sleeping > 0 {
      var w := CountWitness(Sleeps, t.workers);
      assert AsleepNow(t.workers[w]);
    } else {
      forall w | 0 <= w < |t.workers| ensures !AsleepNow(t.workers[w]) {
        if AsleepNow(t.workers[w]) { CountsSome(Sleeps, t.workers, w); }
      }
    }
  }

  // An offset in hand goes to any worker that waits for one; growing is thought of only when there is none.
  lemma WaitingServedFirst(s: State, c: Config, w: nat)
    requires s.dispatcher.Attempt? && w < |s.workers|
    ensures s.workers[w].pc.AwaitOffset? ==>
              Do(s, Dispatch, c) == s
              && Do(s, HandOver(w), c).received == s.received + [(w, s.dispatcher.offset)]
              && Do(s, HandOver(w), c).dispatcher == Fetch
    ensures Do(s, Dispatch, c).dispatcher.Grow? <==>
              forall v :: 0 <= v < |s.workers| ==> !s.workers[v].pc.AwaitOffset?
  {}

  predicate InRequest(w: Worker) { w.pc.Punching? || w.pc.Recorded? }

  // In every run, open or closed: the concurrency recorded with a result is the number of workers that are
  // between the beginning and the end of their requests at that moment, the one that records it included.
  lemma RecordedIsConcurrency(c: Config, schedule: seq<int>, es: seq<Event>, w: nat, late: bool)
    ensures forall s :: s == Start(c, schedule) || s == StartClosed(c) ==>
              var t := Run(s, es, c);
              w < |t.workers| && t.workers[w].pc.Punching? ==>
                Do(t, Step(w, late), c).concurrency == t.concurrency + [Count(InRequest, t.workers)]
                && Count(InRequest, t.workers) >= 1
  {
    CountersInEveryRun(c, schedule, es);
    forall s | s == Start(c, schedule) || s == StartClosed(c)
      ensures var t := Run(s, es, c); t.busy == Count(InRequest, t.workers)
      ensures var t := Run(s, es, c);
              w < |t.workers| && t.workers[w].pc.Punching? ==> Count(InRequest, t.workers) >= 1
    {
      var t := Run(s, es, c);
      SameCount(Busy, InRequest, t.workers);
      if w < |t.workers| && t.workers[w].pc.Punching? { CountsSome(InRequest, t.workers, w); }
    }
  }

  lemma {:induction false} SameCount<T>(p: T -> bool, q: T -> bool, s: seq<T>)
    requires forall x :: x in s ==> p(x) == q(x)
    ensures Count(p, s) == Count(q, s)
  {
    if s != [] { SameCount(p, q, s[1..]); }
  }

  // ---------------------------------------------------------------- an interrupt

  // Interrupted, with this much handed over before and so much in hand then.
  ghost predicate OnlyInHand(s: State, log: seq<(nat, int)>, inHand: nat) {
    s.aborted && log <= s.received && |s.received| + |InHand(s.dispatcher)| <= |log| + inHand && !Fed(s.dispatcher)
  }

  lemma OnlyInHandKept(s: State, e: Event, c: Config, log: seq<(nat, int)>, inHand: nat)
    requires OnlyInHand(s, log, inHand)
    ensures OnlyInHand(Do(s, e, c), log, inHand)
  {}

  lemma {:induction false} OnlyInHandInRun(s: State, es: seq<Event>, c: Config, log: seq<(nat, int)>, inHand: nat)
    requires OnlyInHand(s, log, inHand)
    ensures OnlyInHand(Run(s, es, c), log, inHand)
    decreases |es|
  {
    if es != [] {
      OnlyInHandKept(s, es[0], c, log, inHand);
      OnlyInHandInRun(Do(s, es[0], c), es[1..], c, log, inHand);
    }
  }

  // In every run: after an interrupt at most one offset more is handed over, and none if none was in hand.
  lemma InterruptStops(c: Config, schedule: seq<int>, es: seq<Event>, more: seq<Event>)
    ensures var t, u := Run(Start(c, schedule), es, c), Run(Start(c, schedule), es + [Abort] + more, c);
            t.received <= u.received && |u.received| <= |t.received| + |InHand(t.dispatcher)| <= |t.received| + 1
  {
    var t := Run(Start(c, schedule), es, c);
    RunAppend(Start(c, schedule), es + [Abort], more, c);
    RunAppend(Start(c, schedule), es, [Abort], c);
    RunOne(t, Abort, c);
    SpawnsInRun(Start(c, schedule), es, c);
    OnlyInHandInRun(Do(t, Abort, c), more, c, t.received, |InHand(t.dispatcher)|);
  }

  // ---------------------------------------------------------------- offsets that decrease

  // Zero, what was handed over, and what is in hand; none is above the last offset seen.
  function Seen(s: State): seq<int> { [0] + Offsets(s.received) + InHand(s.dispatcher) }

  ghost predicate Bounded(os: seq<int>, last: int) {
    Increasing(os) && forall i :: 0 <= i < |os| ==> os[i] <= last
  }

  ghost predicate Checked(s: State) { !Fed(s.dispatcher) && Bounded(Seen(s), s.last) }

  lemma OneMoreSeen(os: seq<int>, last: int, offset: int)
    requires Bounded(os, last) && last <= offset
    ensures Bounded(os + [offset], offset)
  {}

  lemma SeenAfterDispatch(s: State, c: Config)
    requires !Fed(s.dispatcher)
    ensures var t := DispatchStep(s, c);
            !Fed(t.dispatcher)
            && ((Seen(t) == Seen(s) && t.last == s.last) || (Seen(t) == Seen(s) + [t.last] && s.last <= t.last))
  {
    assert [0] + Offsets(s.received) + [] == [0] + Offsets(s.received);
  }

  lemma SeenAfterHandOver(s: State, w: nat)
    requires !Fed(s.dispatcher) && w < |s.workers|
    ensures var t := HandOverStep(s, w); !Fed(t.dispatcher) && Seen(t) == Seen(s) && t.last == s.last
  {
    if s.dispatcher.Attempt? || s.dispatcher.Send? {
      GivenLog(s, w, s.dispatcher.offset);
      var os := Offsets(s.received);
      assert [0] + (os + [s.dispatcher.offset]) + [] == [0] + os + [s.dispatcher.offset];
    }
  }

  lemma CheckedKept(s: State, e: Event, c: Config)
    requires Checked(s)
    ensures Checked(Do(s, e, c))
  {
    match e
    case Dispatch =>
      SeenAfterDispatch(s, c);
      var t := DispatchStep(s, c);
      if s.last <= t.last { OneMoreSeen(Seen(s), s.last, t.last); }
    case HandOver(w) => if w < |s.workers| { SeenAfterHandOver(s, w); }
    case _ => assert Seen(Do(s, e, c)) == Seen(s);
  }

  lemma {:induction false} CheckedInRun(s: State, es: seq<Event>, c: Config)
    requires Checked(s)
    ensures Checked(Run(s, es, c))
    decreases |es|
  {
    if es != [] {
      CheckedKept(s, es[0], c);
      CheckedInRun(Do(s, es[0], c), es[1..], c);
    }
  }

  // Whatever the schedule, and in every run: the offsets handed over never decrease, as the dispatcher panics
  // before that.
  lemma NoDecreaseHandedOver(c: Config, schedule: seq<int>, es: seq<Event>)
    ensures Increasing([0] + Offsets(Run(Start(c, schedule), es, c).received))
  {
    var t := Run(Start(c, schedule), es, c);
    CheckedInRun(Start(c, schedule), es, c);
    var os := [0] + Offsets(t.received);
    forall i, j | 0 <= i < j < |os| ensures os[i] <= os[j] { assert os[i] == Seen(t)[i] && os[j] == Seen(t)[j]; }
  }

  // ---------------------------------------------------------------- nobody is left running

  // How many workers have been stopped for sure: those before the next one; at the end, all.
  function StoppedCount(s: State): nat {
    match s.dispatcher
    case Stopping(next) => next
    case FeedStopping(next) => next
    case Complete => |s.workers|
    case _ => 0
  }

  predicate StoppedUpTo(ws: seq<Worker>, n: nat) { n <= |ws| && forall w :: 0 <= w < n ==> ws[w].stopped }

  predicate StoppedSoFar(s: State) { StoppedUpTo(s.workers, StoppedCount(s)) }

  predicate AllStopped(ws: seq<Worker>) { StoppedUpTo(ws, |ws|) }

  lemma OneMoreStopped(s: State, e: Event, c: Config)
    requires StoppedSoFar(s)
    ensures var t := Do(s, e, c);
            StoppedCount(t) <= StoppedCount(s)
            || (StoppedCount(t) == StoppedCount(s) + 1 <= |t.workers| && t.workers[StoppedCount(s)].stopped)
  {}

  lemma StoppedSoFarKept(s: State, e: Event, c: Config)
    requires StoppedSoFar(s)
    ensures StoppedSoFar(Do(s, e, c))
  {
    OneMoreStopped(s, e, c);
    forall w | 0 <= w < StoppedCount(s) ensures w < |Do(s, e, c).workers| && Do(s, e, c).workers[w].stopped {
      StoppedStays(s, e, c, w);
    }
  }

  lemma {:induction false} StoppedSoFarInRun(s: State, es: seq<Event>, c: Config)
    requires StoppedSoFar(s)
    ensures StoppedSoFar(Run(s, es, c))
    decreases |es|
  {
    if es != [] {
      StoppedSoFarKept(s, es[0], c);
      StoppedSoFarInRun(Do(s, es[0], c), es[1..], c);
    }
  }

  // A dispatcher that is complete has stopped every worker, in every run.
  lemma NobodyMissed(c: Config, schedule: seq<int>, es: seq<Event>)
    ensures var t := Run(Start(c, schedule), es, c);
            t.dispatcher.Complete? ==> t.closed && forall x :: x in t.workers ==> x.stopped
  {
    StoppedSoFarInRun(Start(c, schedule), es, c);
    ClosedInRun(Start(c, schedule), es, c);
  }

  predicate ClosedWhenDone(s: State) { (s.dispatcher.Stopping? || s.dispatcher.Complete?) ==> s.closed }

  lemma {:induction false} ClosedInRun(s: State, es: seq<Event>, c: Config)
    requires ClosedWhenDone(s)
    ensures ClosedWhenDone(Run(s, es, c))
    decreases |es|
  {
    if es != [] { ClosedInRun(Do(s, es[0], c), es[1..], c); }
  }

  // ---------------------------------------------------------------- the dispatcher comes to its end

  function Phase(d: Dispatcher): nat {
    match d
    case Attempt(_) => 6 case Grow(_) => 5 case Send(_) => 4 case Fetch => 3 case Closing => 2 case _ => 1
  }

  function StopsLeft(s: State): nat {
    if s.dispatcher.Stopping? && s.dispatcher.next <= |s.workers| then |s.workers| - s.dispatcher.next + 1
    else if s.dispatcher.Stopping? then 1 else 0
  }

  predicate Nearer(s: State, t: State) {
    t.aborted == s.aborted
    && (|t.schedule| < |s.schedule|
        || (|t.schedule| == |s.schedule|
            && (Phase(t.dispatcher) < Phase(s.dispatcher)
                || (Phase(t.dispatcher) == Phase(s.dispatcher) && StopsLeft(t) < StopsLeft(s)))))
  }

  lemma DispatchIsNearer(s: State, c: Config)
    requires !s.dispatcher.Complete? && !s.dispatcher.Send? && !Fed(s.dispatcher) && NoPanic(s)
    requires s.dispatcher.Attempt? ==> NobodyWaits(s)
    ensures Nearer(s, DispatchStep(s, c))
  {
    if s.dispatcher.Fetch? && s.schedule != [] { IncreasingTail(s.last, s.schedule); }
  }

  lemma SendIsNearer(s: State, c: Config) returns (es: seq<Event>)
    requires s.dispatcher.Send? && Open(s) && !AllDoomed(s, c)
    ensures Nearer(s, Run(s, es, c))
  {
    var w :| 0 <= w < |s.workers| && !Doomed(s, w, c);
    es := AliveReceives(s, w, c);
  }

  // With enough of everything, a few steps bring the dispatcher nearer to its end.
  lemma Advances(s: State, c: Config, schedule: seq<int>) returns (es: seq<Event>)
    requires RunInv(s, c, schedule) && Enough(c, |schedule|) && !s.dispatcher.Complete?
    ensures Nearer(s, Run(s, es, c))
  {
    if s.dispatcher.Send? {
      if AllDoomed(s, c) { DoomedNeedsMore(s, c, schedule); }
      es := SendIsNearer(s, c);
    } else if s.dispatcher.Attempt? && !NobodyWaits(s) {
      var w :| 0 <= w < |s.workers| && s.workers[w].pc.AwaitOffset?;
      es := [HandOver(w)];
      RunOne(s, HandOver(w), c);
    } else {
      es := [Dispatch];
      RunOne(s, Dispatch, c);
      DispatchIsNearer(s, c);
    }
  }

  lemma {:induction false} DispatcherEnds(s: State, c: Config, schedule: seq<int>) returns (es: seq<Event>)
    requires RunInv(s, c, schedule) && Enough(c, |schedule|)
    ensures var t := Run(s, es, c);
            RunInv(t, c, schedule) && t.dispatcher.Complete? && t.aborted == s.aborted
    decreases |s.schedule|, Phase(s.dispatcher), StopsLeft(s)
  {
    if s.dispatcher.Complete? {
      es := [];
    } else {
      var first := Advances(s, c, schedule);
      RunInvInRun(s, first, c, schedule);
      var more := DispatcherEnds(Run(s, first, c), c, schedule);
      RunAppend(s, first, more, c);
      es := first + more;
    }
  }

  // ---------------------------------------------------------------- the workers come to their end

  predicate Gone(x: Worker) { x.pc.Finished? || x.pc.Exhausted? }

  // How many steps a stopped worker has before it.
  function ToEnd(pc: PC): nat {
    match pc
    case Finished => 0 case Exhausted => 0 case Top => 1 case WorkCheck => 2 case Leaving => 3 case Pushing => 4
    case BusyCheck => 5 case Recorded => 6 case Punching => 7 case ToBusy => 8 case Woken => 9 case Asleep => 10
    case SleepCheck => 11 case ToSleep => 12 case Delay(_) => 13 case ToWork(_) => 14 case GotItem(_) => 15
    case AwaitItem(_) => 16 case AwaitOffset => 17 case ToWait => 18
  }

  // Neither waits for an offset, nor begins a round.
  predicate InRound(pc: PC) { !pc.Top? && !pc.AwaitOffset? && !pc.ToWait? && !pc.Finished? && !pc.Exhausted? }

  function Steps(w: nat, lates: seq<bool>): (es: seq<Event>)
    ensures |es| == |lates|
  {
    if lates == [] then [] else [Step(w, lates[0])] + Steps(w, lates[1..])
  }

  lemma StepInRound(s: State, w: nat, late: bool, c: Config)
    requires w < |s.workers| && InRound(s.workers[w].pc)
    ensures var t := Do(s, Step(w, late), c);
            |t.workers| == |s.workers| && ToEnd(t.workers[w].pc) < ToEnd(s.workers[w].pc)
            && (InRound(t.workers[w].pc) || t.workers[w].pc.Top? || t.workers[w].pc.Exhausted?)
  {}

  lemma StepsFrom(s: State, w: nat, lates: seq<bool>, j: nat, c: Config)
    requires j < |lates|
    ensures Run(s, Steps(w, lates[..j + 1]), c) == Run(Do(s, Step(w, lates[0]), c), Steps(w, lates[1..][..j]), c)
  {
    assert lates[..j + 1][1..] == lates[1..][..j];
  }

  // A worker with an offset never stands still: whether it is past its time or sleeps, and whether or not it has
  // been stopped, it has gone through the round after 15 steps of its own, or found its input at an end.
  lemma {:induction false} RoundEnds(s: State, w: nat, lates: seq<bool>, c: Config) returns (k: nat)
    requires w < |s.workers| && InRound(s.workers[w].pc) && |lates| >= ToEnd(s.workers[w].pc) - 1
    ensures k <= |lates|
    ensures var t := Run(s, Steps(w, lates[..k]), c);
            w < |t.workers| && (t.workers[w].pc.Top? || t.workers[w].pc.Exhausted?)
    decreases ToEnd(s.workers[w].pc)
  {
    var t := Do(s, Step(w, lates[0]), c);
    StepInRound(s, w, lates[0], c);
    if InRound(t.workers[w].pc) {
      var j := RoundEnds(t, w, lates[1..], c);
      k := j + 1;
      StepsFrom(s, w, lates, j, c);
    } else {
      k := 1;
      StepsFrom(s, w, lates, 0, c);
    }
  }

  // A worker that asks for an offset gets one.
  predicate Answered(s: State) { s.closed || s.dispatcher.FeedStopping? }

  // Nothing but worker w has moved.
  predicate OnlyWorker(s: State, t: State, w: nat) {
    t.dispatcher == s.dispatcher && t.closed == s.closed && t.aborted == s.aborted && |t.workers| == |s.workers|
    && forall v :: 0 <= v < |s.workers| ==> t.workers[v].stopped == s.workers[v].stopped
                                            && (v != w ==> t.workers[v] == s.workers[v])
  }

  lemma StepIsOwn(s: State, w: nat, c: Config)
    requires w < |s.workers| && s.workers[w].stopped && !Gone(s.workers[w])
    requires s.workers[w].pc.AwaitOffset? ==> s.closed
    ensures var t := Do(s, Step(w, true), c); OnlyWorker(s, t, w) && ToEnd(t.workers[w].pc) < ToEnd(s.workers[w].pc)
  {
    if InRound(s.workers[w].pc) { StepInRound(s, w, true, c); }
  }

  lemma OneStepOn(s: State, w: nat, c: Config) returns (e: Event)
    requires w < |s.workers| && s.workers[w].stopped && Answered(s) && !Gone(s.workers[w])
    ensures var t := Do(s, e, c); OnlyWorker(s, t, w) && ToEnd(t.workers[w].pc) < ToEnd(s.workers[w].pc)
  {
    if s.workers[w].pc.AwaitOffset? && !s.closed {
      e := HandOver(w);
    } else {
      StepIsOwn(s, w, c);
      e := Step(w, true);
    }
  }

  lemma {:induction false} WorkerEnds(s: State, w: nat, c: Config) returns (es: seq<Event>)
    requires w < |s.workers| && s.workers[w].stopped && Answered(s)
    ensures var t := Run(s, es, c); OnlyWorker(s, t, w) && Gone(t.workers[w])
    decreases ToEnd(s.workers[w].pc)
  {
    if Gone(s.workers[w]) {
      es := [];
    } else {
      var e := OneStepOn(s, w, c);
      var more := WorkerEnds(Do(s, e, c), w, c);
      es := [e] + more;
      assert es[0] == e && es[1..] == more;
    }
  }

  lemma {:induction false} WorkersEnd(s: State, n: nat, c: Config) returns (es: seq<Event>)
    requires n <= |s.workers| && AllStopped(s.workers) && Answered(s)
    ensures var t := Run(s, es, c);
            t.dispatcher == s.dispatcher && t.closed == s.closed && t.aborted == s.aborted
            && |t.workers| == |s.workers| && AllStopped(t.workers)
            && forall w :: 0 <= w < n ==> Gone(t.workers[w])
    decreases n
  {
    if n == 0 {
      es := [];
    } else {
      var first := WorkersEnd(s, n - 1, c);
      var more := WorkerEnds(Run(s, first, c), n - 1, c);
      RunAppend(s, first, more, c);
      es := first + more;
    }
  }

  // ---------------------------------------------------------------- every run can be brought to its end

  // The channel is closed, every worker has been stopped, and has finished or met the end of its input.
  ghost predicate Completed(t: State) {
    t.dispatcher.Complete? && t.closed && forall x :: x in t.workers ==> x.stopped && Gone(x)
  }

  // Everything has come to its end, and nothing is unaccounted for: each offset received, zeros included, was
  // sent as a request and its result pushed, or was given up by a worker that had been stopped, or met the
  // end of the input.
  ghost predicate CompletedAfter(c: Config, schedule: seq<int>, es: seq<Event>) {
    var s, t := Start(c, schedule), Run(Start(c, schedule), es, c);
    Completed(t)
    && (!t.aborted ==> Offsets(t.received) == schedule)
    && StepsOf(s, es, c, Pushes) == |t.concurrency|
    && |t.received| + t.zeros == |t.concurrency| + StepsOf(s, es, c, GivesUp) + Count(OutOfInput, t.workers)
  }

  lemma NobodyInBetween(t: State)
    requires Completed(t)
    ensures Count(Starting, t.workers) == 0 && Count(Finishing, t.workers) == 0 && Count(NotDue, t.workers) == 0
  {
    CountsNone(Starting, t.workers);
    CountsNone(Finishing, t.workers);
    CountsNone(NotDue, t.workers);
  }

  lemma CompletesFrom(t: State, c: Config, schedule: seq<int>) returns (es: seq<Event>)
    requires RunInv(t, c, schedule) && Enough(c, |schedule|) && StoppedSoFar(t) && ClosedWhenDone(t)
    ensures Completed(Run(t, es, c)) && Run(t, es, c).aborted == t.aborted
  {
    var first := DispatcherEnds(t, c, schedule);
    StoppedSoFarInRun(t, first, c);
    ClosedInRun(t, first, c);
    var u := Run(t, first, c);
    var last := WorkersEnd(u, |u.workers|, c);
    RunAppend(t, first, last, c);
    es := first + last;
  }

  // From every moment of every run, if the input is enough for the schedule, the run can be brought to its end
  // without an interrupt.
  lemma EveryRunCanComplete(c: Config, schedule: seq<int>, es: seq<Event>) returns (more: seq<Event>)
    requires Increasing([0] + schedule) && Enough(c, |schedule|)
    ensures CompletedAfter(c, schedule, es + more)
    ensures Run(Start(c, schedule), es + more, c).aborted == Run(Start(c, schedule), es, c).aborted
  {
    var s := Start(c, schedule);
    StartInv(c, schedule);
    RunInvInRun(s, es, c, schedule);
    StoppedSoFarInRun(s, es, c);
    ClosedInRun(s, es, c);
    more := CompletesFrom(Run(s, es, c), c, schedule);
    RunAppend(s, es, more, c);
    CompletedIsAccounted(c, schedule, es + more);
  }

  lemma CompletedIsAccounted(c: Config, schedule: seq<int>, es: seq<Event>)
    requires Increasing([0] + schedule) && Completed(Run(Start(c, schedule), es, c))
    ensures CompletedAfter(c, schedule, es)
  {
    NobodyInBetween(Run(Start(c, schedule), es, c));
    EveryOffsetIsAccountedFor(c, schedule, es);
    ScheduleIsHandedOver(c, schedule, es);
  }

  ghost predicate CanComplete(c: Config, schedule: seq<int>, es: seq<Event>) {
    exists more :: CompletedAfter(c, schedule, es + more)
  }

  // And no less will do: every run can always be brought to its end if and only if the input has no end, or the
  // workers no limit, or there are no more offsets than items and workers together.
  lemma EveryRunCanCompleteIff(c: Config, schedule: seq<int>)
    requires Increasing([0] + schedule)
    ensures (forall es :: CanComplete(c, schedule, es)) <==> Enough(c, |schedule|)
  {
    if Enough(c, |schedule|) {
      forall es ensures CanComplete(c, schedule, es) {
        var more := EveryRunCanComplete(c, schedule, es);
        assert CompletedAfter(c, schedule, es + more);
      }
    } else {
      var es := TooMuchStrands(c, schedule);
      forall more ensures !CompletedAfter(c, schedule, es + more) { RunAppend(Start(c, schedule), es, more, c); }
      assert !CanComplete(c, schedule, es);
    }
  }

  // ---------------------------------------------------------------- closed workloads

  lemma {:induction false} FedInRun(s: State, es: seq<Event>, c: Config)
    requires Fed(s.dispatcher)
    ensures Fed(Run(s, es, c).dispatcher)
    decreases |es|
  {
    if es != [] { FedInRun(Do(s, es[0], c), es[1..], c); }
  }

  lemma {:induction false} FeedingEnds(s: State, c: Config) returns (es: seq<Event>)
    requires s.dispatcher.FeedStopping? && StoppedSoFar(s)
    ensures var t := Run(s, es, c); t.dispatcher.FeedStopping? && |t.workers| == |s.workers| && AllStopped(t.workers)
    decreases |s.workers| - s.dispatcher.next
  {
    if s.dispatcher.next == |s.workers| {
      es := [];
      assert s.workers[..s.dispatcher.next] == s.workers;
    } else {
      StoppedSoFarKept(s, Dispatch, c);
      var more := FeedingEnds(Do(s, Dispatch, c), c);
      es := [Dispatch] + more;
      assert es[0] == Dispatch && es[1..] == more;
    }
  }

  // From every moment of every run of a closed workload, whatever its input: the workers can all be stopped, and
  // then all come to their end.
  lemma EveryClosedRunCanEnd(c: Config, es: seq<Event>) returns (more: seq<Event>)
    ensures var t, u := Run(StartClosed(c), es, c), Run(StartClosed(c), es + more, c);
            |u.workers| == |t.workers| && forall x :: x in u.workers ==> x.stopped && Gone(x)
  {
    var s := StartClosed(c);
    FedInRun(s, es, c);
    StoppedSoFarInRun(s, es, c);
    var t := Run(s, es, c);
    var begin := if t.dispatcher.Feeding? then [Dispatch] else [];
    if t.dispatcher.Feeding? { RunOne(t, Dispatch, c); }
    var first := FeedingEnds(Run(t, begin, c), c);
    RunAppend(t, begin, first, c);
    var u := Run(t, begin + first, c);
    var last := WorkersEnd(u, |u.workers|, c);
    RunAppend(t, begin + first, last, c);
    more := begin + first + last;
    RunAppend(s, es, more, c);
  }

  // Past the hand-over, and its request not sent yet.
  predicate BeforeRequest(pc: PC) {
    pc.GotItem? || pc.ToWork? || pc.Delay? || pc.ToSleep? || pc.SleepCheck? || pc.Asleep? || pc.Woken? || pc.ToBusy?
    || pc.Punching?
  }

  lemma OneStepServed(s: State, w: nat, c: Config)
    requires w < |s.workers| && !s.workers[w].stopped && BeforeRequest(s.workers[w].pc)
    ensures var t := Do(s, Step(w, true), c);
            OnlyWorker(s, t, w) && !t.workers[w].stopped && t.received == s.received
            && (if s.workers[w].pc.Punching? then t.workers[w].pc.Recorded? && |t.concurrency| == |s.concurrency| + 1
                else BeforeRequest(t.workers[w].pc) && ToEnd(t.workers[w].pc) < ToEnd(s.workers[w].pc)
                     && t.concurrency == s.concurrency)
  {}

  // A worker with an item that has not been stopped sends its request.
  lemma {:induction false} RequestIsSent(s: State, w: nat, c: Config) returns (es: seq<Event>)
    requires w < |s.workers| && !s.workers[w].stopped && BeforeRequest(s.workers[w].pc)
    ensures var t := Run(s, es, c);
            w < |t.workers| && t.workers[w].pc.Recorded? && t.received == s.received
            && |t.concurrency| == |s.concurrency| + 1
    decreases ToEnd(s.workers[w].pc)
  {
    var t := Do(s, Step(w, true), c);
    OneStepServed(s, w, c);
    if s.workers[w].pc.Punching? {
      es := [Step(w, true)];
      RunOne(s, Step(w, true), c);
    } else {
      var more := RequestIsSent(t, w, c);
      es := [Step(w, true)] + more;
      assert es[0] == Step(w, true) && es[1..] == more;
    }
  }

  // There is an item for one worker more.
  predicate ItemLeft(s: State, c: Config) { (if c.perWorker then c.amount else s.shared) != Left(0) }

  // Worker w waits for an offset, over this input.
  predicate Asks(s: State, t: State, w: nat, c: Config) {
    w < |t.workers| && t.workers[w] == Worker(AwaitOffset, false, c.amount)
    && t.dispatcher.Feeding? && !t.closed && t.shared == s.shared && t.received == s.received
    && t.concurrency == s.concurrency
  }

  lemma NewWorkerAsks(s: State, c: Config)
    requires s.dispatcher.Feeding? && !s.closed
    ensures var w := |s.workers|; Asks(s, Run(s, [StartWorker, Step(w, true), Step(w, true)], c), w, c)
  {
    RunThree(s, StartWorker, Step(|s.workers|, true), Step(|s.workers|, true), c);
  }

  lemma NewWorkerIsServed(s: State, t: State, w: nat, c: Config)
    requires Asks(s, t, w, c) && ItemLeft(s, c)
    ensures var u := Run(t, [HandOver(w), Step(w, true)], c);
            w < |u.workers| && u.workers[w].pc == GotItem(0) && !u.workers[w].stopped
            && u.received == s.received + [(w, 0)] && u.concurrency == s.concurrency
  {
    RunTwo(t, HandOver(w), Step(w, true), c);
  }

  // While it is being fed and there is an item left, one worker more can be started at every moment of every
  // closed run; it is given a zero, takes an item and sends a request.
  lemma ClosedRunsServe(c: Config, es: seq<Event>) returns (more: seq<Event>)
    requires var t := Run(StartClosed(c), es, c); t.dispatcher.Feeding? && ItemLeft(t, c)
    ensures var t, u := Run(StartClosed(c), es, c), Run(Run(StartClosed(c), es, c), more, c);
            u.received == t.received + [(|t.workers|, 0)] && |u.concurrency| == |t.concurrency| + 1
  {
    var t := Run(StartClosed(c), es, c);
    var w := |t.workers|;
    NeverClosed(StartClosed(c), es, c);
    var starts, served := [StartWorker, Step(w, true), Step(w, true)], [HandOver(w), Step(w, true)];
    var begin := starts + served;
    NewWorkerAsks(t, c);
    NewWorkerIsServed(t, Run(t, starts, c), w, c);
    RunAppend(t, starts, served, c);
    var rest := RequestIsSent(Run(t, begin, c), w, c);
    RunAppend(t, begin, rest, c);
    more := begin + rest;
  }

  // The channel of a closed workload is never closed.
  lemma {:induction false} NeverClosed(s: State, es: seq<Event>, c: Config)
    requires Fed(s.dispatcher) && !s.closed
    ensures Fed(Run(s, es, c).dispatcher) && !Run(s, es, c).closed
    decreases |es|
  {
    if es != [] { NeverClosed(Do(s, es[0], c), es[1..], c); }
  }
}
