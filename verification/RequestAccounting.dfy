/** What becomes of every offset that a worker receives: exactly how many requests have been sent, and how many
    results pushed, in every run of the engine. */
module RequestAccounting {
  import opened Counting
  import opened Engine

  // How many steps of a run were taken by a worker of this kind, past its time or not.
  function StepsOf(s: State, es: seq<Event>, c: Config, kind: (Worker, bool) -> bool): nat
    decreases |es|
  {
    if es == [] then 0
    else One(TakenBy(s, es[0], kind)) + StepsOf(Do(s, es[0], c), es[1..], c, kind)
  }

  predicate TakenBy(s: State, e: Event, kind: (Worker, bool) -> bool) {
    e.Step? && e.w < |s.workers| && kind(s.workers[e.w], e.late)
  }

  // Past its time when it would have slept; at the end of its sleep.
  predicate DueNow(x: Worker, late: bool) { x.pc.Delay? && late }

  predicate Wakes(x: Worker, late: bool) { x.pc.Asleep? }

  // Stopped when it would have sent its request; with a result to push.
  predicate GivesUp(x: Worker, late: bool) { x.pc.Woken? && x.stopped }

  predicate Pushes(x: Worker, late: bool) { x.pc.Pushing? }

  // With an offset whose time it has not waited for yet.
  predicate NotDue(x: Worker) {
    x.pc.AwaitItem? || x.pc.GotItem? || x.pc.ToWork? || x.pc.Delay? || x.pc.ToSleep? || x.pc.SleepCheck? || x.pc.Asleep?
  }

  // Due, and its request not sent yet.
  predicate Starting(x: Worker) { x.pc.Woken? || x.pc.ToBusy? || x.pc.Punching? }

  // Sent, and the result not pushed yet.
  predicate Finishing(x: Worker) { x.pc.Recorded? || x.pc.BusyCheck? || x.pc.Pushing? }

  // The offsets handed over, the requests that were due, those sent and the results pushed: each differs from
  // the one before by the workers in between and by those that gave up.
  ghost predicate Balance(s: State, due: int, stopped: int, pushed: int) {
    |s.received| + s.zeros == due + Count(NotDue, s.workers) + Count(OutOfInput, s.workers)
    && due == stopped + |s.concurrency| + Count(Starting, s.workers)
    && |s.concurrency| == pushed + Count(Finishing, s.workers)
  }

  lemma Replace(ws: seq<Worker>, w: nat, x: Worker)
    requires w < |ws|
    ensures Count(NotDue, ws[w := x]) == Count(NotDue, ws) - One(NotDue(ws[w])) + One(NotDue(x))
    ensures Count(OutOfInput, ws[w := x]) == Count(OutOfInput, ws) - One(OutOfInput(ws[w])) + One(OutOfInput(x))
    ensures Count(Starting, ws[w := x]) == Count(Starting, ws) - One(Starting(ws[w])) + One(Starting(x))
    ensures Count(Finishing, ws[w := x]) == Count(Finishing, ws) - One(Finishing(ws[w])) + One(Finishing(x))
  {
    CountUpdate(NotDue, ws, w, x);
    CountUpdate(OutOfInput, ws, w, x);
    CountUpdate(Starting, ws, w, x);
    CountUpdate(Finishing, ws, w, x);
  }

  // The worker after its step: nothing is skipped.
  lemma NoStageSkipped(x: Worker, closed: bool, item: bool, late: bool, perWorker: bool)
    ensures var y := Moved(x, closed, item, late, perWorker);
            One(NotDue(y)) + One(OutOfInput(y)) - One(NotDue(x)) - One(OutOfInput(x))
              == One(x.pc.AwaitOffset? && closed) - One(DueNow(x, late)) - One(Wakes(x, late))
            && One(Starting(y)) - One(Starting(x))
                 == One(DueNow(x, late)) + One(Wakes(x, late)) - One(GivesUp(x, late)) - One(x.pc.Punching?)
            && One(Finishing(y)) - One(Finishing(x)) == One(x.pc.Punching?) - One(Pushes(x, late))
  {}

  lemma StepBalances(s: State, w: nat, late: bool, c: Config, due: int, stopped: int, pushed: int)
    requires w < |s.workers| && Balance(s, due, stopped, pushed)
    ensures var x := s.workers[w];
            Balance(WorkerStep(s, w, late, c), due + One(DueNow(x, late)) + One(Wakes(x, late)),
                    stopped + One(GivesUp(x, late)), pushed + One(Pushes(x, late)))
  {
    var x, item := s.workers[w], SupplyOf(s, w, c) != Left(0);
    NoStageSkipped(x, s.closed, item, late, c.perWorker);
    Replace(s.workers, w, Moved(x, s.closed, item, late, c.perWorker));
  }

  lemma GivenBalances(s: State, w: nat, offset: int, due: int, stopped: int, pushed: int)
    requires w < |s.workers| && s.workers[w].pc.AwaitOffset? && Balance(s, due, stopped, pushed)
    ensures Balance(Given(s, w, offset), due, stopped, pushed)
  {
    Replace(s.workers, w, s.workers[w].(pc := AwaitItem(offset)));
  }

  lemma SpawnBalances(s: State, c: Config, due: int, stopped: int, pushed: int)
    requires Balance(s, due, stopped, pushed)
    ensures Balance(Spawn(s, c), due, stopped, pushed)
  {
    var x := Worker(Top, false, c.amount);
    CountAppend(NotDue, s.workers, x);
    CountAppend(OutOfInput, s.workers, x);
    CountAppend(Starting, s.workers, x);
    CountAppend(Finishing, s.workers, x);
  }

  lemma StopBalances(s: State, n: nat, due: int, stopped: int, pushed: int)
    requires n < |s.workers| && Balance(s, due, stopped, pushed)
    ensures Balance(Stop(s, n), due, stopped, pushed)
  {
    Replace(s.workers, n, s.workers[n].(stopped := true));
  }

  lemma WorkersDispatched(s: State, t: State, c: Config, due: int, stopped: int, pushed: int)
    requires Balance(s, due, stopped, pushed) && Dispatched(s, t, c) && t.concurrency == s.concurrency
    ensures Balance(t, due, stopped, pushed)
  {
    if t.workers == Spawn(s, c).workers {
      SpawnBalances(s, c, due, stopped, pushed);
    } else if t.workers != s.workers {
      StopBalances(s, StopIndex(s), due, stopped, pushed);
    }
  }

  lemma DispatchBalances(s: State, c: Config, due: int, stopped: int, pushed: int)
    requires Balance(s, due, stopped, pushed)
    ensures Balance(DispatchStep(s, c), due, stopped, pushed)
  {
    var t := DispatchStep(s, c);
    DispatchIs(s, c);
    assert t.concurrency == s.concurrency;
    WorkersDispatched(s, t, c, due, stopped, pushed);
  }

  lemma HandOverBalances(s: State, w: nat, due: int, stopped: int, pushed: int)
    requires w < |s.workers| && Balance(s, due, stopped, pushed)
    ensures Balance(HandOverStep(s, w), due, stopped, pushed)
  {
    if s.workers[w].pc.AwaitOffset? {
      GivenBalances(s, w, 0, due, stopped, pushed);
      if s.dispatcher.Attempt? || s.dispatcher.Send? { GivenBalances(s, w, s.dispatcher.offset, due, stopped, pushed); }
    }
  }

  lemma OtherBalances(s: State, e: Event, c: Config, due: int, stopped: int, pushed: int)
    requires Balance(s, due, stopped, pushed) && !e.Step?
    ensures Balance(Do(s, e, c), due, stopped, pushed)
  {
    match e
    case Dispatch => DispatchBalances(s, c, due, stopped, pushed);
    case HandOver(w) => if w < |s.workers| { HandOverBalances(s, w, due, stopped, pushed); }
    case StartWorker => SpawnBalances(s, c, due, stopped, pushed);
    case Abort =>
  }

  lemma Balances(s: State, e: Event, c: Config, due: int, stopped: int, pushed: int)
    requires Balance(s, due, stopped, pushed)
    ensures Balance(Do(s, e, c), due + One(TakenBy(s, e, DueNow)) + One(TakenBy(s, e, Wakes)),
                    stopped + One(TakenBy(s, e, GivesUp)), pushed + One(TakenBy(s, e, Pushes)))
  {
    if !e.Step? {
      OtherBalances(s, e, c, due, stopped, pushed);
    } else if e.w < |s.workers| {
      StepBalances(s, e.w, e.late, c, due, stopped, pushed);
    }
  }

  lemma {:induction false} BalanceInRun(s: State, es: seq<Event>, c: Config, due: int, stopped: int, pushed: int)
    requires Balance(s, due, stopped, pushed)
    ensures Balance(Run(s, es, c), due + StepsOf(s, es, c, DueNow) + StepsOf(s, es, c, Wakes),
                    stopped + StepsOf(s, es, c, GivesUp), pushed + StepsOf(s, es, c, Pushes))
    decreases |es|
  {
    if es != [] {
      Balances(s, es[0], c, due, stopped, pushed);
      BalanceInRun(Do(s, es[0], c), es[1..], c, due + One(TakenBy(s, es[0], DueNow)) + One(TakenBy(s, es[0], Wakes)),
                   stopped + One(TakenBy(s, es[0], GivesUp)), pushed + One(TakenBy(s, es[0], Pushes)));
    }
  }

  lemma FreshBalance(s: State)
    requires (forall x :: x in s.workers ==> x.pc.Top?) && s.received == [] && s.zeros == 0 && s.concurrency == []
    ensures Balance(s, 0, 0, 0)
  {
    CountsNone(NotDue, s.workers);
    CountsNone(OutOfInput, s.workers);
    CountsNone(Starting, s.workers);
    CountsNone(Finishing, s.workers);
  }

  // So it is from the start of a run on.
  ghost predicate AccountedFor(s: State, es: seq<Event>, c: Config) {
    Balance(Run(s, es, c), StepsOf(s, es, c, DueNow) + StepsOf(s, es, c, Wakes), StepsOf(s, es, c, GivesUp),
            StepsOf(s, es, c, Pushes))
  }

  // In every run of an open workload and of a closed one, each offset handed over, zeros included, has made a
  // worker wait for its time, by being late or by sleeping, or is held by a worker before that, or by one
  // that is out of input; each that was waited for was sent as a request, or given up by a worker that had
  // been stopped, or is about to be sent; and each request sent has its result pushed, or about to be.
  lemma EveryOffsetIsAccountedFor(c: Config, schedule: seq<int>, es: seq<Event>)
    ensures AccountedFor(Start(c, schedule), es, c) && AccountedFor(StartClosed(c), es, c)
  {
    FreshBalance(Start(c, schedule));
    FreshBalance(StartClosed(c));
    BalanceInRun(Start(c, schedule), es, c, 0, 0, 0);
    BalanceInRun(StartClosed(c), es, c, 0, 0, 0);
  }

  predicate NobodyStopped(s: State) { forall x :: x in s.workers ==> !x.stopped }

  lemma StoppedStays(s: State, e: Event, c: Config, w: nat)
    requires w < |s.workers|
    ensures w < |Do(s, e, c).workers| && (s.workers[w].stopped ==> Do(s, e, c).workers[w].stopped)
  {
    if e.Dispatch? { DispatchWorkers(s, c); }
  }

  lemma StoppedStay(s: State, e: Event, c: Config)
    requires NobodyStopped(Do(s, e, c))
    ensures NobodyStopped(s) && !TakenBy(s, e, GivesUp)
  {
    forall x | x in s.workers ensures !x.stopped {
      var w :| 0 <= w < |s.workers| && s.workers[w] == x;
      StoppedStays(s, e, c, w);
      assert Do(s, e, c).workers[w] in Do(s, e, c).workers;
    }
  }

  lemma {:induction false} NobodyGaveUp(s: State, es: seq<Event>, c: Config)
    requires NobodyStopped(Run(s, es, c))
    ensures NobodyStopped(s) && StepsOf(s, es, c, GivesUp) == 0
    decreases |es|
  {
    if es != [] {
      NobodyGaveUp(Do(s, es[0], c), es[1..], c);
      StoppedStay(s, es[0], c);
    }
  }

  // Still on the way from its offset to its request.
  predicate OnItsWay(x: Worker) { NotDue(x) || Starting(x) }

  // While no worker has been stopped, the requests sent are the offsets handed over less those on their way
  // and those that met the end of the input.
  lemma RequestsSent(c: Config, schedule: seq<int>, es: seq<Event>)
    requires NobodyStopped(Run(Start(c, schedule), es, c))
    ensures var t := Run(Start(c, schedule), es, c);
            |t.concurrency| == |t.received| + t.zeros - Count(OnItsWay, t.workers) - Count(OutOfInput, t.workers)
  {
    EveryOffsetIsAccountedFor(c, schedule, es);
    NobodyGaveUp(Start(c, schedule), es, c);
    CountSplit(NotDue, Starting, OnItsWay, Run(Start(c, schedule), es, c).workers);
  }
}
