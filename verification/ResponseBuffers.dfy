/** Whose response a worker searches: what it takes as its response is the recording buffer of its
    connection itself, and the connection goes back to the pool before the response is searched. */
module ResponseBuffers {
  import opened Counting
  import opened Prelude
  import Pool = ConnPool

  // What a worker has read and not searched yet: the buffer of a connection, for a response.
  datatype View = View(conn: nat, response: nat)

  // One search: the response it is meant for, and the one that the buffer held.
  datatype Search = Search(response: nat, found: Option<nat>)

  // buffers: which response each connection has recorded last. Resetting a connection empties its
  // buffer without touching the bytes; receiving writes over them.
  datatype Shared = Shared(
    pool: Pool.State, buffers: seq<Option<nat>>, views: seq<Option<View>>, responses: nat, searches: seq<Search>)

  datatype Step =
    | PoolStep(e: Pool.Event)
    | Respond(w: nat)  // the response to the request of a worker is received
    | SearchIn(w: nat) // extractors and assertions look at the bytes

  // A worker asks for a connection when it has searched its last response, gives one back or closes it
  // when it has a response, and drops it when it has none.
  predicate Enabled(s: Shared, e: Pool.Event) {
    match e
    case Get(w, _) => w < |s.views| && s.views[w].None?
    case ReturnCheck(w) => w < |s.views| && s.views[w].Some?
    case Close(w) => w < |s.views| && s.views[w].Some?
    case Abandon(w) => w < |s.views| && s.views[w].None?
    case _ => true
  }

  predicate CanRespond(s: Shared, w: nat) {
    w < |s.pool.workers| && w < |s.views| && s.views[w].None? && s.pool.workers[w].Holding?
    && s.pool.workers[w].conn < |s.buffers|
  }

  predicate CanSearch(s: Shared, w: nat) {
    w < |s.pool.workers| && w < |s.views| && s.views[w].Some? && s.pool.workers[w].Ready?
    && s.views[w].value.conn < |s.buffers|
  }

  // One step; one that is not enabled changes nothing.
  function Do(s: Shared, step: Step, max: nat): Shared {
    match step
    case PoolStep(e) =>
      if !Enabled(s, e) then s
      else
        var pool := Pool.Do(s.pool, e, max);
        s.(pool := pool, buffers := s.buffers + if |pool.conns| > |s.pool.conns| then [None] else [])
    case Respond(w) =>
      if !CanRespond(s, w) then s
      else
        var c := s.pool.workers[w].conn;
        s.(buffers := s.buffers[c := Some(s.responses)], views := s.views[w := Some(View(c, s.responses))],
           responses := s.responses + 1)
    case SearchIn(w) =>
      if !CanSearch(s, w) then s
      else
        var v := s.views[w].value;
        s.(views := s.views[w := None], searches := s.searches + [Search(v.response, s.buffers[v.conn])])
  }

  function Run(s: Shared, steps: seq<Step>, max: nat): Shared
    decreases |steps|
  {
    if steps == [] then s else Run(Do(s, steps[0], max), steps[1..], max)
  }

  function Start(n: nat): Shared { Shared(Pool.Start(n), [], seq(n, _ => None), 0, []) }

  // Every search has found the response it was meant for.
  predicate AllOwn(searches: seq<Search>) {
    forall i :: 0 <= i < |searches| ==> searches[i].found == Some(searches[i].response)
  }

  // ---------------------------------------------------------------- what every step keeps

  ghost predicate Shape(s: Shared) {
    |s.views| == |s.pool.workers| && |s.buffers| == |s.pool.conns| && Pool.Owned(s.pool)
    && forall w :: 0 <= w < |s.views| && s.views[w].Some? ==> ViewFits(s, w)
  }

  // A worker with a response has its connection still, or none.
  predicate ViewFits(s: Shared, w: nat)
    requires w < |s.views| && s.views[w].Some?
  {
    s.views[w].value.conn < |s.buffers| && w < |s.pool.workers|
    && var pc := s.pool.workers[w];
       pc.Ready? || ((pc.Holding? || pc.Returning?) && pc.conn == s.views[w].value.conn)
  }

  lemma PoolGrows(p: Pool.State, e: Pool.Event, max: nat)
    ensures |Pool.Do(p, e, max).workers| == |p.workers|
    ensures |p.conns| <= |Pool.Do(p, e, max).conns| <= |p.conns| + 1
    ensures forall w :: 0 <= w < |p.workers| && (e.CloseRuns? || e.NetFail? || e.w != w) ==>
              Pool.Do(p, e, max).workers[w] == p.workers[w]
  {}

  lemma ShapeKept(s: Shared, step: Step, max: nat)
    requires Shape(s)
    ensures Shape(Do(s, step, max))
  {
    if step.PoolStep? && Enabled(s, step.e) {
      PoolGrows(s.pool, step.e, max);
      Pool.OwnedKept(s.pool, step.e, max);
      var t := Do(s, step, max);
      forall w | 0 <= w < |t.views| && t.views[w].Some? ensures ViewFits(t, w) { ViewKept(s, step.e, max, w); }
    }
  }

  lemma ViewKept(s: Shared, e: Pool.Event, max: nat, w: nat)
    requires Shape(s) && Enabled(s, e) && w < |s.views| && s.views[w].Some?
    ensures ViewFits(Do(s, PoolStep(e), max), w)
  {
    PoolGrows(s.pool, e, max);
    assert ViewFits(s, w);
  }

  // Each worker with a response finds it in the buffer.
  ghost predicate OwnBytes(s: Shared) {
    forall w :: 0 <= w < |s.views| && s.views[w].Some? ==> HasOwn(s, w)
  }

  predicate HasOwn(s: Shared, w: nat)
    requires w < |s.views| && s.views[w].Some?
  {
    var v := s.views[w].value;
    v.conn < |s.buffers| && s.buffers[v.conn] == Some(v.response)
  }

  // A connection that a worker has read its response from is in nobody else's hands.
  ghost predicate Alone(s: Shared) {
    forall w, v :: 0 <= w < |s.views| && 0 <= v < |s.pool.workers| && v != w && s.views[w].Some? ==>
      Pool.Has(s.pool.workers[v]) ==> s.pool.workers[v].conn != s.views[w].value.conn
  }

  lemma OwnKept(s: Shared, step: Step, max: nat)
    requires Shape(s) && OwnBytes(s) && AllOwn(s.searches) && Alone(s)
    ensures OwnBytes(Do(s, step, max)) && AllOwn(Do(s, step, max).searches)
  {
    var t := Do(s, step, max);
    forall w | 0 <= w < |t.views| && t.views[w].Some? ensures HasOwn(t, w) {
      if s.views[w].Some? { assert HasOwn(s, w); }
    }
    if step.SearchIn? && CanSearch(s, step.w) { assert HasOwn(s, step.w); }
  }

  // ---------------------------------------------------------------- one worker

  lemma {:induction false} OneWorkerInRun(s: Shared, steps: seq<Step>, max: nat)
    requires Shape(s) && OwnBytes(s) && AllOwn(s.searches) && |s.views| <= 1
    ensures AllOwn(Run(s, steps, max).searches)
    decreases |steps|
  {
    if steps != [] {
      OwnKept(s, steps[0], max);
      ShapeKept(s, steps[0], max);
      OneWorkerInRun(Do(s, steps[0], max), steps[1..], max);
    }
  }

  // ---------------------------------------------------------------- every response closes

  predicate Closing(step: Step) { step.PoolStep? ==> !step.e.ReturnSend? }

  predicate AllClosing(steps: seq<Step>) {
    forall i :: 0 <= i < |steps| ==> Closing(steps[i])
  }

  ghost predicate NoneIdle(p: Pool.State) {
    (forall h :: Pool.Idle(p, h) == []) && forall w :: 0 <= w < |p.workers| ==> !p.workers[w].Took?
  }

  lemma NoneIdleKept(p: Pool.State, e: Pool.Event, max: nat)
    requires NoneIdle(p) && !e.ReturnSend?
    ensures NoneIdle(Pool.Do(p, e, max))
  {
    var q := Pool.Do(p, e, max);
    forall h ensures Pool.Idle(q, h) == [] {
      assert Pool.Idle(p, h) == [];
    }
  }

  // With no connection idle, a worker comes to have one only by opening it.
  lemma OnlyOpened(p: Pool.State, e: Pool.Event, max: nat, v: nat)
    requires NoneIdle(p) && v < |p.workers| && |Pool.Do(p, e, max).workers| == |p.workers|
    requires Pool.Has(Pool.Do(p, e, max).workers[v])
    ensures var pc, pc' := p.workers[v], Pool.Do(p, e, max).workers[v];
            pc'.conn == |p.conns| || (Pool.Has(pc) && pc.conn == pc'.conn)
  {
    if e.Get? { assert Pool.Idle(p, e.host) == []; }
  }

  lemma AloneAt(s: Shared, e: Pool.Event, max: nat, w: nat, v: nat)
    requires Shape(s) && Alone(s) && NoneIdle(s.pool) && Enabled(s, e)
    requires w < |s.views| && s.views[w].Some? && v < |s.pool.workers| && v != w
    requires |Pool.Do(s.pool, e, max).workers| == |s.pool.workers| && Pool.Has(Pool.Do(s.pool, e, max).workers[v])
    ensures Pool.Do(s.pool, e, max).workers[v].conn != s.views[w].value.conn
  {
    OnlyOpened(s.pool, e, max, v);
    assert ViewFits(s, w);
  }

  lemma AloneKept(s: Shared, step: Step, max: nat)
    requires Shape(s) && Alone(s) && NoneIdle(s.pool) && Closing(step)
    ensures Alone(Do(s, step, max)) && NoneIdle(Do(s, step, max).pool)
  {
    if step.PoolStep? && Enabled(s, step.e) {
      var p := Pool.Do(s.pool, step.e, max);
      NoneIdleKept(s.pool, step.e, max);
      PoolGrows(s.pool, step.e, max);
      forall w, v | 0 <= w < |s.views| && s.views[w].Some? && 0 <= v < |p.workers| && v != w && Pool.Has(p.workers[v])
        ensures p.workers[v].conn != s.views[w].value.conn
      {
        AloneAt(s, step.e, max, w, v);
      }
    }
  }

  lemma {:induction false} ClosingInRun(s: Shared, steps: seq<Step>, max: nat)
    requires Shape(s) && OwnBytes(s) && AllOwn(s.searches) && Alone(s) && NoneIdle(s.pool) && AllClosing(steps)
    ensures AllOwn(Run(s, steps, max).searches)
    decreases |steps|
  {
    if steps != [] {
      assert Closing(steps[0]);
      OwnKept(s, steps[0], max);
      AloneKept(s, steps[0], max);
      ShapeKept(s, steps[0], max);
      ClosingInRun(Do(s, steps[0], max), steps[1..], max);
    }
  }

  // ---------------------------------------------------------------- a run that goes wrong

  // One worker gives its connection back, and before it searches its response, another one has taken
  // the connection and received its own.
  function OvertakenRun(host: Pool.Host): seq<Step> {
    [PoolStep(Pool.Get(0, host)), PoolStep(Pool.OpenOk(0)), Respond(0), PoolStep(Pool.ReturnCheck(0)),
     PoolStep(Pool.ReturnSend(0))]
    + [PoolStep(Pool.Get(1, host)), PoolStep(Pool.Check(1)), Respond(1), SearchIn(0)]
  }

  lemma RunOf(s: Shared, steps: seq<Step>, max: nat)
    requires |steps| > 0
    ensures Run(s, steps, max) == Run(Do(s, steps[0], max), steps[1..], max)
  {}

  lemma {:induction false} RunAppend(s: Shared, a: seq<Step>, b: seq<Step>, max: nat)
    ensures Run(s, a + b, max) == Run(Run(s, a, max), b, max)
    decreases |a|
  {
    if a == [] {
      assert a + b == b;
    } else {
      assert (a + b)[0] == a[0] && (a + b)[1..] == a[1..] + b;
      RunAppend(Do(s, a[0], max), a[1..], b, max);
    }
  }

  // The first worker has given its connection back, with its response still to be searched.
  lemma GivenBack(n: nat, max: nat, host: Pool.Host)
    requires n >= 2 && max > 0
    ensures var t := Run(Start(n), OvertakenRun(host)[..5], max);
            |t.views| == n && |t.pool.workers| == n && |t.buffers| == 1 && t.responses == 1 && t.searches == []
            && t.pool.conns == [Pool.Conn(host, false, false, false)] && Pool.Idle(t.pool, host) == [0]
            && t.views[0] == Some(View(0, 0)) && t.views[1] == None
            && t.pool.workers[0].Ready? && t.pool.workers[1].Ready?
  {
    var steps := OvertakenRun(host)[..5];
    var s0 := Start(n);
    var s1 := Do(s0, steps[0], max);
    var s2 := Do(s1, steps[1], max);
    var s3 := Do(s2, steps[2], max);
    var s4 := Do(s3, steps[3], max);
    var s5 := Do(s4, steps[4], max);
    FiveSteps(s0, steps, max);
  }

  lemma FiveSteps(s: Shared, steps: seq<Step>, max: nat)
    requires |steps| == 5
    ensures Run(s, steps, max)
         == Do(Do(Do(Do(Do(s, steps[0], max), steps[1], max), steps[2], max), steps[3], max), steps[4], max)
  {
    FourSteps(Do(s, steps[0], max), steps[1..], max);
  }

  lemma FourSteps(s: Shared, steps: seq<Step>, max: nat)
    requires |steps| == 4
    ensures Run(s, steps, max) == Do(Do(Do(Do(s, steps[0], max), steps[1], max), steps[2], max), steps[3], max)
  {
    RunOf(Do(s, steps[0], max), steps[1..], max);
    RunOf(Do(Do(s, steps[0], max), steps[1], max), steps[1..][1..], max);
    RunOf(Do(Do(Do(s, steps[0], max), steps[1], max), steps[2], max), steps[1..][1..][1..], max);
  }

  // Some search has found a response that was not its own.
  ghost predicate Mixes(n: nat, steps: seq<Step>, max: nat) { !AllOwn(Run(Start(n), steps, max).searches) }

  lemma OvertakenIsWrong(n: nat, max: nat, host: Pool.Host)
    requires n >= 2 && max > 0
    ensures Run(Start(n), OvertakenRun(host), max).searches == [Search(0, Some(1))]
    ensures Mixes(n, OvertakenRun(host), max)
  {
    var steps := OvertakenRun(host);
    var s := Run(Start(n), steps[..5], max);
    GivenBack(n, max, host);
    assert steps == steps[..5] + steps[5..];
    RunAppend(Start(n), steps[..5], steps[5..], max);
    FourSteps(s, steps[5..], max);
    var s1 := Do(s, PoolStep(Pool.Get(1, host)), max);
    assert s1.pool.workers[1] == Pool.Took(host, 0);
    var s2 := Do(s1, PoolStep(Pool.Check(1)), max);
    assert s2.pool.workers[1] == Pool.Holding(host, 0);
    var s3 := Do(s2, Respond(1), max);
    assert s3.buffers == [Some(1)];
    assert Run(Start(n), steps, max).searches[0].found != Some(0);
  }

  // ---------------------------------------------------------------- every response is searched

  predicate Pending(v: Option<View>) { v.Some? }

  ghost predicate Accounted(s: Shared) { s.responses == |s.searches| + Count(Pending, s.views) }

  lemma AccountedKept(s: Shared, step: Step, max: nat)
    requires Accounted(s)
    ensures Accounted(Do(s, step, max))
  {
    match step
    case PoolStep(_) =>
    case Respond(w) =>
      if CanRespond(s, w) {
        CountUpdate(Pending, s.views, w, Some(View(s.pool.workers[w].conn, s.responses)));
      }
    case SearchIn(w) => if CanSearch(s, w) { CountUpdate(Pending, s.views, w, None); }
  }

  lemma {:induction false} AccountedInRun(s: Shared, steps: seq<Step>, max: nat)
    requires Accounted(s)
    ensures Accounted(Run(s, steps, max))
    decreases |steps|
  {
    if steps != [] {
      AccountedKept(s, steps[0], max);
      AccountedInRun(Do(s, steps[0], max), steps[1..], max);
    }
  }

  // In every run, each response received has been searched, or is still to be by the worker that has it.
  lemma EveryResponseIsSearched(n: nat, steps: seq<Step>, max: nat)
    ensures var t := Run(Start(n), steps, max); t.responses == |t.searches| + Count(Pending, t.views)
  {
    CountsNone(Pending, Start(n).views);
    AccountedInRun(Start(n), steps, max);
  }

  // ---------------------------------------------------------------- exactly when none goes wrong

  lemma StartIsOwn(n: nat)
    ensures Shape(Start(n)) && OwnBytes(Start(n)) && AllOwn(Start(n).searches) && Alone(Start(n))
    ensures NoneIdle(Start(n).pool) && |Start(n).views| == n
  {}

  lemma FewNeverMix(n: nat, steps: seq<Step>, max: nat)
    requires n <= 1 || AllClosing(steps)
    ensures !Mixes(n, steps, max)
  {
    StartIsOwn(n);
    if n <= 1 { OneWorkerInRun(Start(n), steps, max); } else { ClosingInRun(Start(n), steps, max); }
  }

  // Whatever the pool has room for, as long as it has any: no run of n workers, with connections that
  // may be given back (reuse) or with none that are, ever searches a response that is not its own, if
  // and only if there is one worker at most, or every response closes its connection.
  lemma NeverMixedIff(n: nat, max: nat, reuse: bool)
    requires max > 0
    ensures (forall steps :: reuse || AllClosing(steps) ==> !Mixes(n, steps, max)) <==> n <= 1 || !reuse
  {
    if n <= 1 || !reuse {
      forall steps | reuse || AllClosing(steps) ensures !Mixes(n, steps, max) { FewNeverMix(n, steps, max); }
    } else {
      var host: Pool.Host :| true;
      OvertakenIsWrong(n, max, host);
    }
  }
}
