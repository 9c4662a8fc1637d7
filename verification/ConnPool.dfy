/** The pool of idle connections, one bounded channel per host, shared by any number of workers whose
    steps interleave freely with each other and with failures of the network. */
module ConnPool {
  import opened Prelude

  type Host = string

  // failed: reading met an error; canceled: it is closed, or will not be read any more;
  // doomed: its worker has asked for it to be closed.
  datatype Conn = Conn(host: Host, failed: bool, canceled: bool, doomed: bool)

  datatype PC =
    | Ready
    | Took(host: Host, conn: nat)      // from the channel, not looked at yet
    | Opening(host: Host)
    | Holding(host: Host, conn: nat)   // a request and its response
    | Returning(host: Host, conn: nat) // found not canceled; about to be sent to the channel

  datatype State = State(idle: map<Host, seq<nat>>, conns: seq<Conn>, workers: seq<PC>)

  datatype Event =
    | Get(w: nat, host: Host)
    | Check(w: nat)       // is the connection taken still usable?
    | OpenOk(w: nat)
    | OpenFail(w: nat)
    | Abandon(w: nat)     // an error of the request or the response: the connection is dropped
    | Close(w: nat)       // one side wants it closed: another goroutine will do that
    | CloseRuns(c: nat)
    | ReturnCheck(w: nat)
    | ReturnSend(w: nat)
    | NetFail(c: nat)     // the loop reading a connection meets an error, end of file included

  function Idle(s: State, h: Host): seq<nat> {
    if h in s.idle then s.idle[h] else []
  }

  // Sending to the channel of a host would wait; to one that was never made, for good.
  predicate Full(s: State, h: Host, max: nat) {
    h !in s.idle || |s.idle[h]| >= max
  }

  function SetPC(s: State, w: nat, pc: PC): State
    requires w < |s.workers|
  {
    s.(workers := s.workers[w := pc])
  }

  function StepOf(s: State, w: nat, e: Event, max: nat): State
    requires w < |s.workers|
  {
    var pc := s.workers[w];
    if e.Get? && pc.Ready? then
      var channel := Idle(s, e.host);
      if channel == [] then SetPC(s, w, Opening(e.host)).(idle := s.idle[e.host := []])
      else SetPC(s, w, Took(e.host, channel[0])).(idle := s.idle[e.host := channel[1..]])
    else if e.Check? && pc.Took? && pc.conn < |s.conns| then
      SetPC(s, w, if s.conns[pc.conn].failed then Opening(pc.host) else Holding(pc.host, pc.conn))
    else if e.OpenOk? && pc.Opening? then
      SetPC(s, w, Holding(pc.host, |s.conns|)).(conns := s.conns + [Conn(pc.host, false, false, false)])
    else if (e.OpenFail? && pc.Opening?) || (e.Abandon? && pc.Holding?) then
      SetPC(s, w, Ready)
    else if e.Close? && pc.Holding? && pc.conn < |s.conns| then
      SetPC(s, w, Ready).(conns := s.conns[pc.conn := s.conns[pc.conn].(doomed := true)])
    else if e.ReturnCheck? && pc.Holding? && pc.conn < |s.conns| then
      SetPC(s, w, if s.conns[pc.conn].canceled then Ready else Returning(pc.host, pc.conn))
    else if e.ReturnSend? && pc.Returning? && !Full(s, pc.host, max) then
      SetPC(s, w, Ready).(idle := s.idle[pc.host := Idle(s, pc.host) + [pc.conn]])
    else s
  }

  // One step; an event that is not enabled changes nothing.
  function Do(s: State, e: Event, max: nat): State {
    match e
    case CloseRuns(c) =>
      if c < |s.conns| && s.conns[c].doomed then s.(conns := s.conns[c := s.conns[c].(canceled := true)]) else s
    case NetFail(c) =>
      if c < |s.conns| then s.(conns := s.conns[c := s.conns[c].(failed := true, canceled := true)]) else s
    case _ =>
      if e.w < |s.workers| then StepOf(s, e.w, e, max) else s
  }

  function Run(s: State, es: seq<Event>, max: nat): State
    decreases |es|
  {
    if es == [] then s else Run(Do(s, es[0], max), es[1..], max)
  }

  function Start(n: nat): State { State(map[], [], seq(n, _ => Ready)) }

  // The pool itself, as one worker at a time sees it: the channels and their capacity.
  class Pool {
    var idle: map<Host, seq<nat>>
    const maxConnections: nat

    constructor (maxConnections: nat)
      ensures idle == map[] && this.maxConnections == maxConnections
    {
      idle, this.maxConnections := map[], maxConnections;
    }

    // Make the channel of a host when it is first asked for, and take what is at its front.
    method Get(host: Host) returns (conn: Option<nat>)
      modifies this
      ensures forall s: State, w: nat :: s.idle == old(idle) && w < |s.workers| && s.workers[w].Ready? ==>
                StepOf(s, w, Event.Get(w, host), maxConnections)
                  == SetPC(s, w, if conn.Some? then Took(host, conn.value) else Opening(host)).(idle := idle)
    {
      if host !in idle { idle := idle[host := []]; }
      var channel := idle[host];
      assert forall s: State :: s.idle == old(idle) ==> Idle(s, host) == channel && s.idle[host := channel] == idle;
      if channel == [] { return None; }
      idle := idle[host := channel[1..]];
      return Some(channel[0]);
    }

    // Put a connection that is not canceled into the channel of its host; false when that would wait.
    method Return(host: Host, conn: nat) returns (done: bool)
      modifies this
      ensures forall s: State, w: nat ::
                s.idle == old(idle) && w < |s.workers| && s.workers[w] == Returning(host, conn) ==>
                StepOf(s, w, ReturnSend(w), maxConnections) == if done then SetPC(s, w, Ready).(idle := idle) else s
      ensures done <==> host in old(idle) && |old(idle)[host]| < maxConnections
    {
      if host !in idle || |idle[host]| >= maxConnections { return false; }
      idle := idle[host := idle[host] + [conn]];
      return true;
    }
  }

  // A worker that wants to return a connection would wait.
  ghost predicate Blocked(s: State, max: nat) {
    exists w :: 0 <= w < |s.workers| && s.workers[w].Returning? && Full(s, s.workers[w].host, max)
  }

  // ---------------------------------------------------------------- capacity

  predicate Uses(pc: PC, h: Host) { !pc.Ready? && pc.host == h }

  // How many workers are opening or holding a connection to a host.
  function Users(ws: seq<PC>, h: Host): (n: nat)
    ensures n <= |ws|
  {
    if ws == [] then 0 else Users(ws[1..], h) + if Uses(ws[0], h) then 1 else 0
  }

  lemma {:induction false} UsersAfter(ws: seq<PC>, w: nat, pc: PC, h: Host)
    requires w < |ws|
    ensures Users(ws[w := pc], h) == Users(ws, h) - (if Uses(ws[w], h) then 1 else 0) + (if Uses(pc, h) then 1 else 0)
  {
    if w > 0 {
      assert ws[w := pc][0] == ws[0] && ws[w := pc][1..] == ws[1..][w - 1 := pc];
      UsersAfter(ws[1..], w - 1, pc, h);
    } else {
      assert ws[w := pc][1..] == ws[1..];
    }
  }

  // Idle connections and workers that use one never exceed the workers, host by host.
  ghost predicate Capacity(s: State) {
    forall h :: CapacityAt(s, h)
  }

  predicate CapacityAt(s: State, h: Host) { |Idle(s, h)| + Users(s.workers, h) <= |s.workers| }

  lemma WorkerSet(s: State, e: Event, max: nat)
    requires !e.CloseRuns? && !e.NetFail? && e.w < |s.workers|
    ensures var t := Do(s, e, max);
            |t.workers| == |s.workers| && t.workers == s.workers[e.w := t.workers[e.w]]
  {}

  lemma CapacityKeptAt(s: State, e: Event, max: nat, h: Host)
    requires CapacityAt(s, h)
    ensures CapacityAt(Do(s, e, max), h) && |Do(s, e, max).workers| == |s.workers|
  {
    if e.CloseRuns? || e.NetFail? || e.w >= |s.workers| {
      assert Do(s, e, max).workers == s.workers && Do(s, e, max).idle == s.idle;
    } else {
      WorkerSet(s, e, max);
      UsersAfter(s.workers, e.w, Do(s, e, max).workers[e.w], h);
    }
  }

  lemma {:induction false} CapacityInRun(s: State, es: seq<Event>, max: nat)
    requires Capacity(s)
    ensures Capacity(Run(s, es, max)) && |Run(s, es, max).workers| == |s.workers|
    decreases |es|
  {
    if es != [] {
      var t := Do(s, es[0], max);
      forall h ensures CapacityAt(t, h) && |t.workers| == |s.workers| { CapacityKeptAt(s, es[0], max, h); }
      CapacityInRun(t, es[1..], max);
    }
  }

  lemma {:induction false} NoUsers(ws: seq<PC>, h: Host)
    requires forall pc :: pc in ws ==> pc.Ready?
    ensures Users(ws, h) == 0
  {
    if ws != [] { NoUsers(ws[1..], h); }
  }

  // In every run of n workers, host by host.
  lemma PoolCapacity(n: nat, es: seq<Event>, max: nat)
    ensures var t := Run(Start(n), es, max);
            |t.workers| == n && forall h :: |Idle(t, h)| + Users(t.workers, h) <= n
  {
    forall h ensures CapacityAt(Start(n), h) { NoUsers(Start(n).workers, h); }
    CapacityInRun(Start(n), es, max);
    var t := Run(Start(n), es, max);
    forall h ensures |Idle(t, h)| + Users(t.workers, h) <= n { assert CapacityAt(t, h); }
  }

  lemma {:induction false} UserCounts(ws: seq<PC>, w: nat, h: Host)
    requires w < |ws| && Uses(ws[w], h)
    ensures Users(ws, h) >= 1
  {
    if w > 0 {
      assert ws[1..][w - 1] == ws[w];
      UserCounts(ws[1..], w - 1, h);
    }
  }

  // ---------------------------------------------------------------- when a return can block

  // Workers [0, k) have opened a connection each and all of them are in hand.
  function Opens(k: nat, host: Host): seq<Event> {
    if k == 0 then [] else Opens(k - 1, host) + [Get(k - 1, host), OpenOk(k - 1)]
  }

  // Workers [0, k) return theirs.
  function Returns(k: nat): seq<Event> {
    if k == 0 then [] else Returns(k - 1) + [ReturnCheck(k - 1), ReturnSend(k - 1)]
  }

  lemma {:induction false} RunAppend(s: State, a: seq<Event>, b: seq<Event>, max: nat)
    ensures Run(s, a + b, max) == Run(Run(s, a, max), b, max)
    decreases |a|
  {
    if a == [] {
      assert a + b == b;
    } else {
      assert (a + b)[0] == a[0] && (a + b)[1..] == a[1..] + b;
      RunAppend(Do(s, a[0], max), a[1..], b, max);
    }
  }

  lemma RunTwo(s: State, a: Event, b: Event, max: nat)
    ensures Run(s, [a, b], max) == Do(Do(s, a, max), b, max)
  {
    var t := Do(s, a, max);
    assert [a, b][1..] == [b];
    assert Run(t, [b], max) == Run(Do(t, b, max), [], max);
  }

  // Workers from k on hold a connection of their own number, the ones before are ready, and k idle
  // connections are in the channel.
  ghost predicate AllOpen(s: State, n: nat, k: nat, m: nat, host: Host) {
    k <= m <= n == |s.workers| && |s.conns| == m && |Idle(s, host)| == k
    && (forall i :: 0 <= i < m ==> s.conns[i] == Conn(host, false, false, false))
    && (forall w :: 0 <= w < k ==> s.workers[w] == Ready)
    && (forall w :: k <= w < m ==> s.workers[w] == Holding(host, w))
    && (forall w :: m <= w < n ==> s.workers[w] == Ready)
    && (m > 0 ==> host in s.idle)
  }

  lemma {:induction false} OpensAll(n: nat, m: nat, host: Host, max: nat)
    requires m <= n
    ensures AllOpen(Run(Start(n), Opens(m, host), max), n, 0, m, host)
  {
    if m > 0 {
      OpensAll(n, m - 1, host, max);
      RunAppend(Start(n), Opens(m - 1, host), [Get(m - 1, host), OpenOk(m - 1)], max);
      RunTwo(Run(Start(n), Opens(m - 1, host), max), Get(m - 1, host), OpenOk(m - 1), max);
    }
  }

  lemma {:induction false} ReturnsAll(s: State, n: nat, k: nat, m: nat, host: Host, max: nat)
    requires AllOpen(s, n, 0, m, host) && k <= m && k <= max
    ensures AllOpen(Run(s, Returns(k), max), n, k, m, host)
  {
    if k > 0 {
      var t := Run(s, Returns(k - 1), max);
      ReturnsAll(s, n, k - 1, m, host, max);
      RunAppend(s, Returns(k - 1), [ReturnCheck(k - 1), ReturnSend(k - 1)], max);
      RunTwo(t, ReturnCheck(k - 1), ReturnSend(k - 1), max);
      OneReturns(t, n, k - 1, m, host, max);
    }
  }

  lemma OneReturns(t: State, n: nat, k: nat, m: nat, host: Host, max: nat)
    requires AllOpen(t, n, k, m, host) && k < m && k < max
    ensures AllOpen(Do(Do(t, ReturnCheck(k), max), ReturnSend(k), max), n, k + 1, m, host)
  {}

  // With one more worker than the channel has room for: all open a connection at once, and when all
  // return theirs the last one waits.
  function BlockingRun(max: nat, host: Host): seq<Event> {
    Opens(max + 1, host) + Returns(max) + [ReturnCheck(max)]
  }

  lemma TooManyBlock(n: nat, max: nat, host: Host)
    requires n > max
    ensures Blocked(Run(Start(n), BlockingRun(max, host), max), max)
  {
    var opens, gives := Opens(max + 1, host), Returns(max);
    OpensAll(n, max + 1, host, max);
    var s := Run(Start(n), opens, max);
    ReturnsAll(s, n, max, max + 1, host, max);
    var t := Run(s, gives, max);
    RunAppend(Start(n), opens, gives, max);
    RunAppend(Start(n), opens + gives, [ReturnCheck(max)], max);
    assert Run(t, [ReturnCheck(max)], max) == Do(t, ReturnCheck(max), max);
    assert Do(t, ReturnCheck(max), max).workers[max] == Returning(host, max);
  }

  // The channel of every host in use has been made.
  predicate Made(s: State) {
    forall w :: 0 <= w < |s.workers| && !s.workers[w].Ready? ==> s.workers[w].host in s.idle
  }

  lemma {:induction false} HostsKnown(s: State, es: seq<Event>, max: nat)
    requires Made(s)
    ensures Made(Run(s, es, max))
    decreases |es|
  {
    if es != [] { HostsKnown(Do(s, es[0], max), es[1..], max); }
  }

  ghost predicate BlocksIn(n: nat, es: seq<Event>, max: nat) { Blocked(Run(Start(n), es, max), max) }

  // Returning a connection never blocks, in any run, if and only if there are no more workers than
  // the pool may hold connections.
  lemma ReturnNeverBlocksIff(n: nat, max: nat)
    ensures (forall es :: !BlocksIn(n, es, max)) <==> n <= max
  {
    if n <= max {
      forall es ensures !BlocksIn(n, es, max) {
        var t := Run(Start(n), es, max);
        PoolCapacity(n, es, max);
        HostsKnown(Start(n), es, max);
        forall w | 0 <= w < |t.workers| && t.workers[w].Returning? ensures !Full(t, t.workers[w].host, max) {
          UserCounts(t.workers, w, t.workers[w].host);
        }
      }
    } else {
      TooManyBlock(n, max, "");
      assert BlocksIn(n, BlockingRun(max, ""), max);
    }
  }

  // ---------------------------------------------------------------- ownership

  predicate Has(pc: PC) { pc.Took? || pc.Holding? || pc.Returning? }

  // An owned connection goes to its owner's host, and unless the network has failed it is open.
  predicate Usable(s: State, c: nat, h: Host) {
    c < |s.conns| && Sound(s.conns[c], h)
  }

  predicate Sound(c: Conn, h: Host) { c.host == h && !c.doomed && (c.canceled ==> c.failed) }

  ghost predicate IdleOwn(s: State) {
    (forall h, i :: 0 <= i < |Idle(s, h)| ==> Usable(s, Idle(s, h)[i], h))
    && forall h, i, j :: 0 <= i < j < |Idle(s, h)| ==> Idle(s, h)[i] != Idle(s, h)[j]
  }

  ghost predicate WorkersOwn(s: State) {
    (forall w :: 0 <= w < |s.workers| && Has(s.workers[w]) ==>
      Usable(s, s.workers[w].conn, s.workers[w].host)
      && s.workers[w].conn !in Idle(s, s.workers[w].host))
    && forall v, w :: 0 <= v < w < |s.workers| && Has(s.workers[v]) && Has(s.workers[w]) ==>
      s.workers[v].conn != s.workers[w].conn
  }

  // Every connection has at most one owner: a place in the channel of its host, or a worker.
  ghost predicate Owned(s: State) { IdleOwn(s) && WorkersOwn(s) }

  ghost predicate Unowned(s: State, c: nat) {
    (forall h, i :: 0 <= i < |Idle(s, h)| ==> Idle(s, h)[i] != c)
    && forall w :: 0 <= w < |s.workers| && Has(s.workers[w]) ==> s.workers[w].conn != c
  }

  lemma Released(s: State, w: nat, pc: PC)
    requires Owned(s) && w < |s.workers| && !Has(pc)
    ensures Owned(SetPC(s, w, pc))
    ensures Has(s.workers[w]) ==> Unowned(SetPC(s, w, pc), s.workers[w].conn)
  {
    var t := SetPC(s, w, pc);
    assert forall h :: Idle(t, h) == Idle(s, h);
    if Has(s.workers[w]) {
      var c := s.workers[w].conn;
      forall h, i | 0 <= i < |Idle(t, h)| ensures Idle(t, h)[i] != c {
        assert Usable(s, Idle(s, h)[i], h) && Usable(s, c, s.workers[w].host);
        assert Idle(s, h)[i] in Idle(s, h);
      }
    }
  }

  lemma Kept(s: State, w: nat, pc: PC)
    requires Owned(s) && w < |s.workers| && Has(s.workers[w]) && Has(pc)
    requires pc.host == s.workers[w].host && pc.conn == s.workers[w].conn
    ensures Owned(SetPC(s, w, pc))
  {
    assert forall h :: Idle(SetPC(s, w, pc), h) == Idle(s, h);
  }

  lemma ConnSet(s: State, c: nat, conn: Conn)
    requires Owned(s) && c < |s.conns|
    requires Unowned(s, c) || (forall h :: Sound(s.conns[c], h) ==> Sound(conn, h))
    ensures Owned(s.(conns := s.conns[c := conn]))
  {
    var t := s.(conns := s.conns[c := conn]);
    assert forall h :: Idle(t, h) == Idle(s, h);
  }

  lemma Opened(s: State, w: nat, h: Host)
    requires Owned(s) && w < |s.workers|
    ensures Owned(SetPC(s, w, Holding(h, |s.conns|)).(conns := s.conns + [Conn(h, false, false, false)]))
  {
    var t := SetPC(s, w, Holding(h, |s.conns|)).(conns := s.conns + [Conn(h, false, false, false)]);
    assert forall g :: Idle(t, g) == Idle(s, g);
    forall g, i | 0 <= i < |Idle(t, g)| ensures Idle(t, g)[i] != |s.conns| {
      assert Usable(s, Idle(s, g)[i], g);
    }
  }

  lemma TookFront(s: State, w: nat, h: Host)
    requires Owned(s) && w < |s.workers| && Idle(s, h) != []
    ensures Owned(SetPC(s, w, Took(h, Idle(s, h)[0])).(idle := s.idle[h := Idle(s, h)[1..]]))
  {
    var t, c := SetPC(s, w, Took(h, Idle(s, h)[0])).(idle := s.idle[h := Idle(s, h)[1..]]), Idle(s, h)[0];
    assert forall g :: Idle(t, g) == if g == h then Idle(s, h)[1..] else Idle(s, g);
    FrontIsUnique(s, h);
  }

  lemma FrontIsUnique(s: State, h: Host)
    requires Owned(s) && Idle(s, h) != []
    ensures Idle(s, h)[0] !in Idle(s, h)[1..] && Usable(s, Idle(s, h)[0], h)
    ensures forall w :: 0 <= w < |s.workers| && Has(s.workers[w]) ==> s.workers[w].conn != Idle(s, h)[0]
  {}

  lemma MadeIdle(s: State, c: nat, h: Host)
    requires Owned(s) && Unowned(s, c) && Usable(s, c, h)
    ensures Owned(s.(idle := s.idle[h := Idle(s, h) + [c]]))
  {
    var t := s.(idle := s.idle[h := Idle(s, h) + [c]]);
    assert forall g :: Idle(t, g) == if g == h then Idle(s, h) + [c] else Idle(s, g);
    IdleOwnMade(s, t, c, h);
    WorkersOwnMade(s, t, c, h);
  }

  lemma IdleOwnMade(s: State, t: State, c: nat, h: Host)
    requires IdleOwn(s) && Unowned(s, c) && Usable(s, c, h) && t.conns == s.conns
    requires forall g :: Idle(t, g) == if g == h then Idle(s, h) + [c] else Idle(s, g)
    ensures IdleOwn(t)
  {}

  lemma WorkersOwnMade(s: State, t: State, c: nat, h: Host)
    requires WorkersOwn(s) && Unowned(s, c) && t.conns == s.conns && t.workers == s.workers
    requires forall g :: Idle(t, g) == if g == h then Idle(s, h) + [c] else Idle(s, g)
    ensures WorkersOwn(t)
  {}

  lemma Returned(s: State, w: nat)
    requires Owned(s) && w < |s.workers| && Has(s.workers[w])
    ensures var h, c := s.workers[w].host, s.workers[w].conn;
            Owned(SetPC(s, w, Ready).(idle := s.idle[h := Idle(s, h) + [c]]))
  {
    var h, c, t := s.workers[w].host, s.workers[w].conn, SetPC(s, w, Ready);
    Released(s, w, Ready);
    assert Usable(t, c, h) && Idle(t, h) == Idle(s, h);
    MadeIdle(t, c, h);
  }

  lemma OwnedKept(s: State, e: Event, max: nat)
    requires Owned(s)
    ensures Owned(Do(s, e, max))
  {
    match e
    case CloseRuns(c) =>
      if c < |s.conns| && s.conns[c].doomed { ConnSet(s, c, s.conns[c].(canceled := true)); }
    case NetFail(c) =>
      if c < |s.conns| { ConnSet(s, c, s.conns[c].(failed := true, canceled := true)); }
    case _ =>
      if e.w < |s.workers| { OwnedKeptBy(s, e.w, e, max); }
  }

  lemma OwnedKeptBy(s: State, w: nat, e: Event, max: nat)
    requires Owned(s) && w < |s.workers|
    ensures Owned(StepOf(s, w, e, max))
  {
    var pc := s.workers[w];
    if e.Get? && pc.Ready? {
      if Idle(s, e.host) == [] { GetMissed(s, w, e.host); } else { TookFront(s, w, e.host); }
    } else if e.Check? && pc.Took? && pc.conn < |s.conns| {
      if s.conns[pc.conn].failed { Released(s, w, Opening(pc.host)); } else { Kept(s, w, Holding(pc.host, pc.conn)); }
    } else if e.OpenOk? && pc.Opening? {
      Opened(s, w, pc.host);
    } else if (e.OpenFail? && pc.Opening?) || (e.Abandon? && pc.Holding?) {
      Released(s, w, Ready);
    } else if e.Close? && pc.Holding? && pc.conn < |s.conns| {
      Released(s, w, Ready);
      ConnSet(SetPC(s, w, Ready), pc.conn, s.conns[pc.conn].(doomed := true));
    } else if e.ReturnCheck? && pc.Holding? && pc.conn < |s.conns| {
      if s.conns[pc.conn].canceled { Released(s, w, Ready); } else { Kept(s, w, Returning(pc.host, pc.conn)); }
    } else if e.ReturnSend? && pc.Returning? && !Full(s, pc.host, max) {
      Returned(s, w);
    }
  }

  lemma GetMissed(s: State, w: nat, h: Host)
    requires Owned(s) && w < |s.workers| && Idle(s, h) == []
    ensures Owned(SetPC(s, w, Opening(h)).(idle := s.idle[h := []]))
  {
    Released(s, w, Opening(h));
    var t := SetPC(s, w, Opening(h)).(idle := s.idle[h := []]);
    assert forall g :: Idle(t, g) == Idle(s, g);
  }

  lemma {:induction false} OwnedInRun(s: State, es: seq<Event>, max: nat)
    requires Owned(s)
    ensures Owned(Run(s, es, max))
    decreases |es|
  {
    if es != [] {
      OwnedKept(s, es[0], max);
      OwnedInRun(Do(s, es[0], max), es[1..], max);
    }
  }

  // In every run each connection has at most one owner, under its own host.
  lemma OneOwner(n: nat, es: seq<Event>, max: nat)
    ensures Owned(Run(Start(n), es, max))
  {
    OwnedInRun(Start(n), es, max);
  }

  // A connection that is reused is open, goes to the host asked for, and is nobody else's.
  lemma ReusedIsOpen(n: nat, es: seq<Event>, max: nat, w: nat)
    requires var t := Run(Start(n), es, max); w < |t.workers| && t.workers[w].Took?
    ensures var t, u := Run(Start(n), es, max), Do(Run(Start(n), es, max), Check(w), max);
            u.workers[w].Holding? ==>
              var c := u.workers[w].conn;
              c < |u.conns| && u.conns[c] == Conn(t.workers[w].host, false, false, false)
              && (forall h :: c !in Idle(u, h))
              && forall v :: 0 <= v < |u.workers| && v != w && Has(u.workers[v]) ==> u.workers[v].conn != c
  {
    var t := Run(Start(n), es, max);
    OneOwner(n, es, max);
    var u := Do(t, Check(w), max);
    OwnedKept(t, Check(w), max);
    if u.workers[w].Holding? {
      var c := u.workers[w].conn;
      assert Usable(u, c, u.workers[w].host);
      Released(u, w, Ready);
      forall h ensures c !in Idle(u, h) { assert Idle(SetPC(u, w, Ready), h) == Idle(u, h); }
    }
  }

  // ---------------------------------------------------------------- what becomes of a request

  // A connection to this host has been asked for and is not there yet.
  predicate Asking(pc: PC, h: Host) { (pc.Took? || pc.Opening?) && pc.host == h }

  // Whatever happens, whoever asks for a connection goes on asking for it until it holds one to that host,
  // or until opening one fails.
  lemma AskedUntilHeld(s: State, e: Event, max: nat, w: nat, h: Host)
    requires w < |s.workers| && Asking(s.workers[w], h)
    ensures var t := Do(s, e, max);
            w < |t.workers|
            && (Asking(t.workers[w], h) || (t.workers[w].Holding? && t.workers[w].host == h)
                || (e == OpenFail(w) && t.workers[w] == Ready))
  {}

  // A connection from the channel is held if it has not failed; otherwise a new one is opened.
  lemma FailedIsReplaced(n: nat, es: seq<Event>, max: nat, w: nat)
    requires var t := Run(Start(n), es, max); w < |t.workers| && t.workers[w].Took?
    ensures var t := Run(Start(n), es, max);
            var h, c, u := t.workers[w].host, t.workers[w].conn, Do(t, Check(w), max);
            c < |t.conns|
            && if t.conns[c].failed then
                 var v := Do(u, OpenOk(w), max);
                 v.workers[w] == Holding(h, |t.conns|) && v.conns == t.conns + [Conn(h, false, false, false)]
               else u.workers[w] == Holding(h, c)
  {
    OneOwner(n, es, max);
    var t := Run(Start(n), es, max);
    assert Usable(t, t.workers[w].conn, t.workers[w].host);
  }

  // Without an idle connection one is opened as well.
  lemma NothingIdle(s: State, w: nat, h: Host, max: nat)
    requires w < |s.workers| && s.workers[w].Ready? && Idle(s, h) == []
    ensures var u := Do(Do(s, Event.Get(w, h), max), OpenOk(w), max);
            u.workers[w] == Holding(h, |s.conns|) && u.conns == s.conns + [Conn(h, false, false, false)]
  {}

  // A connection that is given back joins the end of its channel, if there is room, exactly if it is not
  // canceled; the worker is ready again.
  lemma GivenBackUnlessCanceled(n: nat, es: seq<Event>, max: nat, w: nat)
    requires var t := Run(Start(n), es, max); w < |t.workers| && t.workers[w].Holding?
    ensures var t := Run(Start(n), es, max);
            var h, c, u := t.workers[w].host, t.workers[w].conn, Do(Do(t, ReturnCheck(w), max), ReturnSend(w), max);
            c < |t.conns|
            && (t.conns[c].canceled ==> u.workers[w] == Ready && forall g :: Idle(u, g) == Idle(t, g))
            && (!t.conns[c].canceled && |Idle(t, h)| < max ==>
                  u.workers[w] == Ready && Idle(u, h) == Idle(t, h) + [c]
                  && forall g :: g != h ==> Idle(u, g) == Idle(t, g))
  {
    OneOwner(n, es, max);
    HostsKnown(Start(n), es, max);
    var t := Run(Start(n), es, max);
    assert Usable(t, t.workers[w].conn, t.workers[w].host);
  }
}
