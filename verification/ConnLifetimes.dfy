/** What becomes of a connection: from the moment it is idle, or dropped, or told to close, over every run. */
module ConnLifetimes {
  import opened ConnPool

  // A connection asked for: the one that has been idle longest if it is still open, else a new one, or none if
  // it cannot be opened; the others stay idle in their order.
  lemma LongestIdleOrNew(n: nat, es: seq<Event>, max: nat, w: nat, h: Host)
    requires var t := Run(Start(n), es, max); w < |t.workers| && t.workers[w].Ready? && Idle(t, h) != []
    ensures var t := Run(Start(n), es, max);
            var c, u := Idle(t, h)[0], Do(Do(t, Event.Get(w, h), max), Check(w), max);
            c < |t.conns| && u.conns == t.conns && Idle(u, h) == Idle(t, h)[1..]
            && (forall g :: g != h ==> Idle(u, g) == Idle(t, g))
            && if !t.conns[c].failed then u.workers == t.workers[w := Holding(h, c)]
               else
                 var v := Do(u, OpenOk(w), max);
                 u.workers == t.workers[w := Opening(h)] && v.workers == t.workers[w := Holding(h, |t.conns|)]
                 && v.conns == t.conns + [Conn(h, false, false, false)] && v.idle == u.idle
                 && Do(u, OpenFail(w), max) == u.(workers := t.workers)
  {
    OneOwner(n, es, max);
    var t := Run(Start(n), es, max);
    assert Usable(t, Idle(t, h)[0], h);
    TookAndChecked(t, w, h, max);
    assert t.workers[w := Opening(h)][w := Ready] == t.workers;
  }

  lemma TookAndChecked(t: State, w: nat, h: Host, max: nat)
    requires w < |t.workers| && t.workers[w].Ready? && Idle(t, h) != [] && Idle(t, h)[0] < |t.conns|
    ensures var c, u := Idle(t, h)[0], Do(Do(t, Event.Get(w, h), max), Check(w), max);
            u == SetPC(t, w, if t.conns[c].failed then Opening(h) else Holding(h, c)).(
                   idle := t.idle[h := Idle(t, h)[1..]])
  {
    var c, u := Idle(t, h)[0], Do(t, Event.Get(w, h), max);
    assert u == SetPC(t, w, Took(h, c)).(idle := t.idle[h := Idle(t, h)[1..]]);
    var pc := if t.conns[c].failed then Opening(h) else Holding(h, c);
    assert t.workers[w := Took(h, c)][w := pc] == t.workers[w := pc];
  }

  // The network failing makes a connection canceled: one in hand is not given back, and one that is idle is not
  // used, but replaced.
  lemma FailedIsNotReturned(n: nat, es: seq<Event>, max: nat, w: nat)
    requires var t := Run(Start(n), es, max); w < |t.workers| && t.workers[w].Holding?
    ensures var t := Run(Start(n), es, max);
            var c := t.workers[w].conn;
            var u := Do(Do(t, NetFail(c), max), ReturnCheck(w), max);
            c < |u.conns| && u.conns[c].failed && u.workers == t.workers[w := Ready] && u.idle == t.idle
            && Unowned(u, c)
  {
    OneOwner(n, es, max);
    var t := Run(Start(n), es, max);
    var c := t.workers[w].conn;
    assert Usable(t, c, t.workers[w].host);
    OwnedKept(t, NetFail(c), max);
    Released(Do(t, NetFail(c), max), w, Ready);
  }

  // ---------------------------------------------------------------- dropped for good

  lemma UnownedStays(s: State, e: Event, max: nat, c: nat)
    requires Unowned(s, c) && c < |s.conns|
    ensures Unowned(Do(s, e, max), c) && c < |Do(s, e, max).conns|
  {
    var t := Do(s, e, max);
    if !e.CloseRuns? && !e.NetFail? && e.w < |s.workers| {
      if e.Get? && s.workers[e.w].Ready? { UnownedGet(s, e.w, e.host, max, c); }
      else if e.ReturnSend? && s.workers[e.w].Returning? && !Full(s, s.workers[e.w].host, max) {
        UnownedReturn(s, e.w, max, c);
      } else {
        assert forall h :: Idle(t, h) == Idle(s, h);
      }
    } else {
      assert forall h :: Idle(t, h) == Idle(s, h);
    }
  }

  lemma UnownedGet(s: State, w: nat, h: Host, max: nat, c: nat)
    requires Unowned(s, c) && w < |s.workers| && s.workers[w].Ready?
    ensures Unowned(Do(s, Event.Get(w, h), max), c)
  {
    var t := Do(s, Event.Get(w, h), max);
    forall g, i | 0 <= i < |Idle(t, g)| ensures Idle(t, g)[i] != c {
      if g == h { assert Idle(s, h)[i + 1] != c; } else { assert Idle(t, g) == Idle(s, g); }
    }
  }

  lemma UnownedReturn(s: State, w: nat, max: nat, c: nat)
    requires Unowned(s, c) && w < |s.workers| && s.workers[w].Returning? && !Full(s, s.workers[w].host, max)
    ensures Unowned(Do(s, ReturnSend(w), max), c)
  {
    var t, h := Do(s, ReturnSend(w), max), s.workers[w].host;
    assert forall g :: Idle(t, g) == if g == h then Idle(s, h) + [s.workers[w].conn] else Idle(s, g);
  }

  // A connection that nobody owns is never owned again.
  lemma {:induction false} NeverOwnedAgain(s: State, es: seq<Event>, max: nat, c: nat)
    requires Unowned(s, c) && c < |s.conns|
    ensures Unowned(Run(s, es, max), c) && c < |Run(s, es, max).conns|
    decreases |es|
  {
    if es != [] {
      UnownedStays(s, es[0], max, c);
      NeverOwnedAgain(Do(s, es[0], max), es[1..], max, c);
    }
  }

  // A connection dropped on an error makes its worker ready, and is never used again, in any run.
  lemma DroppedForGood(n: nat, es: seq<Event>, max: nat, w: nat, more: seq<Event>)
    requires var t := Run(Start(n), es, max); w < |t.workers| && t.workers[w].Holding?
    ensures var t := Run(Start(n), es, max);
            var u := Do(t, Abandon(w), max);
            u.workers == t.workers[w := Ready] && u.idle == t.idle && Unowned(Run(u, more, max), t.workers[w].conn)
  {
    OneOwner(n, es, max);
    var t := Run(Start(n), es, max);
    var c := t.workers[w].conn;
    assert Usable(t, c, t.workers[w].host);
    Released(t, w, Ready);
    NeverOwnedAgain(Do(t, Abandon(w), max), more, max, c);
  }

  lemma DoomedStays(s: State, e: Event, max: nat, c: nat)
    requires c < |s.conns| && s.conns[c].doomed
    ensures c < |Do(s, e, max).conns| && Do(s, e, max).conns[c].doomed
            && (s.conns[c].canceled ==> Do(s, e, max).conns[c].canceled)
  {}

  lemma {:induction false} DoomedInRun(s: State, es: seq<Event>, max: nat, c: nat)
    requires c < |s.conns| && s.conns[c].doomed
    ensures c < |Run(s, es, max).conns| && Run(s, es, max).conns[c].doomed
    decreases |es|
  {
    if es != [] {
      DoomedStays(s, es[0], max, c);
      DoomedInRun(Do(s, es[0], max), es[1..], max, c);
    }
  }

  // A connection that one side wants closed makes its worker ready and is never used again, in any run; at
  // every later moment the goroutine that closes it can run, and has it canceled then.
  lemma ClosedForGood(n: nat, es: seq<Event>, max: nat, w: nat, more: seq<Event>)
    requires var t := Run(Start(n), es, max); w < |t.workers| && t.workers[w].Holding?
    ensures var t := Run(Start(n), es, max);
            var c, u := t.workers[w].conn, Do(t, Close(w), max);
            var v := Run(u, more, max);
            u.workers == t.workers[w := Ready] && u.idle == t.idle && Unowned(v, c)
            && c < |v.conns| && Do(v, CloseRuns(c), max).conns == v.conns[c := v.conns[c].(canceled := true)]
  {
    OneOwner(n, es, max);
    var t := Run(Start(n), es, max);
    var c, u := t.workers[w].conn, Do(t, Close(w), max);
    assert Usable(t, c, t.workers[w].host);
    Released(t, w, Ready);
    assert forall h :: Idle(u, h) == Idle(SetPC(t, w, Ready), h);
    NeverOwnedAgain(u, more, max, c);
    DoomedInRun(u, more, max, c);
  }
}
