/** That the input goes round and round: from every moment of every run, every record is made again, and every
    worker comes to the end of its replacements. */
module InputProgress {
  import opened RegexCache
  import opened InputOrder

  // ---------------------------------------------------------------- a worker

  predicate Missing(pc: PC) { pc.Missed? }

  function WorkLeft(s: InputOrder.State, w: nat): nat
    requires w < |s.jobs| && |s.readers| + w < |s.uses.pcs|
  {
    if Idles(s.jobs[w]) then 0 else 2 * |s.jobs[w].left| - (if Missing(s.uses.pcs[|s.readers| + w]) then 1 else 0)
  }

  // Worker w has gone on, and nobody else.
  ghost predicate WorkedOn(s: InputOrder.State, u: InputOrder.State, w: nat) {
    u.readers == s.readers && u.made == s.made
    && w < |s.jobs| == |u.jobs| && u.jobs == s.jobs[w := u.jobs[w]]
  }

  ghost predicate GoneOn(s: InputOrder.State, u: InputOrder.State, w: nat)
    requires w < |s.jobs| && |s.readers| + w < |s.uses.pcs|
  {
    WorkedOn(s, u, w) && |u.uses.pcs| == |s.uses.pcs| && WorkLeft(u, w) < WorkLeft(s, w)
  }

  lemma WorkerHasLooked(s: InputOrder.State, w: nat, c: Config, compiles: Compiler)
    requires Sound(s, c, compiles) && NamesCompile(c, compiles) && w < |s.jobs| && !Idles(s.jobs[w])
    requires !Missing(s.uses.pcs[|s.readers| + w])
    ensures var u := InputOrder.Do(s, WorkerLook(w), c, compiles);
            GoneOn(s, u, w)
  {
    WorkerLooks(s, w, c, compiles);
    assert s.jobs[w := s.jobs[w]] == s.jobs;
    assert WorkerOk(s.jobs[w], s.uses.pcs[|s.readers| + w], c, compiles);
  }

  lemma WorkerHasKept(s: InputOrder.State, w: nat, c: Config, compiles: Compiler)
    requires Sound(s, c, compiles) && w < |s.jobs| && !Idles(s.jobs[w])
    requires Missing(s.uses.pcs[|s.readers| + w])
    ensures var u := InputOrder.Do(s, WorkerKeep(w), c, compiles);
            GoneOn(s, u, w)
  {}

  lemma WorkerGoesOn(s: InputOrder.State, w: nat, c: Config, compiles: Compiler) returns (e: InputOrder.Event)
    requires Sound(s, c, compiles) && NamesCompile(c, compiles) && w < |s.jobs| && !Idles(s.jobs[w])
    ensures GoneOn(s, InputOrder.Do(s, e, c, compiles), w)
  {
    if Missing(s.uses.pcs[|s.readers| + w]) {
      WorkerHasKept(s, w, c, compiles);
      e := WorkerKeep(w);
    } else {
      WorkerHasLooked(s, w, c, compiles);
      e := WorkerLook(w);
    }
  }

  // Left alone, a worker replaces all that is left of its record.
  lemma {:induction false} WorkerEnds(s: InputOrder.State, w: nat, c: Config, compiles: Compiler)
    returns (es: seq<InputOrder.Event>)
    requires Sound(s, c, compiles) && NamesCompile(c, compiles) && w < |s.jobs|
    ensures var u := InputOrder.Run(s, es, c, compiles);
            Sound(u, c, compiles) && WorkedOn(s, u, w) && Idles(u.jobs[w])
    decreases WorkLeft(s, w)
  {
    if Idles(s.jobs[w]) {
      es := [];
    } else {
      var e := WorkerGoesOn(s, w, c, compiles);
      SoundStep(s, e, c, compiles);
      var more := WorkerEnds(InputOrder.Do(s, e, c, compiles), w, c, compiles);
      es := [e] + more;
      assert es[0] == e && es[1..] == more;
    }
  }

  // ---------------------------------------------------------------- a reader

  function ReadLeft(s: InputOrder.State, t: nat, c: Config): nat
    requires t < |s.readers| && t < |s.uses.pcs|
  {
    if !Decodes(s.readers[t], c) then 0
    else 2 * (|c.tasks[s.readers[t].record].exprs| - |s.readers[t].given|) - (if Missing(s.uses.pcs[t]) then 1 else 0)
  }

  function ReadStep(s: InputOrder.State, t: nat): InputOrder.Event
    requires t < |s.uses.pcs|
  {
    if Missing(s.uses.pcs[t]) then ReaderKeep(t) else ReaderLook(t)
  }

  predicate EndsWith(made: seq<Made>, i: nat) { made != [] && made[|made| - 1].record == i }

  // The reader has made its record and goes on with the next.
  ghost predicate MadeOne(s: InputOrder.State, u: InputOrder.State, t: nat)
    requires t < |s.readers|
  {
    |u.readers| == |s.readers| && u.readers[t] == Reader(s.readers[t].passes, s.readers[t].record + 1, [])
    && s.made < u.made && EndsWith(u.made, s.readers[t].record)
  }

  // The reader is still at its record.
  ghost predicate SameRecord(s: InputOrder.State, u: InputOrder.State, t: nat)
    requires t < |s.readers|
  {
    |u.readers| == |s.readers| && u.made == s.made && u.readers[t] == s.readers[t].(given := u.readers[t].given)
  }

  lemma ReaderGoesOn(s: InputOrder.State, t: nat, c: Config, compiles: Compiler)
    requires Sound(s, c, compiles) && t < |s.readers| && Decodes(s.readers[t], c)
    ensures var u := InputOrder.Do(s, ReadStep(s, t), c, compiles);
            u.jobs == s.jobs && |u.uses.pcs| == |s.uses.pcs|
            && (MadeOne(s, u, t) || (SameRecord(s, u, t) && ReadLeft(u, t, c) < ReadLeft(s, t, c)))
  {
    assert ReaderOk(s.readers[t], s.uses.pcs[t], c, compiles);
  }

  lemma {:induction false} ReaderDecodes(s: InputOrder.State, t: nat, c: Config, compiles: Compiler)
    returns (es: seq<InputOrder.Event>)
    requires Sound(s, c, compiles) && NamesCompile(c, compiles) && t < |s.readers| && s.readers[t].record < |c.tasks|
    requires c.tasks[s.readers[t].record].Task?
    ensures var u := InputOrder.Run(s, es, c, compiles);
            Sound(u, c, compiles) && u.jobs == s.jobs
            && (MadeOne(s, u, t) || (SameRecord(s, u, t) && Complete(u.readers[t], c)))
    decreases ReadLeft(s, t, c)
  {
    if !Decodes(s.readers[t], c) {
      assert ReaderOk(s.readers[t], s.uses.pcs[t], c, compiles);
      es := [];
    } else {
      var e := ReadStep(s, t);
      var u := InputOrder.Do(s, e, c, compiles);
      ReaderGoesOn(s, t, c, compiles);
      SoundStep(s, e, c, compiles);
      var more := [];
      if !MadeOne(s, u, t) { more := ReaderDecodes(u, t, c, compiles); }
      es := [e] + more;
      assert es[0] == e && es[1..] == more;
    }
  }

  lemma RunOne(s: InputOrder.State, e: InputOrder.Event, c: Config, compiles: Compiler)
    ensures InputOrder.Run(s, [e], c, compiles) == InputOrder.Do(s, e, c, compiles)
  {
    assert InputOrder.Run(s, [e], c, compiles) == InputOrder.Run(InputOrder.Do(s, e, c, compiles), [], c, compiles);
  }

  // A worker to send to.
  function WorkerFor(t: nat, c: Config): nat { if c.own then t else 0 }

  lemma SendsComplete(s: InputOrder.State, t: nat, c: Config, compiles: Compiler) returns (es: seq<InputOrder.Event>)
    requires Sound(s, c, compiles) && NamesCompile(c, compiles) && t < |s.readers| && c.workers > 0
    requires Complete(s.readers[t], c)
    ensures var u := InputOrder.Run(s, es, c, compiles);
            Sound(u, c, compiles) && MadeOne(s, u, t)
            && u.made == s.made + [Made(s.readers[t].record, s.readers[t].given)]
            && u.jobs[WorkerFor(t, c)] == Job(s.readers[t].record, c.tasks[s.readers[t].record].names)
  {
    var w := WorkerFor(t, c);
    var first := WorkerEnds(s, w, c, compiles);
    var u := InputOrder.Run(s, first, c, compiles);
    RunOne(u, Send(t, w), c, compiles);
    InputOrder.RunAppend(s, first, [Send(t, w)], c, compiles);
    SoundStep(u, Send(t, w), c, compiles);
    es := first + [Send(t, w)];
  }

  // From wherever it stands, a reader can make its record: send it, or report it as bad.
  lemma RecordIsMade(s: InputOrder.State, t: nat, c: Config, compiles: Compiler) returns (es: seq<InputOrder.Event>)
    requires Sound(s, c, compiles) && NamesCompile(c, compiles) && t < |s.readers| && c.workers > 0
    requires s.readers[t].record < |c.tasks|
    ensures var u := InputOrder.Run(s, es, c, compiles); Sound(u, c, compiles) && MadeOne(s, u, t)
  {
    if c.tasks[s.readers[t].record].Refused? {
      es := [ReaderLook(t)];
      RunOne(s, ReaderLook(t), c, compiles);
      SoundStep(s, ReaderLook(t), c, compiles);
    } else {
      es := ReaderDecodes(s, t, c, compiles);
      var u := InputOrder.Run(s, es, c, compiles);
      if !MadeOne(s, u, t) {
        var more := SendsComplete(u, t, c, compiles);
        InputOrder.RunAppend(s, es, more, c, compiles);
        es := es + more;
      }
    }
  }

  // The reader has come to record i in the same pass, having made those before it.
  ghost predicate CameTo(s: InputOrder.State, u: InputOrder.State, t: nat, i: nat)
    requires t < |s.readers|
  {
    |u.readers| == |s.readers| && u.readers[t].record == i && u.readers[t].passes == s.readers[t].passes
    && s.made <= u.made
    && (s.readers[t].record < i ==> s.made < u.made && EndsWith(u.made, i - 1) && u.readers[t].given == [])
    && (s.readers[t].record == i ==> u == s)
  }

  lemma CameOneOn(s: InputOrder.State, s1: InputOrder.State, u: InputOrder.State, t: nat, i: nat)
    requires t < |s.readers| && s.readers[t].record < i && MadeOne(s, s1, t) && CameTo(s1, u, t, i)
    ensures CameTo(s, u, t, i)
  {}

  // So it comes to every record that is still before it in its pass.
  lemma {:induction false} ReadsUpTo(s: InputOrder.State, t: nat, i: nat, c: Config, compiles: Compiler)
    returns (es: seq<InputOrder.Event>)
    requires Sound(s, c, compiles) && NamesCompile(c, compiles) && t < |s.readers| && c.workers > 0
    requires s.readers[t].record <= i <= |c.tasks|
    ensures var u := InputOrder.Run(s, es, c, compiles); Sound(u, c, compiles) && CameTo(s, u, t, i)
    decreases i - s.readers[t].record
  {
    if s.readers[t].record == i {
      es := [];
    } else {
      var first := RecordIsMade(s, t, c, compiles);
      var s1 := InputOrder.Run(s, first, c, compiles);
      var more := ReadsUpTo(s1, t, i, c, compiles);
      InputOrder.RunAppend(s, first, more, c, compiles);
      CameOneOn(s, s1, InputOrder.Run(s1, more, c, compiles), t, i);
      es := first + more;
    }
  }

  // At the end of the file it begins again.
  lemma Rewinds(s: InputOrder.State, t: nat, c: Config, compiles: Compiler)
    requires Sound(s, c, compiles) && NamesCompile(c, compiles) && t < |s.readers|
    requires s.readers[t].record == |c.tasks|
    ensures var u := InputOrder.Run(s, [ReaderLook(t)], c, compiles);
            Sound(u, c, compiles) && u.made == s.made && |u.readers| == |s.readers|
            && u.readers[t] == Reader(s.readers[t].passes + 1, 0, [])
  {
    RunOne(s, ReaderLook(t), c, compiles);
    SoundStep(s, ReaderLook(t), c, compiles);
  }

  // Record i has been made once more, in the next pass.
  ghost predicate MadeAgain(s: InputOrder.State, u: InputOrder.State, t: nat, i: nat)
    requires t < |s.readers|
  {
    s.made < u.made && EndsWith(u.made, i)
    && |u.readers| == |s.readers| && u.readers[t] == Reader(s.readers[t].passes + 1, i + 1, [])
  }

  lemma ReadsAgain(s: InputOrder.State, t: nat, i: nat, c: Config, compiles: Compiler)
    returns (es: seq<InputOrder.Event>)
    requires Sound(s, c, compiles) && NamesCompile(c, compiles) && t < |s.readers| && c.workers > 0
    requires s.readers[t].record <= |c.tasks| && i < |c.tasks|
    ensures var u := InputOrder.Run(s, es, c, compiles); Sound(u, c, compiles) && MadeAgain(s, u, t, i)
  {
    var first := ReadsUpTo(s, t, |c.tasks|, c, compiles);
    var s1 := InputOrder.Run(s, first, c, compiles);
    Rewinds(s1, t, c, compiles);
    var s2 := InputOrder.Run(s1, [ReaderLook(t)], c, compiles);
    var more := ReadsUpTo(s2, t, i + 1, c, compiles);
    InputOrder.RunAppend(s, first, [ReaderLook(t)], c, compiles);
    InputOrder.RunAppend(s, first + [ReaderLook(t)], more, c, compiles);
    es := first + [ReaderLook(t)] + more;
  }

  // From every moment of every run, every reader comes to every record again, after the end of the file as well:
  // it is sent, or reported as bad, with answers for its expressions up to the first that does not compile.
  lemma EveryRecordAgain(before: seq<InputOrder.Event>, t: nat, i: nat, c: Config, compiles: Compiler)
    returns (es: seq<InputOrder.Event>)
    requires NamesCompile(c, compiles) && c.workers > 0 && t < ReadersOf(c) && i < |c.tasks|
    ensures var s := InputOrder.Run(InputOrder.Start(c), before, c, compiles);
            var u := InputOrder.Run(s, es, c, compiles);
            t < |s.readers| && MadeAgain(s, u, t, i) && MadeOk(u.made[|u.made| - 1], c, compiles)
  {
    var s := InputOrder.Run(InputOrder.Start(c), before, c, compiles);
    SoundFromStart(before, c, compiles);
    assert ReaderOk(s.readers[t], s.uses.pcs[t], c, compiles);
    es := ReadsAgain(s, t, i, c, compiles);
    var u := InputOrder.Run(s, es, c, compiles);
    assert u.made[|u.made| - 1] in u.made;
  }
}
