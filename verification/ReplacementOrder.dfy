/** Exactly when a variable can be replaced with an expression instead of its pattern: the expression has to
    be decoded while every record that refers to the variable is still waiting with its worker. */
module ReplacementOrder {
  import opened Counting
  import opened Prelude
  import opened RegexCache
  import opened InputOrder

  // How many records before i refer to the variable.
  function RefsBefore(c: Config, v: string, i: nat, compiles: Compiler): (n: nat)
    requires i <= |c.tasks|
  {
    if i == 0 then 0 else RefsBefore(c, v, i - 1, compiles) + One(Refers(c.tasks[i - 1], v, compiles))
  }

  lemma {:induction false} RefsGrow(c: Config, v: string, i: nat, j: nat, compiles: Compiler)
    requires i <= j <= |c.tasks|
    ensures RefsBefore(c, v, i, compiles) <= RefsBefore(c, v, j, compiles)
    decreases j
  {
    if i < j { RefsGrow(c, v, i, j - 1, compiles); }
  }

  // No record that is sent lies between the two.
  predicate NoneBetween(c: Config, g: nat, i: nat, compiles: Compiler)
    requires i <= |c.tasks|
  {
    forall j :: g < j < i ==> !Sent(c.tasks[j], compiles)
  }

  predicate LastRefers(c: Config, v: string, f: nat, compiles: Compiler)
    requires f <= |c.tasks|
  {
    exists g :: 0 <= g < f && Refers(c.tasks[g], v, compiles) && NoneBetween(c, g, f, compiles)
  }

  // How many workers can wait with a record of one reader.
  function Waiters(c: Config): nat { if c.own then 1 else c.workers }

  // The reader can come to record f while all the records before it that refer to the variable wait.
  predicate Overtakes(c: Config, v: string, f: nat, compiles: Compiler)
    requires f <= |c.tasks|
  {
    RefsBefore(c, v, f, compiles) < Waiters(c)
    || (RefsBefore(c, v, f, compiles) == Waiters(c) && LastRefers(c, v, f, compiles))
  }

  // ---------------------------------------------------------------- otherwise it never goes wrong

  predicate Holds(j: Job, v: string) { j.Job? && v in j.left }

  function Holding(v: string): Job -> bool { j => Holds(j, v) }

  // The workers a reader sends to.
  function Group(s: InputOrder.State, t: nat, c: Config): seq<Job>
    requires c.own ==> t < |s.jobs|
  {
    if c.own then [s.jobs[t]] else s.jobs
  }

  // The last record the reader has sent is the latest of some worker.
  predicate LastKept(group: seq<Job>, i: nat, c: Config, compiles: Compiler)
    requires i <= |c.tasks|
  {
    forall g :: 0 <= g < i && Sent(c.tasks[g], compiles) && NoneBetween(c, g, i, compiles) ==>
      exists j :: j in group && j.Job? && j.record == g
  }

  // Every record it has sent that refers to the variable still waits.
  predicate AllHeld(group: seq<Job>, v: string, i: nat, c: Config, compiles: Compiler)
    requires i <= |c.tasks|
  {
    LastKept(group, i, c, compiles) && Count(Holding(v), group) == RefsBefore(c, v, i, compiles)
  }

  ghost predicate Safe(s: InputOrder.State, v: string, f: nat, c: Config, compiles: Compiler) {
    Shape(s, c) && KeptFor(s.uses, Replace(v), compiles)
    && (v !in s.uses.cache ==> forall t :: 0 <= t < |s.readers| ==> Behind(s, t, v, f, c, compiles))
  }

  predicate Behind(s: InputOrder.State, t: nat, v: string, f: nat, c: Config, compiles: Compiler)
    requires Shape(s, c) && t < |s.readers|
  {
    s.readers[t].passes == 0 && s.readers[t].record < f <= |c.tasks|
    && AllHeld(Group(s, t, c), v, s.readers[t].record, c, compiles)
  }

  lemma {:induction false} NotAll<T>(p: T -> bool, s: seq<T>, x: T)
    requires x in s && !p(x)
    ensures Count(p, s) < |s|
  {
    if s[0] != x { NotAll(p, s[1..], x); }
  }

  // The last record before i that is sent, from one that is.
  lemma LastSent(c: Config, j: nat, i: nat, compiles: Compiler) returns (g: nat)
    requires j < i <= |c.tasks| && Sent(c.tasks[j], compiles)
    ensures j <= g < i && Sent(c.tasks[g], compiles) && NoneBetween(c, g, i, compiles)
    decreases i
  {
    if j == i - 1 || Sent(c.tasks[i - 1], compiles) {
      g := i - 1;
    } else {
      g := LastSent(c, j, i - 1, compiles);
    }
  }

  lemma {:induction false} SomeRef(c: Config, v: string, i: nat, compiles: Compiler) returns (j: nat)
    requires i <= |c.tasks| && RefsBefore(c, v, i, compiles) > 0
    ensures j < i && Refers(c.tasks[j], v, compiles)
  {
    if Refers(c.tasks[i - 1], v, compiles) { j := i - 1; } else { j := SomeRef(c, v, i - 1, compiles); }
  }

  predicate JobOk(j: Job, c: Config, compiles: Compiler) {
    j.Job? ==>
      j.record < |c.tasks| && Sent(c.tasks[j.record], compiles)
      && forall n :: n in j.left ==> n in c.tasks[j.record].names
  }

  lemma SomeoneDoesNotHold(group: seq<Job>, v: string, f: nat, c: Config, compiles: Compiler)
    requires f <= |c.tasks| && RefsBefore(c, v, f, compiles) > 0 && !LastRefers(c, v, f, compiles)
    requires LastKept(group, f, c, compiles) && forall j :: j in group ==> JobOk(j, c, compiles)
    ensures Count(Holding(v), group) < |group|
  {
    var r := SomeRef(c, v, f, compiles);
    var g := LastSent(c, r, f, compiles);
    var j :| j in group && j.Job? && j.record == g;
    assert !Refers(c.tasks[g], v, compiles);
    NotAll(Holding(v), group, j);
  }

  // So many cannot wait at once.
  lemma CannotAllWait(group: seq<Job>, v: string, f: nat, c: Config, compiles: Compiler)
    requires f <= |c.tasks| && !Overtakes(c, v, f, compiles) && |group| == Waiters(c) > 0
    requires forall j :: j in group ==> JobOk(j, c, compiles)
    ensures !AllHeld(group, v, f, c, compiles)
  {
    if LastKept(group, f, c, compiles) && RefsBefore(c, v, f, compiles) == |group| {
      SomeoneDoesNotHold(group, v, f, c, compiles);
    }
  }

  lemma HeldSent(group: seq<Job>, w: nat, v: string, i: nat, c: Config, compiles: Compiler)
    requires i < |c.tasks| && AllHeld(group, v, i, c, compiles) && Sent(c.tasks[i], compiles)
    requires w < |group| && Idles(group[w])
    ensures AllHeld(group[w := Job(i, c.tasks[i].names)], v, i + 1, c, compiles)
  {
    var job := Job(i, c.tasks[i].names);
    CountUpdate(Holding(v), group, w, job);
    assert group[w := job][w] == job;
    forall g | 0 <= g < i + 1 && Sent(c.tasks[g], compiles) && NoneBetween(c, g, i + 1, compiles) ensures g == i {
      assert i <= g;
    }
  }

  lemma HeldSkipped(group: seq<Job>, v: string, i: nat, c: Config, compiles: Compiler)
    requires i < |c.tasks| && AllHeld(group, v, i, c, compiles) && !Sent(c.tasks[i], compiles)
    ensures AllHeld(group, v, i + 1, c, compiles)
  {
    forall g | 0 <= g < i + 1 && Sent(c.tasks[g], compiles) && NoneBetween(c, g, i + 1, compiles)
      ensures exists j :: j in group && j.Job? && j.record == g
    {
      assert NoneBetween(c, g, i, compiles);
    }
  }

  lemma HeldReplaced(group: seq<Job>, w: nat, v: string, i: nat, c: Config, compiles: Compiler)
    requires i <= |c.tasks| && AllHeld(group, v, i, c, compiles)
    requires w < |group| && group[w].Job? && group[w].left != [] && group[w].left[0] != v
    ensures AllHeld(group[w := group[w].(left := group[w].left[1..])], v, i, c, compiles)
  {
    var job := group[w].(left := group[w].left[1..]);
    CountUpdate(Holding(v), group, w, job);
    assert Holds(group[w], v) == Holds(job, v);
    forall g | 0 <= g < i && Sent(c.tasks[g], compiles) && NoneBetween(c, g, i, compiles)
      ensures exists j :: j in group[w := job] && j.Job? && j.record == g
    {
      var x :| 0 <= x < |group| && group[x].Job? && group[x].record == g;
      assert group[w := job][x].record == g;
    }
  }

  // What the readers do.
  ghost predicate Racing(s: InputOrder.State, v: string, f: nat, c: Config, compiles: Compiler) {
    Sound(s, c, compiles) && NamesCompile(c, compiles) && Safe(s, v, f, c, compiles) && c.workers > 0
    && FirstReach(c, v, f, compiles) && !Overtakes(c, v, f, compiles)
  }

  lemma NotYet(s: InputOrder.State, t: nat, v: string, f: nat, c: Config, compiles: Compiler)
    requires Racing(s, v, f, c, compiles) && t < |s.readers| && v !in s.uses.cache
    requires Decodes(s.readers[t], c)
    ensures NextUse(s.readers[t], c) != Decode(v)
  {
    ReachesNow(s.readers[t], s.uses.pcs[t], c, compiles);
    ReachedCompiles(c.tasks[f], v, compiles);
    assert Behind(s, t, v, f, c, compiles);
  }

  predicate JobsOk(s: InputOrder.State, c: Config, compiles: Compiler) {
    forall j :: j in s.jobs ==> JobOk(j, c, compiles)
  }

  lemma SoundJobs(s: InputOrder.State, c: Config, compiles: Compiler)
    requires Sound(s, c, compiles)
    ensures JobsOk(s, c, compiles)
  {
    forall j | j in s.jobs ensures JobOk(j, c, compiles) {
      var w :| 0 <= w < |s.jobs| && s.jobs[w] == j;
      assert WorkerOk(s.jobs[w], s.uses.pcs[|s.readers| + w], c, compiles);
    }
  }

  lemma StillBehind(s: InputOrder.State, t: nat, v: string, f: nat, c: Config, compiles: Compiler)
    requires Shape(s, c) && JobsOk(s, c, compiles) && t < |s.readers| && c.workers > 0
    requires f <= |c.tasks| && !Overtakes(c, v, f, compiles)
    requires s.readers[t].passes == 0 && s.readers[t].record <= f
    requires AllHeld(Group(s, t, c), v, s.readers[t].record, c, compiles)
    ensures Behind(s, t, v, f, c, compiles)
  {
    if s.readers[t].record == f { CannotAllWait(Group(s, t, c), v, f, c, compiles); }
  }

  lemma BehindSkipped(s: InputOrder.State, s': InputOrder.State, t: nat, v: string, f: nat, c: Config,
                      compiles: Compiler)
    requires Shape(s, c) && Shape(s', c) && t < |s.readers| && Behind(s, t, v, f, c, compiles)
    requires s'.jobs == s.jobs && JobsOk(s', c, compiles) && c.workers > 0 && !Overtakes(c, v, f, compiles)
    requires s'.readers[t].passes == 0 && s'.readers[t].record == s.readers[t].record + 1
    requires !Sent(c.tasks[s.readers[t].record], compiles)
    ensures Behind(s', t, v, f, c, compiles)
  {
    HeldSkipped(Group(s, t, c), v, s.readers[t].record, c, compiles);
    StillBehind(s', t, v, f, c, compiles);
  }

  lemma BehindSent(s: InputOrder.State, s': InputOrder.State, t: nat, w: nat, v: string, f: nat, c: Config,
                   compiles: Compiler)
    requires Shape(s, c) && Shape(s', c) && t < |s.readers| && Behind(s, t, v, f, c, compiles)
    requires w < |s.jobs| && Idles(s.jobs[w]) && (c.own ==> t == w)
    requires Sent(c.tasks[s.readers[t].record], compiles)
    requires s'.jobs == s.jobs[w := Job(s.readers[t].record, c.tasks[s.readers[t].record].names)]
    requires JobsOk(s', c, compiles) && c.workers > 0 && !Overtakes(c, v, f, compiles)
    requires s'.readers[t].passes == 0 && s'.readers[t].record == s.readers[t].record + 1
    ensures Behind(s', t, v, f, c, compiles)
  {
    var group, x := Group(s, t, c), if c.own then 0 else w;
    HeldSent(group, x, v, s.readers[t].record, c, compiles);
    assert Group(s', t, c) == group[x := s'.jobs[w]];
    StillBehind(s', t, v, f, c, compiles);
  }

  lemma SafeSkip(s: InputOrder.State, t: nat, v: string, f: nat, c: Config, compiles: Compiler)
    requires Racing(s, v, f, c, compiles) && t < |s.readers| && !Decodes(s.readers[t], c)
    ensures Safe(Read(s, t, c, compiles), v, f, c, compiles)
  {
    SoundSkip(s, t, c, compiles);
    if v !in s.uses.cache {
      assert Behind(s, t, v, f, c, compiles);
      ReadingOn(s, Read(s, t, c, compiles), t, v, f, c, compiles);
    }
  }

  lemma SafeDecode(s: InputOrder.State, t: nat, v: string, f: nat, c: Config, compiles: Compiler)
    requires Racing(s, v, f, c, compiles) && t < |s.readers| && Decodes(s.readers[t], c)
    ensures Safe(Read(s, t, c, compiles), v, f, c, compiles)
  {
    var s', r := Read(s, t, c, compiles), s.readers[t];
    if v !in s.uses.cache { NotYet(s, t, v, f, c, compiles); }
    KeptForStep(s.uses, Look(t, NextUse(r, c)), Replace(v), compiles);
    SoundLook(s, t, c, compiles);
    if v !in s.uses.cache {
      ReadingOn(s, s', t, v, f, c, compiles);
    }
  }

  // A reader has decoded another expression, or could not.
  lemma ReadingOn(s: InputOrder.State, s': InputOrder.State, t: nat, v: string, f: nat, c: Config, compiles: Compiler)
    requires Racing(s, v, f, c, compiles) && Sound(s', c, compiles) && t < |s.readers| && v !in s.uses.cache
    requires s'.jobs == s.jobs && |s'.readers| == |s.readers| && s'.readers == s.readers[t := s'.readers[t]]
    requires var r, r' := s.readers[t], s'.readers[t];
             r'.passes == r.passes && r.record < |c.tasks|
             && (r'.record == r.record || (r'.record == r.record + 1 && !Sent(c.tasks[r.record], compiles)))
    ensures forall u :: 0 <= u < |s'.readers| ==> Behind(s', u, v, f, c, compiles)
  {
    SoundJobs(s', c, compiles);
    assert Behind(s, t, v, f, c, compiles);
    if s'.readers[t].record != s.readers[t].record { BehindSkipped(s, s', t, v, f, c, compiles); }
    forall u | 0 <= u < |s'.readers| && u != t ensures Behind(s', u, v, f, c, compiles) {
      assert Behind(s, u, v, f, c, compiles);
    }
  }

  lemma SafeReaderKeep(s: InputOrder.State, t: nat, v: string, f: nat, c: Config, compiles: Compiler)
    requires Racing(s, v, f, c, compiles) && t < |s.readers|
    ensures Safe(InputOrder.Do(s, ReaderKeep(t), c, compiles), v, f, c, compiles)
  {
    KeptForStep(s.uses, Keep(t), Replace(v), compiles);
    SoundReaderKeep(s, t, c, compiles);
    if v !in s.uses.cache && s.uses.pcs[t].Missed? {
      ReadingOn(s, InputOrder.Do(s, ReaderKeep(t), c, compiles), t, v, f, c, compiles);
    }
  }

  // A send by a reader that has its own input, or to any worker from the only one.
  lemma SafeSend(s: InputOrder.State, t: nat, w: nat, v: string, f: nat, c: Config, compiles: Compiler)
    requires Racing(s, v, f, c, compiles)
    ensures Safe(InputOrder.Do(s, Send(t, w), c, compiles), v, f, c, compiles)
  {
    var s' := InputOrder.Do(s, Send(t, w), c, compiles);
    SoundSend(s, t, w, c, compiles);
    SoundJobs(s', c, compiles);
    if v !in s.uses.cache && s' != s {
      assert ReaderOk(s.readers[t], s.uses.pcs[t], c, compiles) && Behind(s, t, v, f, c, compiles);
      BehindSent(s, s', t, w, v, f, c, compiles);
      forall u | 0 <= u < |s'.readers| && u != t ensures Behind(s', u, v, f, c, compiles) {
        assert Behind(s, u, v, f, c, compiles) && Group(s', u, c) == Group(s, u, c);
      }
    }
  }

  // A worker has replaced another variable, or is on the way to.
  lemma Worked(s: InputOrder.State, s': InputOrder.State, t: nat, w: nat, v: string, f: nat, c: Config,
               compiles: Compiler)
    requires Shape(s, c) && Shape(s', c) && t < |s.readers| && Behind(s, t, v, f, c, compiles)
    requires w < |s.jobs| && !Idles(s.jobs[w]) && s'.readers == s.readers
    requires s'.jobs == s.jobs
             || (s.jobs[w].left[0] != v && s'.jobs == s.jobs[w := s.jobs[w].(left := s.jobs[w].left[1..])])
    ensures Behind(s', t, v, f, c, compiles)
  {
    var group, i := Group(s, t, c), s.readers[t].record;
    if s'.jobs != s.jobs {
      if !c.own {
        HeldReplaced(group, w, v, i, c, compiles);
      } else if t == w {
        HeldReplaced(group, 0, v, i, c, compiles);
        assert Group(s', t, c) == group[0 := s'.jobs[w]];
      }
    }
  }

  lemma SafeWorkerLook(s: InputOrder.State, w: nat, v: string, f: nat, c: Config, compiles: Compiler)
    requires Racing(s, v, f, c, compiles) && w < |s.jobs| && !Idles(s.jobs[w])
    ensures Safe(InputOrder.Do(s, WorkerLook(w), c, compiles), v, f, c, compiles)
  {
    var s' := InputOrder.Do(s, WorkerLook(w), c, compiles);
    WorkerLooks(s, w, c, compiles);
    KeptForStep(s.uses, Look(|s.readers| + w, Replace(s.jobs[w].left[0])), Replace(v), compiles);
    if v !in s'.uses.cache {
      forall u | 0 <= u < |s'.readers| ensures Behind(s', u, v, f, c, compiles) {
        Worked(s, s', u, w, v, f, c, compiles);
      }
    }
  }

  lemma SafeWorkerKeep(s: InputOrder.State, w: nat, v: string, f: nat, c: Config, compiles: Compiler)
    requires Racing(s, v, f, c, compiles) && w < |s.jobs| && !Idles(s.jobs[w])
    ensures Safe(InputOrder.Do(s, WorkerKeep(w), c, compiles), v, f, c, compiles)
  {
    var s' := InputOrder.Do(s, WorkerKeep(w), c, compiles);
    WorkerKeeps(s, w, c, compiles);
    KeptForStep(s.uses, Keep(|s.readers| + w), Replace(v), compiles);
    if v !in s'.uses.cache {
      forall u | 0 <= u < |s'.readers| ensures Behind(s', u, v, f, c, compiles) {
        Worked(s, s', u, w, v, f, c, compiles);
      }
    }
  }

  lemma SafeStep(s: InputOrder.State, e: InputOrder.Event, v: string, f: nat, c: Config, compiles: Compiler)
    requires Racing(s, v, f, c, compiles)
    ensures Racing(InputOrder.Do(s, e, c, compiles), v, f, c, compiles)
  {
    SoundStep(s, e, c, compiles);
    match e
    case ReaderLook(t) =>
      if t < |s.readers| {
        if Decodes(s.readers[t], c) { SafeDecode(s, t, v, f, c, compiles); } else { SafeSkip(s, t, v, f, c, compiles); }
      }
    case ReaderKeep(t) => if t < |s.readers| { SafeReaderKeep(s, t, v, f, c, compiles); }
    case Send(t, w) => SafeSend(s, t, w, v, f, c, compiles);
    case WorkerLook(w) => if w < |s.jobs| && !Idles(s.jobs[w]) { SafeWorkerLook(s, w, v, f, c, compiles); }
    case WorkerKeep(w) => if w < |s.jobs| && !Idles(s.jobs[w]) { SafeWorkerKeep(s, w, v, f, c, compiles); }
  }

  lemma {:induction false} SafeRun(s: InputOrder.State, es: seq<InputOrder.Event>, v: string, f: nat, c: Config,
                                   compiles: Compiler)
    requires Racing(s, v, f, c, compiles)
    ensures Racing(InputOrder.Run(s, es, c, compiles), v, f, c, compiles)
    decreases |es|
  {
    if es != [] {
      SafeStep(s, es[0], v, f, c, compiles);
      SafeRun(InputOrder.Do(s, es[0], c, compiles), es[1..], v, f, c, compiles);
    }
  }

  lemma SafeAtStart(v: string, f: nat, c: Config, compiles: Compiler)
    requires NamesCompile(c, compiles) && c.workers > 0
    requires FirstReach(c, v, f, compiles) && !Overtakes(c, v, f, compiles)
    ensures Racing(InputOrder.Start(c), v, f, c, compiles)
  {
    var s := InputOrder.Start(c);
    SoundFromStart([], c, compiles);
    forall t | 0 <= t < |s.readers| ensures Behind(s, t, v, f, c, compiles) {
      CountsNone(Holding(v), Group(s, t, c));
      SoundJobs(s, c, compiles);
      StillBehind(s, t, v, f, c, compiles);
    }
  }

  lemma {:induction false} NeverDecoded(s: InputOrder.State, es: seq<InputOrder.Event>, v: string, c: Config,
                                        compiles: Compiler)
    requires Sound(s, c, compiles) && NamesCompile(c, compiles) && KeptFor(s.uses, Replace(v), compiles) && compiles(v)
    requires forall i :: 0 <= i < |c.tasks| ==> !Reaches(c.tasks[i], v, compiles)
    ensures KeptFor(InputOrder.Run(s, es, c, compiles).uses, Replace(v), compiles)
    decreases |es|
  {
    if es != [] {
      SoundStep(s, es[0], c, compiles);
      NotDecodedNow(s, es[0], v, c, compiles);
      NeverDecoded(InputOrder.Do(s, es[0], c, compiles), es[1..], v, c, compiles);
    }
  }

  lemma NotDecodedNow(s: InputOrder.State, e: InputOrder.Event, v: string, c: Config, compiles: Compiler)
    requires Sound(s, c, compiles) && NamesCompile(c, compiles) && KeptFor(s.uses, Replace(v), compiles) && compiles(v)
    requires forall i :: 0 <= i < |c.tasks| ==> !Reaches(c.tasks[i], v, compiles)
    ensures KeptFor(InputOrder.Do(s, e, c, compiles).uses, Replace(v), compiles)
  {
    match e
    case ReaderLook(t) => if t < |s.readers| && Decodes(s.readers[t], c) { AnotherDecoded(s, t, v, c, compiles); }
    case ReaderKeep(t) => KeptForStep(s.uses, Keep(t), Replace(v), compiles);
    case Send(t, w) =>
    case WorkerLook(w) => if w < |s.jobs| && !Idles(s.jobs[w]) { ReplacedNow(s, w, v, c, compiles); }
    case WorkerKeep(w) => KeptForStep(s.uses, Keep(|s.readers| + w), Replace(v), compiles);
  }

  lemma ReplacedNow(s: InputOrder.State, w: nat, v: string, c: Config, compiles: Compiler)
    requires Sound(s, c, compiles) && NamesCompile(c, compiles) && KeptFor(s.uses, Replace(v), compiles)
    requires w < |s.jobs| && !Idles(s.jobs[w])
    ensures KeptFor(InputOrder.Do(s, WorkerLook(w), c, compiles).uses, Replace(v), compiles)
  {
    WorkerLooks(s, w, c, compiles);
    KeptForStep(s.uses, Look(|s.readers| + w, Replace(s.jobs[w].left[0])), Replace(v), compiles);
  }

  lemma AnotherDecoded(s: InputOrder.State, t: nat, v: string, c: Config, compiles: Compiler)
    requires Sound(s, c, compiles) && KeptFor(s.uses, Replace(v), compiles) && compiles(v)
    requires forall i :: 0 <= i < |c.tasks| ==> !Reaches(c.tasks[i], v, compiles)
    requires t < |s.readers| && Decodes(s.readers[t], c)
    ensures KeptFor(Read(s, t, c, compiles).uses, Replace(v), compiles)
  {
    ReachesNow(s.readers[t], s.uses.pcs[t], c, compiles);
    KeptForStep(s.uses, Look(t, NextUse(s.readers[t], c)), Replace(v), compiles);
  }

  // ---------------------------------------------------------------- a run that goes wrong

  // The first i records have been sent, those that refer to the variable each to a worker that waits.
  ghost predicate HeldUp(s: InputOrder.State, v: string, i: nat, c: Config, compiles: Compiler)
    requires i <= |c.tasks|
  {
    Ready(s, i, c, compiles) && v !in s.uses.cache && RefsBefore(c, v, i, compiles) <= Waiters(c) <= |s.jobs|
    && (forall w :: 0 <= w < RefsBefore(c, v, i, compiles) ==> Holds(s.jobs[w], v))
    && forall w :: RefsBefore(c, v, i, compiles) <= w < Waiters(c) ==> Idles(s.jobs[w])
  }

  // There is a worker left for each record before f that is sent.
  lemma WorkerLeft(c: Config, v: string, f: nat, i: nat, compiles: Compiler)
    requires i < f <= |c.tasks| && Overtakes(c, v, f, compiles) && Sent(c.tasks[i], compiles) && c.workers > 0
    ensures RefsBefore(c, v, i, compiles) < Waiters(c)
  {
    RefsGrow(c, v, i + 1, f, compiles);
    if RefsBefore(c, v, f, compiles) == Waiters(c) && !Refers(c.tasks[i], v, compiles) {
      var g :| 0 <= g < f && Refers(c.tasks[g], v, compiles) && NoneBetween(c, g, f, compiles);
      assert i < g;
      RefsGrow(c, v, i, g, compiles);
      RefsGrow(c, v, g + 1, f, compiles);
    }
  }

  lemma HeldUpNext(s: InputOrder.State, s': InputOrder.State, v: string, f: nat, i: nat, c: Config, compiles: Compiler)
    requires FirstReach(c, v, f, compiles) && i < f && HeldUp(s, v, i, c, compiles)
    requires Sent(c.tasks[i], compiles) ==> RefsBefore(c, v, i, compiles) < Waiters(c)
    requires if Refers(c.tasks[i], v, compiles)
             then OneRecord(s, s', i, RefsBefore(c, v, i, compiles), true, v, c, compiles)
             else Waiters(c) > 0 && OneRecord(s, s', i, Waiters(c) - 1, false, v, c, compiles)
    ensures HeldUp(s', v, i + 1, c, compiles)
  {}

  lemma HoldOne(s: InputOrder.State, v: string, f: nat, i: nat, c: Config, compiles: Compiler)
    returns (es: seq<InputOrder.Event>)
    requires NamesCompile(c, compiles) && c.workers > 0 && FirstReach(c, v, f, compiles) && Overtakes(c, v, f, compiles)
    requires i < f && HeldUp(s, v, i, c, compiles)
    ensures HeldUp(InputOrder.Run(s, es, c, compiles), v, i + 1, c, compiles)
  {
    if Sent(c.tasks[i], compiles) { WorkerLeft(c, v, f, i, compiles); }
    if Refers(c.tasks[i], v, compiles) {
      es := ReadAndHold(s, i, RefsBefore(c, v, i, compiles), v, c, compiles);
    } else {
      es := ReadAndWork(s, i, Waiters(c) - 1, v, c, compiles);
    }
    HeldUpNext(s, InputOrder.Run(s, es, c, compiles), v, f, i, c, compiles);
  }

  lemma {:induction false} HoldAll(v: string, f: nat, i: nat, c: Config, compiles: Compiler)
    returns (es: seq<InputOrder.Event>)
    requires NamesCompile(c, compiles) && c.workers > 0 && FirstReach(c, v, f, compiles) && Overtakes(c, v, f, compiles)
    requires i <= f
    ensures HeldUp(InputOrder.Run(InputOrder.Start(c), es, c, compiles), v, i, c, compiles)
  {
    var s := InputOrder.Start(c);
    if i == 0 {
      es := [];
      ReadyAtStart(c, compiles);
    } else {
      var front := HoldAll(v, f, i - 1, c, compiles);
      var one := HoldOne(InputOrder.Run(s, front, c, compiles), v, f, i - 1, c, compiles);
      RunAppend(s, front, one, c, compiles);
      es := front + one;
    }
  }

  // The expression is decoded while the records wait; then one of them has its variables replaced.
  lemma OvertakenReplacement(v: string, f: nat, c: Config, compiles: Compiler) returns (es: seq<InputOrder.Event>)
    requires NamesCompile(c, compiles) && c.workers > 0 && FirstReach(c, v, f, compiles) && Overtakes(c, v, f, compiles)
    requires RefsBefore(c, v, f, compiles) > 0
    ensures Answer(Replace(v), Some(v)) in InputOrder.Run(InputOrder.Start(c), es, c, compiles).uses.log
  {
    var start := InputOrder.Start(c);
    var front := HoldAll(v, f, f, c, compiles);
    var s := InputOrder.Run(start, front, c, compiles);
    var read := ReadRest(s, 0, v, c, compiles);
    SoundRun(s, read, c, compiles);
    var s1 := InputOrder.Run(s, read, c, compiles);
    assert s1.jobs[0] == s.jobs[0] && v in s1.uses.cache && s1.uses.cache[v] == v;
    var work := WorkRest(s1, 0, v, c, compiles);
    RunAppend(start, front, read, c, compiles);
    RunAppend(start, front + read, work, c, compiles);
    es := front + read + work;
  }

  // ---------------------------------------------------------------- exactly when

  ghost predicate ReplacedRight(c: Config, v: string, compiles: Compiler) {
    forall es, r :: Answer(Replace(v), r) in InputOrder.Run(InputOrder.Start(c), es, c, compiles).uses.log ==>
      r == Right(Replace(v), compiles)
  }

  lemma NoRefsBefore(c: Config, v: string, f: nat, compiles: Compiler)
    requires f <= |c.tasks| && RefsBefore(c, v, f, compiles) == 0
    ensures forall j :: 0 <= j < f ==> !Refers(c.tasks[j], v, compiles)
  {
    forall j | 0 <= j < f ensures !Refers(c.tasks[j], v, compiles) { RefsGrow(c, v, j + 1, f, compiles); }
  }

  lemma WrongWhenOvertaken(c: Config, v: string, j: nat, f: nat, compiles: Compiler)
    requires NamesCompile(c, compiles) && c.workers > 0 && j < |c.tasks| && Refers(c.tasks[j], v, compiles)
    requires FirstReach(c, v, f, compiles) && Overtakes(c, v, f, compiles)
    ensures !ReplacedRight(c, v, compiles)
  {
    assert |Pattern(v)| > |v|;
    if RefsBefore(c, v, f, compiles) > 0 {
      var es := OvertakenReplacement(v, f, c, compiles);
    } else {
      NoRefsBefore(c, v, f, compiles);
      var q :| 0 <= q < |c.tasks[f].exprs| && ReachesAt(c.tasks[f], v, q, compiles);
      var es := WorkThrough(c, v, j, compiles);
      EarlyInEveryRun(es, v, f, q, c, compiles);
      var r :| Answer(Replace(v), r) in InputOrder.Run(InputOrder.Start(c), es, c, compiles).uses.log;
      assert r != Right(Replace(v), compiles);
    }
  }

  lemma RightUnlessOvertaken(c: Config, v: string, j: nat, compiles: Compiler)
    requires NamesCompile(c, compiles) && c.workers > 0 && j < |c.tasks| && Refers(c.tasks[j], v, compiles)
    requires forall f :: 0 <= f < |c.tasks| && FirstReach(c, v, f, compiles) ==> !Overtakes(c, v, f, compiles)
    ensures ReplacedRight(c, v, compiles)
  {
    var start := InputOrder.Start(c);
    forall es, r | Answer(Replace(v), r) in InputOrder.Run(start, es, c, compiles).uses.log
      ensures r == Right(Replace(v), compiles)
    {
      if i :| 0 <= i < |c.tasks| && Reaches(c.tasks[i], v, compiles) {
        var f := FirstOfReaching(c, v, i, compiles);
        SafeAtStart(v, f, c, compiles);
        SafeRun(start, es, v, f, c, compiles);
      } else {
        SoundFromStart([], c, compiles);
        NeverDecoded(start, es, v, c, compiles);
      }
      assert KeptFor(InputOrder.Run(start, es, c, compiles).uses, Replace(v), compiles);
    }
  }

  // For a variable that some record refers to: it is replaced by its own pattern in every run if and only if
  // no record decodes its name as an expression, or the first that does cannot be reached while all the
  // records before it that refer to the variable wait: there are more of them than workers, or as many
  // and another record is sent between the last of them and the decoding one.
  lemma ReplacedRightIff(c: Config, v: string, j: nat, compiles: Compiler)
    requires NamesCompile(c, compiles) && c.workers > 0 && j < |c.tasks| && Refers(c.tasks[j], v, compiles)
    ensures ReplacedRight(c, v, compiles)
        <==> forall f :: 0 <= f < |c.tasks| && FirstReach(c, v, f, compiles) ==> !Overtakes(c, v, f, compiles)
  {
    if f :| 0 <= f < |c.tasks| && FirstReach(c, v, f, compiles) && Overtakes(c, v, f, compiles) {
      WrongWhenOvertaken(c, v, j, f, compiles);
    } else {
      RightUnlessOvertaken(c, v, j, compiles);
    }
  }

  // With more workers than records that refer to it, that is simply that no record decodes its name.
  lemma ManyWorkers(c: Config, v: string, j: nat, compiles: Compiler)
    requires NamesCompile(c, compiles) && c.workers > 0 && j < |c.tasks| && Refers(c.tasks[j], v, compiles)
    requires RefsBefore(c, v, |c.tasks|, compiles) < Waiters(c)
    ensures ReplacedRight(c, v, compiles) <==> forall i :: 0 <= i < |c.tasks| ==> !Reaches(c.tasks[i], v, compiles)
  {
    ReplacedRightIff(c, v, j, compiles);
    if i :| 0 <= i < |c.tasks| && Reaches(c.tasks[i], v, compiles) {
      var f := FirstOfReaching(c, v, i, compiles);
      RefsGrow(c, v, f, |c.tasks|, compiles);
    }
  }

  // Every record is given its own expressions, and every variable is replaced by its own pattern.
  ghost predicate EveryUseRight(c: Config, compiles: Compiler) {
    (forall k, e :: 0 <= k < |c.tasks| && Reaches(c.tasks[k], e, compiles) ==> DecodedRight(c, k, e, compiles))
    && forall j, v :: 0 <= j < |c.tasks| && Refers(c.tasks[j], v, compiles) ==> ReplacedRight(c, v, compiles)
  }

  predicate Both(c: Config, v: string, i: nat, j: nat, compiles: Compiler) {
    i < |c.tasks| && j < |c.tasks| && Reaches(c.tasks[i], v, compiles) && Refers(c.tasks[j], v, compiles)
  }

  lemma BothGoesWrong(c: Config, v: string, i: nat, j: nat, compiles: Compiler)
    requires NamesCompile(c, compiles) && c.workers > 0 && Both(c, v, i, j, compiles)
    ensures !EveryUseRight(c, compiles)
  {
    DecodedRightIff(c, i, v, compiles);
    ReplacedRightIff(c, v, j, compiles);
    var f := FirstOfReaching(c, v, i, compiles);
    if forall x :: 0 <= x < |c.tasks| ==> !ReferredFirst(c, v, x, compiles) {
      var q := FirstIsFirst(c, v, f, compiles);
      NoneRefers(c, v, f, compiles);
    }
  }

  lemma {:induction false} NoneRefers(c: Config, v: string, f: nat, compiles: Compiler)
    requires f <= |c.tasks| && forall j :: 0 <= j < f ==> !Refers(c.tasks[j], v, compiles)
    ensures RefsBefore(c, v, f, compiles) == 0
  {
    if f > 0 { NoneRefers(c, v, f - 1, compiles); }
  }

  // The order of the records, the number of workers and of readers decide which uses can go wrong; that none
  // can is still that no word is both decoded and referred to.
  lemma EveryUseRightIff(c: Config, compiles: Compiler)
    requires NamesCompile(c, compiles) && c.workers > 0
    ensures EveryUseRight(c, compiles) <==> forall v, i, j :: !Both(c, v, i, j, compiles)
  {
    if v, i, j :| Both(c, v, i, j, compiles) {
      BothGoesWrong(c, v, i, j, compiles);
    } else {
      forall k, e | 0 <= k < |c.tasks| && Reaches(c.tasks[k], e, compiles) ensures DecodedRight(c, k, e, compiles) {
        DecodedRightIff(c, k, e, compiles);
        forall j | 0 <= j < |c.tasks| ensures !ReferredFirst(c, e, j, compiles) { assert !Both(c, e, k, j, compiles); }
      }
      forall j, v | 0 <= j < |c.tasks| && Refers(c.tasks[j], v, compiles) ensures ReplacedRight(c, v, compiles) {
        ReplacedRightIff(c, v, j, compiles);
        forall f | 0 <= f < |c.tasks| ensures !FirstReach(c, v, f, compiles) {
          assert !Both(c, v, f, j, compiles);
        }
      }
    }
  }
}
