/** The order in which the cache of expressions is used: a reader decodes record after record, and only
    then sends it to the worker that replaces its variables. */
module InputOrder {
  import opened Prelude
  import opened RegexCache
  import opened Sequences

  // What a record brings to the cache: its expressions as they are decoded one by one, and the names of
  // its variables. Metadata that are refused bring nothing.
  datatype Task = Refused | Task(exprs: seq<string>, names: seq<string>)

  // All workers share one reader, or have one each when regular expressions are enabled.
  datatype Config = Config(tasks: seq<Task>, own: bool, workers: nat)

  function ReadersOf(c: Config): nat { if c.own then c.workers else 1 }

  // What has been given so far for the expressions of the record.
  datatype Reader = Reader(passes: nat, record: nat, given: seq<Option<string>>)

  // The names that are still to be replaced.
  datatype Job = Waiting | Job(record: nat, left: seq<string>)

  // A record that was sent, or reported as bad, with what was given for its expressions.
  datatype Made = Made(record: nat, given: seq<Option<string>>)

  // The readers are the first users of the cache, the workers the others.
  datatype State = Input(uses: RegexCache.State, readers: seq<Reader>, jobs: seq<Job>, made: seq<Made>, panicked: bool)

  datatype Event =
    | ReaderLook(t: nat) // also skips a refused record and rewinds the file
    | ReaderKeep(t: nat)
    | Send(t: nat, w: nat)
    | WorkerLook(w: nat)
    | WorkerKeep(w: nat)

  function Start(c: Config): State {
    Input(RegexCache.Start(ReadersOf(c) + c.workers), seq(ReadersOf(c), _ => Reader(0, 0, [])),
          seq(c.workers, _ => Waiting), [], false)
  }

  function NextRecord(s: State, t: nat, given: seq<Option<string>>): State
    requires t < |s.readers|
  {
    var r := s.readers[t];
    s.(readers := s.readers[t := Reader(r.passes, r.record + 1, [])], made := s.made + [Made(r.record, given)])
  }

  // A reader after its operation on the cache, which may have answered it; an expression that does not
  // compile ends its record.
  function Decoded(s: State, t: nat, uses: RegexCache.State): State
    requires t < |s.readers|
  {
    if |uses.log| <= |s.uses.log| then s.(uses := uses)
    else
      var r, answer := s.readers[t], uses.log[|uses.log| - 1].r;
      if answer.None? then NextRecord(s.(uses := uses), t, r.given + [answer])
      else s.(uses := uses, readers := s.readers[t := r.(given := r.given + [answer])])
  }

  // A worker after its operation; a pattern that does not compile is a panic.
  function Replaced(s: State, w: nat, uses: RegexCache.State): State
    requires w < |s.jobs| && s.jobs[w].Job? && s.jobs[w].left != []
  {
    if |uses.log| <= |s.uses.log| then s.(uses := uses)
    else if uses.log[|uses.log| - 1].r.None? then s.(uses := uses, panicked := true)
    else s.(uses := uses, jobs := s.jobs[w := s.jobs[w].(left := s.jobs[w].left[1..])])
  }

  predicate Complete(r: Reader, c: Config) {
    r.record < |c.tasks| && c.tasks[r.record].Task? && |r.given| == |c.tasks[r.record].exprs|
  }

  predicate Idles(j: Job) { j.Waiting? || j.left == [] }

  function Read(s: State, t: nat, c: Config, compiles: Compiler): State
    requires t < |s.readers|
  {
    var r := s.readers[t];
    if r.record >= |c.tasks| then s.(readers := s.readers[t := Reader(r.passes + 1, 0, [])])
    else
      match c.tasks[r.record]
      case Refused => NextRecord(s, t, [])
      case Task(exprs, _) =>
        if |r.given| >= |exprs| then s
        else Decoded(s, t, RegexCache.Do(s.uses, Look(t, Decode(exprs[|r.given|])), compiles))
  }

  // One step; an event that is not enabled changes nothing.
  function Do(s: State, e: Event, c: Config, compiles: Compiler): State {
    if s.panicked then s
    else
      match e
      case ReaderLook(t) => if t < |s.readers| then Read(s, t, c, compiles) else s
      case ReaderKeep(t) =>
        if t < |s.readers| then Decoded(s, t, RegexCache.Do(s.uses, Keep(t), compiles)) else s
      case Send(t, w) =>
        if t < |s.readers| && w < |s.jobs| && (c.own ==> t == w) && Complete(s.readers[t], c) && Idles(s.jobs[w]) then
          var r := s.readers[t];
          NextRecord(s.(jobs := s.jobs[w := Job(r.record, c.tasks[r.record].names)]), t, r.given)
        else s
      case WorkerLook(w) =>
        if w < |s.jobs| && !Idles(s.jobs[w])
        then Replaced(s, w, RegexCache.Do(s.uses, Look(|s.readers| + w, Replace(s.jobs[w].left[0])), compiles))
        else s
      case WorkerKeep(w) =>
        if w < |s.jobs| && !Idles(s.jobs[w])
        then Replaced(s, w, RegexCache.Do(s.uses, Keep(|s.readers| + w), compiles))
        else s
  }

  function Run(s: State, es: seq<Event>, c: Config, compiles: Compiler): State
    decreases |es|
  {
    if es == [] then s else Run(Do(s, es[0], c, compiles), es[1..], c, compiles)
  }

  // ---------------------------------------------------------------- what can be told from the file

  // All of its expressions compile, so that it is sent.
  predicate Sent(task: Task, compiles: Compiler) {
    task.Task? && forall p :: 0 <= p < |task.exprs| ==> compiles(task.exprs[p])
  }

  predicate Refers(task: Task, v: string, compiles: Compiler) { Sent(task, compiles) && v in task.names }

  // The expression is decoded and kept unless it is in the cache, at position q.
  predicate ReachesAt(task: Task, e: string, q: nat, compiles: Compiler) {
    task.Task? && q < |task.exprs| && task.exprs[q] == e && forall p :: 0 <= p <= q ==> compiles(task.exprs[p])
  }

  predicate Reaches(task: Task, e: string, compiles: Compiler) {
    task.Task? && exists q :: 0 <= q < |task.exprs| && ReachesAt(task, e, q, compiles)
  }

  predicate FirstReach(c: Config, e: string, f: nat, compiles: Compiler) {
    f < |c.tasks| && Reaches(c.tasks[f], e, compiles) && forall i :: 0 <= i < f ==> !Reaches(c.tasks[i], e, compiles)
  }

  // The names of variables are letters and digits: they compile, and so do their patterns.
  predicate NamesCompile(c: Config, compiles: Compiler) {
    forall i, n :: 0 <= i < |c.tasks| && c.tasks[i].Task? && n in c.tasks[i].names ==>
      compiles(n) && compiles(Pattern(n))
  }

  // ---------------------------------------------------------------- in every run

  predicate ReaderOk(r: Reader, pc: PC, c: Config, compiles: Compiler) {
    r.record <= |c.tasks|
    && if r.record < |c.tasks| && c.tasks[r.record].Task? then
         var exprs := c.tasks[r.record].exprs;
         |r.given| <= |exprs|
         && (forall p :: 0 <= p < |r.given| ==> r.given[p].Some? && compiles(exprs[p]))
         && (pc.Missed? ==> |r.given| < |exprs| && pc.u == Decode(exprs[|r.given|]) && compiles(exprs[|r.given|]))
       else r.given == [] && pc.Idle?
  }

  predicate WorkerOk(j: Job, pc: PC, c: Config, compiles: Compiler) {
    (j.Job? ==> j.record < |c.tasks| && Sent(c.tasks[j.record], compiles)
                && forall n :: n in j.left ==> n in c.tasks[j.record].names)
    && (pc.Missed? ==> j.Job? && j.left != [] && pc.u == Replace(j.left[0]))
  }

  // An answer for each expression, up to the first that does not compile.
  predicate MadeOk(m: Made, c: Config, compiles: Compiler) {
    m.record < |c.tasks|
    && match c.tasks[m.record]
       case Refused => m.given == []
       case Task(exprs, _) =>
         |m.given| <= |exprs|
         && (forall p :: 0 <= p < |m.given| ==> (m.given[p].Some? <==> compiles(exprs[p])))
         && (forall p :: 0 <= p < |m.given| && m.given[p].None? ==> p == |m.given| - 1)
         && (|m.given| < |exprs| ==> m.given != [] && m.given[|m.given| - 1].None?)
  }

  predicate Shape(s: State, c: Config) {
    |s.readers| == ReadersOf(c) && |s.jobs| == c.workers && |s.uses.pcs| == ReadersOf(c) + c.workers
  }

  ghost predicate Sound(s: State, c: Config, compiles: Compiler) {
    Shape(s, c) && !s.panicked
    && (forall t :: 0 <= t < |s.readers| ==> ReaderOk(s.readers[t], s.uses.pcs[t], c, compiles))
    && (forall w :: 0 <= w < |s.jobs| ==> WorkerOk(s.jobs[w], s.uses.pcs[|s.readers| + w], c, compiles))
    && (forall k :: k in s.uses.cache ==> compiles(k))
    && (forall m :: m in s.made ==> MadeOk(m, c, compiles))
  }

  // The next expression, when there is one.
  predicate Decodes(r: Reader, c: Config) {
    r.record < |c.tasks| && c.tasks[r.record].Task? && |r.given| < |c.tasks[r.record].exprs|
  }

  function NextUse(r: Reader, c: Config): Use
    requires Decodes(r, c)
  {
    Decode(c.tasks[r.record].exprs[|r.given|])
  }

  lemma SoundSkip(s: State, t: nat, c: Config, compiles: Compiler)
    requires Sound(s, c, compiles) && t < |s.readers| && !Decodes(s.readers[t], c)
    ensures Sound(Read(s, t, c, compiles), c, compiles)
  {}

  lemma SoundMiss(s: State, t: nat, c: Config, compiles: Compiler)
    requires Sound(s, c, compiles) && t < |s.readers| && Decodes(s.readers[t], c)
    requires var k := Key(NextUse(s.readers[t], c));
             s.uses.pcs[t].Missed? || (k !in s.uses.cache && compiles(k))
    ensures Sound(Read(s, t, c, compiles), c, compiles)
  {}

  lemma SoundFound(s: State, t: nat, c: Config, compiles: Compiler)
    requires Sound(s, c, compiles) && t < |s.readers| && Decodes(s.readers[t], c) && s.uses.pcs[t].Idle?
    requires Key(NextUse(s.readers[t], c)) in s.uses.cache
    ensures Sound(Read(s, t, c, compiles), c, compiles)
  {}

  lemma SoundNone(s: State, t: nat, c: Config, compiles: Compiler)
    requires Sound(s, c, compiles) && t < |s.readers| && Decodes(s.readers[t], c) && s.uses.pcs[t].Idle?
    requires !compiles(Key(NextUse(s.readers[t], c)))
    ensures Sound(Read(s, t, c, compiles), c, compiles)
  {}

  lemma SoundReaderKeep(s: State, t: nat, c: Config, compiles: Compiler)
    requires Sound(s, c, compiles) && NamesCompile(c, compiles) && t < |s.readers|
    ensures Sound(Do(s, ReaderKeep(t), c, compiles), c, compiles)
  {}

  lemma SoundSend(s: State, t: nat, w: nat, c: Config, compiles: Compiler)
    requires Sound(s, c, compiles) && NamesCompile(c, compiles)
    ensures Sound(Do(s, Send(t, w), c, compiles), c, compiles)
  {}

  lemma SoundWorkerLook(s: State, w: nat, c: Config, compiles: Compiler)
    requires Sound(s, c, compiles) && NamesCompile(c, compiles)
    ensures Sound(Do(s, WorkerLook(w), c, compiles), c, compiles)
  {
    if w < |s.jobs| && !Idles(s.jobs[w]) {
      WorkerLooks(s, w, c, compiles);
      SoundWhenLooked(s, w, Do(s, WorkerLook(w), c, compiles), c, compiles);
    }
  }

  lemma SoundWhenLooked(s: State, w: nat, s': State, c: Config, compiles: Compiler)
    requires Sound(s, c, compiles) && w < |s.jobs| && !Idles(s.jobs[w])
    requires s'.readers == s.readers && s'.made == s.made && !s'.panicked && s'.uses.cache == s.uses.cache
    requires s'.uses.pcs == s.uses.pcs
             || s'.uses.pcs == s.uses.pcs[|s.readers| + w := Missed(Replace(s.jobs[w].left[0]))]
    requires (s'.jobs == s.jobs)
             || (s'.uses.pcs == s.uses.pcs && s.uses.pcs[|s.readers| + w].Idle?
                 && s'.jobs == s.jobs[w := s.jobs[w].(left := s.jobs[w].left[1..])])
    ensures Sound(s', c, compiles)
  {}

  lemma SoundWorkerKeep(s: State, w: nat, c: Config, compiles: Compiler)
    requires Sound(s, c, compiles) && NamesCompile(c, compiles)
    ensures Sound(Do(s, WorkerKeep(w), c, compiles), c, compiles)
  {}

  lemma SoundStep(s: State, e: Event, c: Config, compiles: Compiler)
    requires Sound(s, c, compiles) && NamesCompile(c, compiles)
    ensures Sound(Do(s, e, c, compiles), c, compiles)
  {
    match e
    case ReaderLook(t) => if t < |s.readers| { SoundLook(s, t, c, compiles); }
    case ReaderKeep(t) => if t < |s.readers| { SoundReaderKeep(s, t, c, compiles); }
    case Send(t, w) => SoundSend(s, t, w, c, compiles);
    case WorkerLook(w) => SoundWorkerLook(s, w, c, compiles);
    case WorkerKeep(w) => SoundWorkerKeep(s, w, c, compiles);
  }

  lemma SoundLook(s: State, t: nat, c: Config, compiles: Compiler)
    requires Sound(s, c, compiles) && t < |s.readers|
    ensures Sound(Read(s, t, c, compiles), c, compiles)
  {
    var r := s.readers[t];
    if !Decodes(r, c) {
      SoundSkip(s, t, c, compiles);
    } else if s.uses.pcs[t].Idle? && Key(NextUse(r, c)) in s.uses.cache {
      SoundFound(s, t, c, compiles);
    } else if s.uses.pcs[t].Idle? && !compiles(Key(NextUse(r, c))) {
      SoundNone(s, t, c, compiles);
    } else {
      SoundMiss(s, t, c, compiles);
    }
  }

  // ---------------------------------------------------------------- an expression that comes early

  // The reader has decoded the expression at position q of record f, in this pass or an earlier one.
  predicate Past(r: Reader, f: nat, q: nat) { r.passes > 0 || r.record > f || (r.record == f && |r.given| > q) }

  // What was given for an expression is this.
  predicate Says(task: Task, given: seq<Option<string>>, e: string, r: string) {
    task.Task? ==> forall p :: 0 <= p < |given| && p < |task.exprs| && task.exprs[p] == e && given[p].Some? ==>
      given[p].value == r
  }

  // The word is kept as the expression it is, and found by whoever needs it after the reader has passed.
  ghost predicate Early(s: State, e: string, f: nat, q: nat, c: Config, compiles: Compiler) {
    KeptFor(s.uses, Decode(e), compiles)
    && (forall t :: 0 <= t < |s.readers| && Past(s.readers[t], f, q) ==> e in s.uses.cache)
    && (forall w :: 0 <= w < |s.jobs| && s.jobs[w].Job? && e in s.jobs[w].left ==> e in s.uses.cache)
    && (forall t :: 0 <= t < |s.readers| && s.readers[t].record < |c.tasks| ==>
          Says(c.tasks[s.readers[t].record], s.readers[t].given, e, e))
    && (forall m :: m in s.made && m.record < |c.tasks| ==> Says(c.tasks[m.record], m.given, e, e))
  }

  // Record f decodes the word, and no record before it refers to it.
  predicate ComesFirst(c: Config, e: string, f: nat, q: nat, compiles: Compiler) {
    f < |c.tasks| && ReachesAt(c.tasks[f], e, q, compiles)
    && forall j :: 0 <= j < f ==> !Refers(c.tasks[j], e, compiles)
  }

  lemma EarlySkip(s: State, t: nat, e: string, f: nat, q: nat, c: Config, compiles: Compiler)
    requires Sound(s, c, compiles) && t < |s.readers| && !Decodes(s.readers[t], c)
    requires Early(s, e, f, q, c, compiles) && ComesFirst(c, e, f, q, compiles)
    ensures Early(Read(s, t, c, compiles), e, f, q, c, compiles)
  {}

  lemma EarlyMiss(s: State, t: nat, e: string, f: nat, q: nat, c: Config, compiles: Compiler)
    requires Sound(s, c, compiles) && t < |s.readers| && Decodes(s.readers[t], c)
    requires var k := Key(NextUse(s.readers[t], c));
             s.uses.pcs[t].Missed? || (k !in s.uses.cache && compiles(k))
    requires Early(s, e, f, q, c, compiles) && ComesFirst(c, e, f, q, compiles)
    ensures Early(Read(s, t, c, compiles), e, f, q, c, compiles)
  {
    KeptForStep(s.uses, Look(t, NextUse(s.readers[t], c)), Decode(e), compiles);
  }

  lemma SaysMore(task: Task, given: seq<Option<string>>, answer: string, e: string, r: string)
    requires Says(task, given, e, r) && task.Task? && |given| < |task.exprs|
    requires task.exprs[|given|] == e ==> answer == r
    ensures Says(task, given + [Some(answer)], e, r)
  {}

  lemma ReadFound(s: State, t: nat, c: Config, compiles: Compiler)
    requires t < |s.readers| && Decodes(s.readers[t], c) && t < |s.uses.pcs| && s.uses.pcs[t].Idle?
    requires Key(NextUse(s.readers[t], c)) in s.uses.cache
    ensures var u := NextUse(s.readers[t], c);
            Read(s, t, c, compiles) == Advanced(s, t, s.uses.cache, u, Some(s.uses.cache[Key(u)]))
  {}

  lemma EarlyFound(s: State, t: nat, e: string, f: nat, q: nat, c: Config, compiles: Compiler)
    requires Sound(s, c, compiles) && t < |s.readers| && Decodes(s.readers[t], c) && s.uses.pcs[t].Idle?
    requires Key(NextUse(s.readers[t], c)) in s.uses.cache
    requires Early(s, e, f, q, c, compiles) && ComesFirst(c, e, f, q, compiles)
    ensures Early(Read(s, t, c, compiles), e, f, q, c, compiles)
  {
    var r, u := s.readers[t], NextUse(s.readers[t], c);
    KeptForStep(s.uses, Look(t, u), Decode(e), compiles);
    ReadFound(s, t, c, compiles);
    SaysMore(c.tasks[r.record], r.given, s.uses.cache[Key(u)], e, e);
  }

  lemma EarlyNone(s: State, t: nat, e: string, f: nat, q: nat, c: Config, compiles: Compiler)
    requires Sound(s, c, compiles) && t < |s.readers| && Decodes(s.readers[t], c) && s.uses.pcs[t].Idle?
    requires !compiles(Key(NextUse(s.readers[t], c)))
    requires Early(s, e, f, q, c, compiles) && ComesFirst(c, e, f, q, compiles)
    ensures Early(Read(s, t, c, compiles), e, f, q, c, compiles)
  {
    KeptForStep(s.uses, Look(t, NextUse(s.readers[t], c)), Decode(e), compiles);
  }

  lemma EarlyReaderKeep(s: State, t: nat, e: string, f: nat, q: nat, c: Config, compiles: Compiler)
    requires Sound(s, c, compiles) && t < |s.readers|
    requires Early(s, e, f, q, c, compiles) && ComesFirst(c, e, f, q, compiles)
    ensures Early(Do(s, ReaderKeep(t), c, compiles), e, f, q, c, compiles)
  {
    KeptForStep(s.uses, Keep(t), Decode(e), compiles);
  }

  lemma EarlySend(s: State, t: nat, w: nat, e: string, f: nat, q: nat, c: Config, compiles: Compiler)
    requires Sound(s, c, compiles)
    requires Early(s, e, f, q, c, compiles) && ComesFirst(c, e, f, q, compiles)
    ensures Early(Do(s, Send(t, w), c, compiles), e, f, q, c, compiles)
  {}

  // What a worker's steps change.
  lemma WorkerLooks(s: State, w: nat, c: Config, compiles: Compiler)
    requires Sound(s, c, compiles) && NamesCompile(c, compiles) && w < |s.jobs| && !Idles(s.jobs[w])
    ensures var s', n, t := Do(s, WorkerLook(w), c, compiles), s.jobs[w].left[0], |s.readers| + w;
            s'.uses == RegexCache.Do(s.uses, Look(t, Replace(n)), compiles)
            && s'.uses.cache == s.uses.cache && s'.readers == s.readers && s'.made == s.made && !s'.panicked
            && (s'.uses.pcs == s.uses.pcs || s'.uses.pcs == s.uses.pcs[t := Missed(Replace(n))])
            && (s'.jobs == s.jobs
                || (n in s.uses.cache && s'.uses.pcs == s.uses.pcs && s.uses.pcs[t].Idle?
                    && s'.jobs == s.jobs[w := s.jobs[w].(left := s.jobs[w].left[1..])]))
  {
    assert WorkerOk(s.jobs[w], s.uses.pcs[|s.readers| + w], c, compiles);
  }

  lemma WorkerKeeps(s: State, w: nat, c: Config, compiles: Compiler)
    requires Sound(s, c, compiles) && w < |s.jobs| && !Idles(s.jobs[w])
    ensures var s', n := Do(s, WorkerKeep(w), c, compiles), s.jobs[w].left[0];
            s'.uses == RegexCache.Do(s.uses, Keep(|s.readers| + w), compiles)
            && s'.readers == s.readers && s'.made == s.made
            && ((s'.jobs == s.jobs && s'.uses.cache == s.uses.cache)
                || (s'.uses.cache == s.uses.cache[n := Pattern(n)]
                    && s'.jobs == s.jobs[w := s.jobs[w].(left := s.jobs[w].left[1..])]))
  {
    assert WorkerOk(s.jobs[w], s.uses.pcs[|s.readers| + w], c, compiles);
  }

  lemma EarlyWorkerLook(s: State, w: nat, e: string, f: nat, q: nat, c: Config, compiles: Compiler)
    requires Sound(s, c, compiles) && NamesCompile(c, compiles) && w < |s.jobs| && !Idles(s.jobs[w])
    requires Early(s, e, f, q, c, compiles)
    ensures Early(Do(s, WorkerLook(w), c, compiles), e, f, q, c, compiles)
  {
    WorkerLooks(s, w, c, compiles);
    KeptForStep(s.uses, Look(|s.readers| + w, Replace(s.jobs[w].left[0])), Decode(e), compiles);
  }

  lemma EarlyWorkerKeep(s: State, w: nat, e: string, f: nat, q: nat, c: Config, compiles: Compiler)
    requires Sound(s, c, compiles) && w < |s.jobs| && !Idles(s.jobs[w])
    requires Early(s, e, f, q, c, compiles)
    ensures Early(Do(s, WorkerKeep(w), c, compiles), e, f, q, c, compiles)
  {
    WorkerKeeps(s, w, c, compiles);
    KeptForStep(s.uses, Keep(|s.readers| + w), Decode(e), compiles);
  }

  lemma EarlyLook(s: State, t: nat, e: string, f: nat, q: nat, c: Config, compiles: Compiler)
    requires Sound(s, c, compiles) && t < |s.readers|
    requires Early(s, e, f, q, c, compiles) && ComesFirst(c, e, f, q, compiles)
    ensures Early(Read(s, t, c, compiles), e, f, q, c, compiles)
  {
    var r := s.readers[t];
    if !Decodes(r, c) {
      EarlySkip(s, t, e, f, q, c, compiles);
    } else if s.uses.pcs[t].Idle? && Key(NextUse(r, c)) in s.uses.cache {
      EarlyFound(s, t, e, f, q, c, compiles);
    } else if s.uses.pcs[t].Idle? && !compiles(Key(NextUse(r, c))) {
      EarlyNone(s, t, e, f, q, c, compiles);
    } else {
      EarlyMiss(s, t, e, f, q, c, compiles);
    }
  }

  lemma EarlyStep(s: State, v: Event, e: string, f: nat, q: nat, c: Config, compiles: Compiler)
    requires Sound(s, c, compiles) && NamesCompile(c, compiles)
    requires Early(s, e, f, q, c, compiles) && ComesFirst(c, e, f, q, compiles)
    ensures Early(Do(s, v, c, compiles), e, f, q, c, compiles)
  {
    match v
    case ReaderLook(t) => if t < |s.readers| { EarlyLook(s, t, e, f, q, c, compiles); }
    case ReaderKeep(t) => if t < |s.readers| { EarlyReaderKeep(s, t, e, f, q, c, compiles); }
    case Send(t, w) => EarlySend(s, t, w, e, f, q, c, compiles);
    case WorkerLook(w) => if w < |s.jobs| && !Idles(s.jobs[w]) { EarlyWorkerLook(s, w, e, f, q, c, compiles); }
    case WorkerKeep(w) => if w < |s.jobs| && !Idles(s.jobs[w]) { EarlyWorkerKeep(s, w, e, f, q, c, compiles); }
  }

  lemma {:induction false} SoundRun(s: State, es: seq<Event>, c: Config, compiles: Compiler)
    requires Sound(s, c, compiles) && NamesCompile(c, compiles)
    ensures Sound(Run(s, es, c, compiles), c, compiles)
    decreases |es|
  {
    if es != [] {
      SoundStep(s, es[0], c, compiles);
      SoundRun(Do(s, es[0], c, compiles), es[1..], c, compiles);
    }
  }

  lemma SoundFromStart(es: seq<Event>, c: Config, compiles: Compiler)
    requires NamesCompile(c, compiles)
    ensures Sound(Start(c), c, compiles)
    ensures Sound(Run(Start(c), es, c, compiles), c, compiles)
  {
    SoundRun(Start(c), es, c, compiles);
  }

  lemma {:induction false} EarlyRun(s: State, es: seq<Event>, e: string, f: nat, q: nat, c: Config, compiles: Compiler)
    requires Sound(s, c, compiles) && NamesCompile(c, compiles)
    requires Early(s, e, f, q, c, compiles) && ComesFirst(c, e, f, q, compiles)
    ensures Early(Run(s, es, c, compiles), e, f, q, c, compiles)
    decreases |es|
  {
    if es != [] {
      SoundStep(s, es[0], c, compiles);
      EarlyStep(s, es[0], e, f, q, c, compiles);
      EarlyRun(Do(s, es[0], c, compiles), es[1..], e, f, q, c, compiles);
    }
  }

  // When the first record that decodes a word comes no later than the first that refers to it, every use of
  // the word, in every run, works with the expression that is the word itself.
  lemma EarlyInEveryRun(es: seq<Event>, e: string, f: nat, q: nat, c: Config, compiles: Compiler)
    requires NamesCompile(c, compiles) && ComesFirst(c, e, f, q, compiles)
    ensures Early(Run(Start(c), es, c, compiles), e, f, q, c, compiles)
  {
    SoundFromStart([], c, compiles);
    EarlyRun(Start(c), es, e, f, q, c, compiles);
  }

  // ---------------------------------------------------------------- a reader and a worker left to themselves

  lemma {:induction false} RunAppend(s: State, a: seq<Event>, b: seq<Event>, c: Config, compiles: Compiler)
    ensures Run(s, a + b, c, compiles) == Run(Run(s, a, c, compiles), b, c, compiles)
    decreases |a|
  {
    if a == [] {
      assert a + b == b;
    } else {
      assert (a + b)[0] == a[0] && (a + b)[1..] == a[1..] + b;
      RunAppend(Do(s, a[0], c, compiles), a[1..], b, c, compiles);
    }
  }

  lemma RunTwo(s: State, a: Event, b: Event, c: Config, compiles: Compiler)
    ensures Run(s, [a, b], c, compiles) == Do(Do(s, a, c, compiles), b, c, compiles)
  {
    assert [a, b][1..] == [b] && [b][1..] == [];
    var s1 := Do(s, a, c, compiles);
    assert Run(s1, [b], c, compiles) == Run(Do(s1, b, c, compiles), [], c, compiles);
  }

  // What became of the reader after one more answer.
  function Advanced(s: State, t: nat, cache: Entries, u: Use, answer: Option<string>): State
    requires t < |s.readers|
  {
    var s' := s.(uses := RegexCache.State(cache, s.uses.pcs, s.uses.log + [Answer(u, answer)]));
    var r := s.readers[t];
    if answer.None? then NextRecord(s', t, r.given + [answer])
    else s'.(readers := s.readers[t := r.(given := r.given + [answer])])
  }

  lemma DecodeOne(s: State, t: nat, c: Config, compiles: Compiler)
    requires Sound(s, c, compiles) && t < |s.readers| && Decodes(s.readers[t], c) && s.uses.pcs[t].Idle?
    ensures var u := NextUse(s.readers[t], c);
            var (answer, cache) := UseOne(s.uses.cache, u, compiles);
            Run(s, [ReaderLook(t), ReaderKeep(t)], c, compiles) == Advanced(s, t, cache, u, answer)
  {
    var u := NextUse(s.readers[t], c);
    var s1 := Do(s, ReaderLook(t), c, compiles);
    UseIsTwoSteps(s.uses, t, u, compiles);
    RunTwo(s, ReaderLook(t), ReaderKeep(t), c, compiles);
    assert s1.uses == RegexCache.Do(s.uses, Look(t, u), compiles);
    if s1.uses.pcs[t].Idle? { assert RegexCache.Do(s1.uses, Keep(t), compiles) == s1.uses; }
  }

  // What became of the worker after one more replacement.
  function OneLess(s: State, w: nat, cache: Entries, answer: Answer): State
    requires w < |s.jobs| && !Idles(s.jobs[w])
  {
    s.(uses := RegexCache.State(cache, s.uses.pcs, s.uses.log + [answer]),
       jobs := s.jobs[w := s.jobs[w].(left := s.jobs[w].left[1..])])
  }

  lemma NothingToKeep(s: State, w: nat, c: Config, compiles: Compiler)
    requires |s.readers| + w < |s.uses.pcs| && s.uses.pcs[|s.readers| + w].Idle?
    ensures Do(s, WorkerKeep(w), c, compiles) == s
  {}

  lemma ReplaceFound(s: State, w: nat, c: Config, compiles: Compiler)
    requires !s.panicked && w < |s.jobs| && !Idles(s.jobs[w]) && |s.readers| + w < |s.uses.pcs|
    requires s.uses.pcs[|s.readers| + w].Idle? && s.jobs[w].left[0] in s.uses.cache
    ensures var n := s.jobs[w].left[0];
            Do(s, WorkerLook(w), c, compiles)
              == OneLess(s, w, s.uses.cache, Answer(Replace(n), Some(s.uses.cache[n])))
  {}

  lemma ReplaceMissed(s: State, w: nat, c: Config, compiles: Compiler)
    requires !s.panicked && w < |s.jobs| && !Idles(s.jobs[w]) && |s.readers| + w < |s.uses.pcs|
    requires s.uses.pcs[|s.readers| + w].Idle? && s.jobs[w].left[0] !in s.uses.cache
    requires compiles(Pattern(s.jobs[w].left[0]))
    ensures var n := s.jobs[w].left[0];
            Do(Do(s, WorkerLook(w), c, compiles), WorkerKeep(w), c, compiles)
              == OneLess(s, w, s.uses.cache[n := Pattern(n)], Answer(Replace(n), Some(Pattern(n))))
  {
    var t, n := |s.readers| + w, s.jobs[w].left[0];
    assert s.uses.pcs[t := Missed(Replace(n))][t := Idle] == s.uses.pcs;
  }

  lemma ReplaceOne(s: State, w: nat, c: Config, compiles: Compiler)
    requires Sound(s, c, compiles) && NamesCompile(c, compiles) && w < |s.jobs| && !Idles(s.jobs[w])
    requires s.uses.pcs[|s.readers| + w].Idle?
    ensures var u := Replace(s.jobs[w].left[0]);
            var (answer, cache) := UseOne(s.uses.cache, u, compiles);
            answer.Some?
            && Run(s, [WorkerLook(w), WorkerKeep(w)], c, compiles) == OneLess(s, w, cache, Answer(u, answer))
  {
    RunTwo(s, WorkerLook(w), WorkerKeep(w), c, compiles);
    assert WorkerOk(s.jobs[w], s.uses.pcs[|s.readers| + w], c, compiles);
    if s.jobs[w].left[0] in s.uses.cache {
      ReplaceFound(s, w, c, compiles);
      NothingToKeep(Do(s, WorkerLook(w), c, compiles), w, c, compiles);
    } else {
      ReplaceMissed(s, w, c, compiles);
    }
  }

  // A word keeps what it has; if it has nothing, it may get this.
  predicate Keeps(before: Entries, after: Entries, v: string, meant: string) {
    if v in before then v in after && after[v] == before[v] else v in after ==> after[v] == meant
  }

  // The answers for a word are what is kept under it.
  predicate Agrees(task: Task, given: seq<Option<string>>, v: string, cache: Entries) {
    task.Task? ==> forall p :: 0 <= p < |given| && p < |task.exprs| && task.exprs[p] == v && given[p].Some? ==>
      v in cache && given[p].value == cache[v]
  }

  // A reader that has read the rest of its record, by itself.
  ghost predicate ReadOn(s: State, s': State, t: nat, v: string, c: Config, compiles: Compiler)
    requires t < |s.readers| && s.readers[t].record < |c.tasks|
  {
    var r, task := s.readers[t], c.tasks[s.readers[t].record];
    |s'.readers| == |s.readers| && s'.readers == s.readers[t := s'.readers[t]]
    && s'.jobs == s.jobs && s'.uses.pcs == s.uses.pcs
    && Keeps(s.uses.cache, s'.uses.cache, v, v)
    && (Reaches(task, v, compiles) ==> v in s'.uses.cache)
    && (v in s'.uses.cache ==> v in s.uses.cache || Reaches(task, v, compiles))
    && if Sent(task, compiles) then
         s'.made == s.made && s'.readers[t] == r.(given := s'.readers[t].given) && Complete(s'.readers[t], c)
         && Agrees(task, s'.readers[t].given, v, s'.uses.cache)
       else
         s'.readers[t] == Reader(r.passes, r.record + 1, [])
         && s'.made != [] && s'.made[|s'.made| - 1].record == r.record
         && Agrees(task, s'.made[|s'.made| - 1].given, v, s'.uses.cache)
  }

  // The reader is in the middle of a record, with what is kept for the answers it has.
  ghost predicate MidRecord(s: State, t: nat, v: string, c: Config, compiles: Compiler) {
    Sound(s, c, compiles) && t < |s.readers| && s.uses.pcs[t].Idle?
    && s.readers[t].record < |c.tasks| && c.tasks[s.readers[t].record].Task?
    && Agrees(c.tasks[s.readers[t].record], s.readers[t].given, v, s.uses.cache)
  }

  lemma ReadEnd(s: State, t: nat, v: string, c: Config, compiles: Compiler)
    requires MidRecord(s, t, v, c, compiles) && !Decodes(s.readers[t], c)
    ensures ReadOn(s, s, t, v, c, compiles)
  {
    var r, task := s.readers[t], c.tasks[s.readers[t].record];
    assert s.readers == s.readers[t := r];
    if Reaches(task, v, compiles) {
      var q :| 0 <= q < |task.exprs| && ReachesAt(task, v, q, compiles);
      assert r.given[q].Some?;
    }
  }

  lemma ReadFails(s: State, t: nat, v: string, c: Config, compiles: Compiler)
    requires MidRecord(s, t, v, c, compiles) && Decodes(s.readers[t], c)
    requires !compiles(Key(NextUse(s.readers[t], c)))
    ensures ReadOn(s, Advanced(s, t, s.uses.cache, NextUse(s.readers[t], c), None), t, v, c, compiles)
  {
    var r, task := s.readers[t], c.tasks[s.readers[t].record];
    if Reaches(task, v, compiles) {
      var q :| 0 <= q < |task.exprs| && ReachesAt(task, v, q, compiles);
      assert r.given[q].Some?;
    }
  }

  lemma ReadOneMore(s: State, t: nat, v: string, cache: Entries, answer: string, s': State, c: Config,
                    compiles: Compiler)
    requires MidRecord(s, t, v, c, compiles) && Decodes(s.readers[t], c)
    requires (Some(answer), cache) == UseOne(s.uses.cache, NextUse(s.readers[t], c), compiles)
    requires ReadOn(Advanced(s, t, cache, NextUse(s.readers[t], c), Some(answer)), s', t, v, c, compiles)
    ensures ReadOn(s, s', t, v, c, compiles)
  {
    var r, task := s.readers[t], c.tasks[s.readers[t].record];
    assert Key(NextUse(r, c)) in s.uses.cache || ReachesAt(task, task.exprs[|r.given|], |r.given|, compiles);
    assert s.readers[t := s'.readers[t]] == s'.readers;
  }

  lemma {:induction false} ReadRest(s: State, t: nat, v: string, c: Config, compiles: Compiler) returns (es: seq<Event>)
    requires NamesCompile(c, compiles) && MidRecord(s, t, v, c, compiles)
    ensures ReadOn(s, Run(s, es, c, compiles), t, v, c, compiles)
    decreases |c.tasks[s.readers[t].record].exprs| - |s.readers[t].given|
  {
    var r := s.readers[t];
    if !Decodes(r, c) {
      ReadEnd(s, t, v, c, compiles);
      es := [];
    } else {
      var first := [ReaderLook(t), ReaderKeep(t)];
      var (answer, cache) := UseOne(s.uses.cache, NextUse(r, c), compiles);
      DecodeOne(s, t, c, compiles);
      SoundRun(s, first, c, compiles);
      if answer.None? {
        ReadFails(s, t, v, c, compiles);
        es := first;
      } else {
        var rest := ReadRest(Run(s, first, c, compiles), t, v, c, compiles);
        es := first + rest;
        RunAppend(s, first, rest, c, compiles);
        ReadOneMore(s, t, v, cache, answer.value, Run(s, es, c, compiles), c, compiles);
      }
    }
  }

  // What a decoder that nobody interrupts is given for the expressions, up to the first that does not
  // compile and is not there, and the cache it leaves.
  function GivenFor(cache: Entries, exprs: seq<string>, compiles: Compiler): (r: (seq<Option<string>>, Entries))
    ensures |r.0| <= |exprs|
    decreases |exprs|
  {
    if exprs == [] then ([], cache)
    else
      var (answer, cache') := UseOne(cache, Decode(exprs[0]), compiles);
      if answer.None? then ([None], cache')
      else
        var (more, last) := GivenFor(cache', exprs[1..], compiles);
        ([answer] + more, last)
  }

  predicate CutOff(given: seq<Option<string>>) { given != [] && given[|given| - 1].None? }

  // A reader that has been given this for the rest of its record.
  predicate GivenRest(s: State, s': State, t: nat, given: seq<Option<string>>, cache: Entries)
    requires t < |s.readers|
  {
    var r := s.readers[t];
    s'.uses.cache == cache && |s'.readers| == |s.readers|
    && if CutOff(given) then s'.made == s.made + [Made(r.record, r.given + given)]
       else s'.made == s.made && s'.readers[t] == r.(given := r.given + given)
  }

  lemma GivenNothing(s: State, t: nat)
    requires t < |s.readers|
    ensures GivenRest(s, s, t, [], s.uses.cache)
  {
    assert s.readers[t].given + [] == s.readers[t].given;
  }

  lemma GivenNext(s: State, s': State, t: nat, cache: Entries, u: Use, answer: string, more: seq<Option<string>>,
                  last: Entries)
    requires t < |s.readers| && (forall p :: 0 <= p < |more| && more[p].None? ==> p == |more| - 1)
    requires GivenRest(Advanced(s, t, cache, u, Some(answer)), s', t, more, last)
    ensures GivenRest(s, s', t, [Some(answer)] + more, last)
  {
    var given := s.readers[t].given;
    Reassociate(given, [Some(answer)], more);
  }

  lemma {:induction false} GivenShape(cache: Entries, exprs: seq<string>, compiles: Compiler)
    ensures var given := GivenFor(cache, exprs, compiles).0;
            (forall p :: 0 <= p < |given| && given[p].None? ==> p == |given| - 1)
            && (!CutOff(given) ==> |given| == |exprs|)
    decreases |exprs|
  {
    if exprs != [] {
      var (answer, cache') := UseOne(cache, Decode(exprs[0]), compiles);
      GivenShape(cache', exprs[1..], compiles);
    }
  }

  // Left to itself, a reader is given just that.
  lemma {:induction false} ReadAlone(s: State, t: nat, c: Config, compiles: Compiler) returns (es: seq<Event>)
    requires NamesCompile(c, compiles) && Sound(s, c, compiles) && t < |s.readers| && s.uses.pcs[t].Idle?
    requires s.readers[t].record < |c.tasks| && c.tasks[s.readers[t].record].Task?
    ensures var r := s.readers[t];
            var (given, cache) := GivenFor(s.uses.cache, c.tasks[r.record].exprs[|r.given|..], compiles);
            GivenRest(s, Run(s, es, c, compiles), t, given, cache)
    decreases |c.tasks[s.readers[t].record].exprs| - |s.readers[t].given|
  {
    var r := s.readers[t];
    var exprs := c.tasks[r.record].exprs[|r.given|..];
    if exprs == [] {
      es := [];
      GivenNothing(s, t);
    } else {
      var first := [ReaderLook(t), ReaderKeep(t)];
      var u := NextUse(r, c);
      var (answer, cache) := UseOne(s.uses.cache, u, compiles);
      assert u == Decode(exprs[0]) && exprs[1..] == c.tasks[r.record].exprs[|r.given| + 1..];
      DecodeOne(s, t, c, compiles);
      SoundRun(s, first, c, compiles);
      if answer.None? {
        es := first;
      } else {
        var rest := ReadAlone(Run(s, first, c, compiles), t, c, compiles);
        es := first + rest;
        RunAppend(s, first, rest, c, compiles);
        var (more, last) := GivenFor(cache, exprs[1..], compiles);
        GivenShape(cache, exprs[1..], compiles);
        GivenNext(s, Run(s, es, c, compiles), t, cache, u, answer.value, more, last);
      }
    }
  }

  // A worker that has replaced the rest of its variables, by itself.
  ghost predicate WorkedOn(s: State, s': State, w: nat, v: string)
    requires w < |s.jobs| && s.jobs[w].Job?
  {
    s'.readers == s.readers && s'.made == s.made && s'.uses.pcs == s.uses.pcs
    && s'.jobs == s.jobs[w := s.jobs[w].(left := [])]
    && Keeps(s.uses.cache, s'.uses.cache, v, Pattern(v))
    && (v in s'.uses.cache <==> v in s.uses.cache || v in s.jobs[w].left)
    && (v in s.jobs[w].left ==> Answer(Replace(v), Some(s'.uses.cache[v])) in s'.uses.log)
    && s.uses.log <= s'.uses.log
  }

  lemma WorkedOneMore(s: State, w: nat, v: string, cache: Entries, answer: string, s': State, compiles: Compiler)
    requires w < |s.jobs| && s.jobs[w].Job? && s.jobs[w].left != []
    requires (Some(answer), cache) == UseOne(s.uses.cache, Replace(s.jobs[w].left[0]), compiles)
    requires WorkedOn(OneLess(s, w, cache, Answer(Replace(s.jobs[w].left[0]), Some(answer))), s', w, v)
    ensures WorkedOn(s, s', w, v)
  {
    var u := Replace(s.jobs[w].left[0]);
    assert Answer(u, Some(answer)) in s.uses.log + [Answer(u, Some(answer))];
  }

  lemma {:induction false} WorkRest(s: State, w: nat, v: string, c: Config, compiles: Compiler) returns (es: seq<Event>)
    requires Sound(s, c, compiles) && NamesCompile(c, compiles) && w < |s.jobs| && s.jobs[w].Job?
    requires s.uses.pcs[|s.readers| + w].Idle?
    ensures WorkedOn(s, Run(s, es, c, compiles), w, v)
    decreases |s.jobs[w].left|
  {
    if s.jobs[w].left == [] {
      es := [];
    } else {
      var first := [WorkerLook(w), WorkerKeep(w)];
      var (answer, cache) := UseOne(s.uses.cache, Replace(s.jobs[w].left[0]), compiles);
      ReplaceOne(s, w, c, compiles);
      SoundRun(s, first, c, compiles);
      var rest := WorkRest(Run(s, first, c, compiles), w, v, c, compiles);
      es := first + rest;
      RunAppend(s, first, rest, c, compiles);
      WorkedOneMore(s, w, v, cache, answer.value, Run(s, es, c, compiles), compiles);
    }
  }

  // ---------------------------------------------------------------- record after record

  // The first reader is about to read a record, in its first pass, and nobody is between two steps.
  ghost predicate Ready(s: State, i: nat, c: Config, compiles: Compiler) {
    Sound(s, c, compiles) && 0 < |s.readers| && s.readers[0] == Reader(0, i, [])
    && forall t :: 0 <= t < |s.uses.pcs| ==> s.uses.pcs[t].Idle?
  }

  // One record is read and, if it can be, sent to a worker, which may put off its replacements.
  ghost predicate OneRecord(s: State, s': State, i: nat, w: nat, hold: bool, v: string, c: Config, compiles: Compiler)
    requires i < |c.tasks| && w < |s.jobs|
  {
    var task, before, after := c.tasks[i], s.uses.cache, s'.uses.cache;
    Ready(s', i + 1, c, compiles)
    && (v in before ==> v in after && after[v] == before[v])
    && (v !in before && Reaches(task, v, compiles) ==> v in after && after[v] == v)
    && (v !in before && !Reaches(task, v, compiles) ==>
          if !hold && Refers(task, v, compiles) then v in after && after[v] == Pattern(v) else v !in after)
    && (!hold && Refers(task, v, compiles) ==> v in after && Answer(Replace(v), Some(after[v])) in s'.uses.log)
    && s'.jobs == (if Sent(task, compiles) then s.jobs[w := Job(i, if hold then task.names else [])] else s.jobs)
    && s'.made != [] && s'.made[|s'.made| - 1].record == i
    && Agrees(task, s'.made[|s'.made| - 1].given, v, after)
  }

  lemma ReadAndHold(s: State, i: nat, w: nat, v: string, c: Config, compiles: Compiler) returns (es: seq<Event>)
    requires NamesCompile(c, compiles) && Ready(s, i, c, compiles) && i < |c.tasks|
    requires w < |s.jobs| && (c.own ==> w == 0) && (Sent(c.tasks[i], compiles) ==> Idles(s.jobs[w]))
    ensures OneRecord(s, Run(s, es, c, compiles), i, w, true, v, c, compiles)
  {
    if c.tasks[i].Refused? {
      es := [ReaderLook(0)];
      SoundRun(s, es, c, compiles);
    } else {
      es := ReadRest(s, 0, v, c, compiles);
      SoundRun(s, es, c, compiles);
      if Sent(c.tasks[i], compiles) {
        var s1, send := Run(s, es, c, compiles), [Send(0, w)];
        SoundRun(s1, send, c, compiles);
        RunAppend(s, es, send, c, compiles);
        es := es + send;
      }
    }
  }

  lemma JobsWorked(s: State, s1: State, s2: State, i: nat, w: nat, v: string, names: seq<string>)
    requires w < |s.jobs| && s1.jobs == s.jobs[w := Job(i, names)] && WorkedOn(s1, s2, w, v)
    ensures s2.jobs == s.jobs[w := Job(i, [])]
    ensures v in s2.uses.cache <==> v in s1.uses.cache || v in names
    ensures v in names ==> Answer(Replace(v), Some(s2.uses.cache[v])) in s2.uses.log
  {}

  lemma StillReady(s1: State, s2: State, i: nat, w: nat, v: string, c: Config, compiles: Compiler)
    requires Ready(s1, i, c, compiles) && Sound(s2, c, compiles)
    requires w < |s1.jobs| && s1.jobs[w].Job? && WorkedOn(s1, s2, w, v)
    ensures Ready(s2, i, c, compiles) && s2.made == s1.made
    ensures Keeps(s1.uses.cache, s2.uses.cache, v, Pattern(v))
  {}

  lemma AgreesStill(task: Task, given: seq<Option<string>>, v: string, before: Entries, after: Entries)
    requires Agrees(task, given, v, before) && (v in before ==> v in after && after[v] == before[v])
    ensures Agrees(task, given, v, after)
  {}

  lemma WorkDone(s: State, s1: State, s2: State, i: nat, w: nat, v: string, c: Config, compiles: Compiler)
    requires i < |c.tasks| && w < |s.jobs| && OneRecord(s, s1, i, w, true, v, c, compiles)
    requires Sent(c.tasks[i], compiles) && WorkedOn(s1, s2, w, v) && Sound(s2, c, compiles)
    ensures OneRecord(s, s2, i, w, false, v, c, compiles)
  {
    JobsWorked(s, s1, s2, i, w, v, c.tasks[i].names);
    StillReady(s1, s2, i + 1, w, v, c, compiles);
    AgreesStill(c.tasks[i], s1.made[|s1.made| - 1].given, v, s1.uses.cache, s2.uses.cache);
  }

  lemma ReadAndWork(s: State, i: nat, w: nat, v: string, c: Config, compiles: Compiler) returns (es: seq<Event>)
    requires NamesCompile(c, compiles) && Ready(s, i, c, compiles) && i < |c.tasks|
    requires w < |s.jobs| && (c.own ==> w == 0) && (Sent(c.tasks[i], compiles) ==> Idles(s.jobs[w]))
    ensures OneRecord(s, Run(s, es, c, compiles), i, w, false, v, c, compiles)
  {
    es := ReadAndHold(s, i, w, v, c, compiles);
    if Sent(c.tasks[i], compiles) {
      var s1 := Run(s, es, c, compiles);
      var work := WorkRest(s1, w, v, c, compiles);
      SoundRun(s1, work, c, compiles);
      WorkDone(s, s1, Run(s1, work, c, compiles), i, w, v, c, compiles);
      RunAppend(s, es, work, c, compiles);
      es := es + work;
    }
  }


  lemma ReadyAtStart(c: Config, compiles: Compiler)
    requires NamesCompile(c, compiles) && c.workers > 0
    ensures Ready(Start(c), 0, c, compiles)
  {
    SoundFromStart([], c, compiles);
  }

  // The first reader and the first worker take records 0 to i one after the other.
  lemma {:induction false} WorkThrough(c: Config, v: string, i: nat, compiles: Compiler) returns (es: seq<Event>)
    requires NamesCompile(c, compiles) && c.workers > 0 && i < |c.tasks|
    ensures var s := Run(Start(c), es, c, compiles);
            Ready(s, i + 1, c, compiles) && Idles(s.jobs[0]) && s.made != [] && s.made[|s.made| - 1].record == i
            && (Refers(c.tasks[i], v, compiles) ==> exists r :: Answer(Replace(v), r) in s.uses.log)
  {
    ReadyAtStart(c, compiles);
    var front := [];
    if i > 0 { front := WorkThrough(c, v, i - 1, compiles); }
    var s := Run(Start(c), front, c, compiles);
    var one := ReadAndWork(s, i, 0, v, c, compiles);
    Worked(s, Run(s, one, c, compiles), i, v, c, compiles);
    RunAppend(Start(c), front, one, c, compiles);
    es := front + one;
  }

  lemma Worked(s: State, s': State, i: nat, v: string, c: Config, compiles: Compiler)
    requires i < |c.tasks| && 0 < |s.jobs| && Idles(s.jobs[0]) && OneRecord(s, s', i, 0, false, v, c, compiles)
    ensures Ready(s', i + 1, c, compiles) && 0 < |s'.jobs| && Idles(s'.jobs[0])
    ensures s'.made != [] && s'.made[|s'.made| - 1].record == i
    ensures Refers(c.tasks[i], v, compiles) ==> exists r :: Answer(Replace(v), r) in s'.uses.log
  {}

  // ---------------------------------------------------------------- exactly when decoding goes wrong

  // A record refers to the word, and none up to it decodes it.
  predicate ReferredFirst(c: Config, e: string, j: nat, compiles: Compiler) {
    j < |c.tasks| && Refers(c.tasks[j], e, compiles) && forall i :: 0 <= i <= j ==> !Reaches(c.tasks[i], e, compiles)
  }

  // After i records, with the pattern kept from record j on.
  ghost predicate PatternKept(s: State, e: string, j: nat, i: nat, c: Config, compiles: Compiler) {
    Ready(s, i, c, compiles) && c.workers > 0 && Idles(s.jobs[0])
    && (e in s.uses.cache ==> s.uses.cache[e] == Pattern(e)) && (i > j ==> e in s.uses.cache)
  }

  lemma PatternStays(s: State, s': State, e: string, j: nat, i: nat, c: Config, compiles: Compiler)
    requires PatternKept(s, e, j, i, c, compiles) && i < |c.tasks| && ReferredFirst(c, e, j, compiles)
    requires OneRecord(s, s', i, 0, false, e, c, compiles)
    ensures PatternKept(s', e, j, i + 1, c, compiles)
  {}

  // The first reader and the first worker read one record after the other.
  lemma {:induction false} PatternFirst(c: Config, e: string, j: nat, i: nat, compiles: Compiler)
    returns (es: seq<Event>)
    requires NamesCompile(c, compiles) && c.workers > 0 && ReferredFirst(c, e, j, compiles) && i <= |c.tasks|
    ensures PatternKept(Run(Start(c), es, c, compiles), e, j, i, c, compiles)
  {
    if i == 0 {
      es := [];
      ReadyAtStart(c, compiles);
    } else {
      var front := PatternFirst(c, e, j, i - 1, compiles);
      var s := Run(Start(c), front, c, compiles);
      var one := ReadAndWork(s, i - 1, 0, e, c, compiles);
      PatternStays(s, Run(s, one, c, compiles), e, j, i - 1, c, compiles);
      RunAppend(Start(c), front, one, c, compiles);
      es := front + one;
    }
  }

  lemma CutShort(m: Made, c: Config, compiles: Compiler)
    requires MadeOk(m, c, compiles) && c.tasks[m.record].Task? && |m.given| < |c.tasks[m.record].exprs|
    ensures m.given != [] && !compiles(c.tasks[m.record].exprs[|m.given| - 1])
  {
    assert m.given[|m.given| - 1].None?;
  }

  lemma ReachedIsGiven(m: Made, e: string, q: nat, c: Config, compiles: Compiler)
    requires MadeOk(m, c, compiles) && ReachesAt(c.tasks[m.record], e, q, compiles)
    ensures q < |m.given| && m.given[q].Some?
  {
    if |m.given| < |c.tasks[m.record].exprs| { CutShort(m, c, compiles); }
  }

  lemma ReachesNow(r: Reader, pc: PC, c: Config, compiles: Compiler)
    requires ReaderOk(r, pc, c, compiles) && Decodes(r, c)
    ensures compiles(NextUse(r, c).text) ==> Reaches(c.tasks[r.record], NextUse(r, c).text, compiles)
  {
    if compiles(NextUse(r, c).text) { assert ReachesAt(c.tasks[r.record], NextUse(r, c).text, |r.given|, compiles); }
  }

  lemma ReachedCompiles(task: Task, e: string, compiles: Compiler)
    requires Reaches(task, e, compiles)
    ensures compiles(e)
  {
    var q :| 0 <= q < |task.exprs| && ReachesAt(task, e, q, compiles);
  }

  lemma AgreesSays(task: Task, given: seq<Option<string>>, e: string, cache: Entries, r: string)
    requires Agrees(task, given, e, cache) && (e in cache ==> cache[e] == r)
    ensures Says(task, given, e, r)
  {}

  lemma PatternNext(s: State, s': State, e: string, j: nat, k: nat, c: Config, compiles: Compiler) returns (m: Made)
    requires PatternKept(s, e, j, k, c, compiles) && k < |c.tasks| && ReferredFirst(c, e, j, compiles)
    requires Reaches(c.tasks[k], e, compiles) && OneRecord(s, s', k, 0, false, e, c, compiles)
    ensures m in s'.made && m.record == k && Says(c.tasks[k], m.given, e, Pattern(e))
  {
    m := s'.made[|s'.made| - 1];
    AgreesSays(c.tasks[k], m.given, e, s'.uses.cache, Pattern(e));
  }

  lemma PatternGiven(c: Config, e: string, j: nat, k: nat, compiles: Compiler) returns (es: seq<Event>, m: Made)
    requires NamesCompile(c, compiles) && c.workers > 0 && ReferredFirst(c, e, j, compiles)
    requires k < |c.tasks| && Reaches(c.tasks[k], e, compiles)
    ensures m in Run(Start(c), es, c, compiles).made && m.record == k && Says(c.tasks[k], m.given, e, Pattern(e))
  {
    var front := PatternFirst(c, e, j, k, compiles);
    var s := Run(Start(c), front, c, compiles);
    var one := ReadAndWork(s, k, 0, e, c, compiles);
    m := PatternNext(s, Run(s, one, c, compiles), e, j, k, c, compiles);
    RunAppend(Start(c), front, one, c, compiles);
    es := front + one;
  }

  // Whatever record k is given for the expression, it is that expression.
  ghost predicate DecodedRight(c: Config, k: nat, e: string, compiles: Compiler)
    requires k < |c.tasks|
  {
    forall es, m :: m in Run(Start(c), es, c, compiles).made && m.record == k ==> Says(c.tasks[k], m.given, e, e)
  }

  lemma {:induction false} FirstOfReaching(c: Config, e: string, k: nat, compiles: Compiler) returns (f: nat)
    requires k < |c.tasks| && Reaches(c.tasks[k], e, compiles)
    ensures f <= k && FirstReach(c, e, f, compiles)
  {
    if i :| 0 <= i < k && Reaches(c.tasks[i], e, compiles) {
      f := FirstOfReaching(c, e, i, compiles);
    } else {
      f := k;
    }
  }

  lemma FirstIsFirst(c: Config, e: string, f: nat, compiles: Compiler) returns (q: nat)
    requires FirstReach(c, e, f, compiles) && forall j :: 0 <= j < |c.tasks| ==> !ReferredFirst(c, e, j, compiles)
    ensures ComesFirst(c, e, f, q, compiles)
  {
    q :| 0 <= q < |c.tasks[f].exprs| && ReachesAt(c.tasks[f], e, q, compiles);
    forall j | 0 <= j < f ensures !Refers(c.tasks[j], e, compiles) { assert !ReferredFirst(c, e, j, compiles); }
  }

  // A record that decodes an expression is given that expression in every run if and only if no record
  // before the first that decodes it refers to a variable of that name.
  lemma DecodedRightIff(c: Config, k: nat, e: string, compiles: Compiler)
    requires NamesCompile(c, compiles) && c.workers > 0 && k < |c.tasks| && Reaches(c.tasks[k], e, compiles)
    ensures DecodedRight(c, k, e, compiles) <==> forall j :: 0 <= j < |c.tasks| ==> !ReferredFirst(c, e, j, compiles)
  {
    if j :| 0 <= j < |c.tasks| && ReferredFirst(c, e, j, compiles) {
      var q :| 0 <= q < |c.tasks[k].exprs| && ReachesAt(c.tasks[k], e, q, compiles);
      var es, m := PatternGiven(c, e, j, k, compiles);
      SoundFromStart(es, c, compiles);
      ReachedIsGiven(m, e, q, c, compiles);
      assert |Pattern(e)| > |e|;
    } else {
      var f := FirstOfReaching(c, e, k, compiles);
      var q := FirstIsFirst(c, e, f, compiles);
      forall es, m | m in Run(Start(c), es, c, compiles).made && m.record == k ensures Says(c.tasks[k], m.given, e, e) {
        EarlyInEveryRun(es, e, f, q, c, compiles);
      }
    }
  }

  // ---------------------------------------------------------------- one of the runs in any order

  // What an event does to the cache.
  function OnCache(s: State, e: Event, c: Config): seq<RegexCache.Event> {
    if s.panicked then []
    else
      match e
      case ReaderLook(t) =>
        if t < |s.readers| && Decodes(s.readers[t], c) then [Look(t, NextUse(s.readers[t], c))] else []
      case ReaderKeep(t) => if t < |s.readers| then [Keep(t)] else []
      case Send(_, _) => []
      case WorkerLook(w) =>
        if w < |s.jobs| && !Idles(s.jobs[w]) then [Look(|s.readers| + w, Replace(s.jobs[w].left[0]))] else []
      case WorkerKeep(w) => if w < |s.jobs| && !Idles(s.jobs[w]) then [Keep(|s.readers| + w)] else []
  }

  function AllOnCache(s: State, es: seq<Event>, c: Config, compiles: Compiler): seq<RegexCache.Event>
    decreases |es|
  {
    if es == [] then [] else OnCache(s, es[0], c) + AllOnCache(Do(s, es[0], c, compiles), es[1..], c, compiles)
  }

  function VocabularyOfTasks(c: Config): Vocabulary {
    Vocabulary(set i, e | 0 <= i < |c.tasks| && c.tasks[i].Task? && e in c.tasks[i].exprs :: e,
               set i, n | 0 <= i < |c.tasks| && c.tasks[i].Task? && n in c.tasks[i].names :: n)
  }

  lemma OnCacheIs(s: State, e: Event, c: Config, compiles: Compiler)
    requires Sound(s, c, compiles)
    ensures Do(s, e, c, compiles).uses == RegexCache.Run(s.uses, OnCache(s, e, c), compiles)
    ensures AllWithin(OnCache(s, e, c), VocabularyOfTasks(c))
  {
    var es := OnCache(s, e, c);
    if es != [] {
      assert es[1..] == [];
      assert RegexCache.Run(s.uses, es, compiles)
          == RegexCache.Run(RegexCache.Do(s.uses, es[0], compiles), [], compiles);
    }
    if e.ReaderLook? && es != [] {
      assert NextUse(s.readers[e.t], c).text in c.tasks[s.readers[e.t].record].exprs;
    }
    if e.WorkerLook? && es != [] {
      assert WorkerOk(s.jobs[e.w], s.uses.pcs[|s.readers| + e.w], c, compiles);
      assert s.jobs[e.w].left[0] in c.tasks[s.jobs[e.w].record].names;
    }
  }

  lemma RunFirst(u: RegexCache.State, first: seq<RegexCache.Event>, rest: seq<RegexCache.Event>, compiles: Compiler)
    requires |first| <= 1
    ensures RegexCache.Run(u, first + rest, compiles)
         == RegexCache.Run(RegexCache.Run(u, first, compiles), rest, compiles)
  {
    if first == [] {
      assert first + rest == rest;
    } else {
      assert first[1..] == [] && (first + rest)[0] == first[0] && (first + rest)[1..] == rest;
      assert RegexCache.Run(u, first, compiles) == RegexCache.Run(RegexCache.Do(u, first[0], compiles), [], compiles);
    }
  }

  lemma WithinBoth(a: seq<RegexCache.Event>, b: seq<RegexCache.Event>, v: Vocabulary)
    requires AllWithin(a, v) && AllWithin(b, v)
    ensures AllWithin(a + b, v)
  {}

  // Every run in the order of the records is, for the cache, one of the runs in any order.
  lemma {:induction false} OrderedIsRun(s: State, es: seq<Event>, c: Config, compiles: Compiler)
    requires Sound(s, c, compiles) && NamesCompile(c, compiles)
    ensures Run(s, es, c, compiles).uses == RegexCache.Run(s.uses, AllOnCache(s, es, c, compiles), compiles)
    ensures AllWithin(AllOnCache(s, es, c, compiles), VocabularyOfTasks(c))
    decreases |es|
  {
    if es != [] {
      var s1, first := Do(s, es[0], c, compiles), OnCache(s, es[0], c);
      SoundStep(s, es[0], c, compiles);
      OnCacheIs(s, es[0], c, compiles);
      OrderedIsRun(s1, es[1..], c, compiles);
      RunFirst(s.uses, first, AllOnCache(s1, es[1..], c, compiles), compiles);
      WithinBoth(first, AllOnCache(s1, es[1..], c, compiles), VocabularyOfTasks(c));
    }
  }
}
