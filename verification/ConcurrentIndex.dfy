/** Any number of threads interning strings at once: the unlocked lookup, the lock, the second lookup
    under it, and the steps that grow the index, publish the number and append to the file. */
module ConcurrentIndex {
  import opened Prelude
  import opened StrIndex

  // Where a thread stands inside Idx.
  datatype PC =
    | Idle
    | Missed(str: string)                 // the unlocked lookup found nothing
    | Locked(str: string)                 // holds the lock, has not looked again
    | Grown(str: string, number: nat)     // the index has the string, the mapping not yet
    | Published(str: string, number: nat) // the mapping has it too, the file not yet

  datatype Answer = Answer(str: string, number: nat)

  datatype State = State(
    table: Table,
    lines: seq<string>,    // complete lines of the strings file
    lock: Option<nat>,
    pcs: seq<PC>,
    answers: seq<Answer>)  // what the calls of Idx have returned so far

  datatype Event = Lookup(t: nat, str: string) | Acquire(t: nat) | Recheck(t: nat) | Publish(t: nat) | WriteLine(t: nat)

  // One atomic step; an event that is not enabled changes nothing.
  function Do(s: State, e: Event): State {
    if e.t >= |s.pcs| then s
    else
      var pc := s.pcs[e.t];
      match e
      case Lookup(t, str) =>
        if !pc.Idle? then s
        else if str in s.table.mapping then Return(s, t, str, s.table.mapping[str], s.lock)
        else s.(pcs := s.pcs[t := Missed(str)])
      case Acquire(t) =>
        if pc.Missed? && s.lock.None? then s.(lock := Some(t), pcs := s.pcs[t := Locked(pc.str)]) else s
      case Recheck(t) =>
        if !pc.Locked? then s
        else if pc.str in s.table.mapping then Return(s, t, pc.str, s.table.mapping[pc.str], None)
        else s.(table := s.table.(index := s.table.index + [pc.str]),
                pcs := s.pcs[t := Grown(pc.str, |s.table.index| % CAPACITY)])
      case Publish(t) =>
        if !pc.Grown? then s
        else s.(table := s.table.(mapping := s.table.mapping[pc.str := pc.number]),
                pcs := s.pcs[t := Published(pc.str, pc.number)])
      case WriteLine(t) =>
        if !pc.Published? then s
        else Return(s.(lines := s.lines + [pc.str]), t, pc.str, pc.number, None)
  }

  function Return(s: State, t: nat, str: string, number: nat, lock: Option<nat>): State
    requires t < |s.pcs|
  {
    s.(lock := lock, pcs := s.pcs[t := Idle], answers := s.answers + [Answer(str, number)])
  }

  function Run(s: State, es: seq<Event>): State
    decreases |es|
  {
    if es == [] then s else Run(Do(s, es[0]), es[1..])
  }

  // All threads idle, the table read from the file.
  ghost predicate Initial(s: State) {
    Good(s.table) && s.table.index == [""] + s.lines
    && s.lock.None? && s.answers == []
    && forall t :: 0 <= t < |s.pcs| ==> s.pcs[t].Idle?
  }

  // ---------------------------------------------------------------- the invariant

  ghost predicate HoldsLock(pc: PC) { pc.Locked? || pc.Grown? || pc.Published? }

  // What must hold of a thread in its critical section.
  ghost predicate Section(s: State, pc: PC) {
    match pc
    case Locked(_) => Settled(s)
    case Grown(str, number) =>
      number == |s.table.index| - 1 && s.table.index == [""] + s.lines + [str]
      && str !in s.table.mapping
      && forall i :: 0 <= i < number ==> s.table.index[i] in s.table.mapping
    case Published(str, number) =>
      number == |s.table.index| - 1 && s.table.index == [""] + s.lines + [str]
      && str in s.table.mapping && s.table.mapping[str] == number && AllMapped(s)
    case _ => true
  }

  ghost predicate AllMapped(s: State) {
    forall i :: 0 <= i < |s.table.index| ==> s.table.index[i] in s.table.mapping
  }

  // Index and file agree.
  ghost predicate Settled(s: State) {
    s.table.index == [""] + s.lines && AllMapped(s)
  }

  ghost predicate Inverse(t: Table) {
    forall x :: x in t.mapping ==> t.mapping[x] < |t.index| && t.index[t.mapping[x]] == x
  }

  ghost predicate Exclusive(s: State) {
    (s.lock.Some? ==> s.lock.value < |s.pcs| && HoldsLock(s.pcs[s.lock.value]))
    && forall t :: 0 <= t < |s.pcs| && HoldsLock(s.pcs[t]) ==> s.lock == Some(t)
  }

  ghost predicate AnswersRight(s: State) {
    forall a :: a in s.answers ==> a.str in s.table.mapping && s.table.mapping[a.str] == a.number
  }

  ghost predicate Inv(s: State) {
    s.table.index != [] && Inverse(s.table) && Exclusive(s) && AnswersRight(s)
    && (if s.lock.Some? then Section(s, s.pcs[s.lock.value]) else Settled(s))
  }

  lemma InitialInv(s: State)
    requires Initial(s)
    ensures Inv(s)
  {}

  lemma RecheckKeeps(s: State, t: nat)
    requires Inv(s) && t < |s.pcs| && s.pcs[t].Locked? && |Do(s, Recheck(t)).table.index| <= CAPACITY
    ensures Inv(Do(s, Recheck(t)))
  {}

  lemma PublishKeeps(s: State, t: nat)
    requires Inv(s) && t < |s.pcs| && s.pcs[t].Grown?
    ensures Inv(Do(s, Publish(t)))
  {}

  lemma WriteLineKeeps(s: State, t: nat)
    requires Inv(s) && t < |s.pcs| && s.pcs[t].Published?
    ensures Inv(Do(s, WriteLine(t)))
  {}

  // One step keeps the invariant while the 16-bit numbers last.
  lemma StepKeeps(s: State, e: Event)
    requires Inv(s) && |Do(s, e).table.index| <= CAPACITY
    ensures Inv(Do(s, e))
  {
    if e.t < |s.pcs| {
      match e
      case Lookup(t, str) =>
      case Acquire(t) =>
      case Recheck(t) => if s.pcs[t].Locked? { RecheckKeeps(s, t); }
      case Publish(t) => if s.pcs[t].Grown? { PublishKeeps(s, t); }
      case WriteLine(t) => if s.pcs[t].Published? { WriteLineKeeps(s, t); }
    }
  }

  // A number assigned is never taken back or changed.
  ghost predicate Extends(t: Table, u: Table) {
    t.index <= u.index
    && forall x :: x in t.mapping ==> x in u.mapping && u.mapping[x] == t.mapping[x]
  }

  lemma StepExtends(s: State, e: Event)
    requires Inv(s)
    ensures Extends(s.table, Do(s, e).table)
  {}

  lemma {:induction false} RunGrows(s: State, es: seq<Event>)
    ensures |s.table.index| <= |Run(s, es).table.index| && |Run(s, es).pcs| == |s.pcs|
    decreases |es|
  {
    if es != [] { RunGrows(Do(s, es[0]), es[1..]); }
  }

  // Whatever the number of threads and however their steps interleave: the mapping is the reverse of
  // the index, answers are right, assigned numbers stay, and with the lock free the file lists the index.
  lemma {:induction false} EveryRunKeepsIndex(s: State, es: seq<Event>)
    requires Inv(s) && |Run(s, es).table.index| <= CAPACITY
    ensures Inv(Run(s, es)) && Extends(s.table, Run(s, es).table)
    decreases |es|
  {
    if es != [] {
      var s' := Do(s, es[0]);
      RunGrows(s', es[1..]);
      StepKeeps(s, es[0]);
      StepExtends(s, es[0]);
      EveryRunKeepsIndex(s', es[1..]);
    }
  }

  // In particular, for any run from a freshly loaded index: what Idx answered reads back through Get,
  // and two different strings were never answered with the same number.
  lemma AnswersReadBack(s: State, es: seq<Event>, a: Answer, b: Answer)
    requires Initial(s) && |Run(s, es).table.index| <= CAPACITY
    requires a in Run(s, es).answers && b in Run(s, es).answers
    ensures a.number < |Run(s, es).table.index| && Run(s, es).table.index[a.number] == a.str
    ensures a.number == b.number <==> a.str == b.str
    ensures Run(s, es).lock.None? ==> Run(s, es).table.index == [""] + Run(s, es).lines
  {
    EveryRunKeepsIndex(s, es);
  }

  // ---------------------------------------------------------------- loading the file again

  // The table is what loading the file gives, apart from the string now being added.
  ghost predicate Rebuilt(s: State) {
    var base := AddAll(EMPTY, s.lines);
    if s.lock.None? || s.lock.value >= |s.pcs| then s.table == base
    else
      match s.pcs[s.lock.value]
      case Grown(str, _) => s.table == Table(base.index + [str], base.mapping)
      case Published(str, _) => s.table == Add(base, str)
      case _ => s.table == base
  }

  lemma StepRebuilt(s: State, e: Event)
    requires Inv(s) && Rebuilt(s) && |Do(s, e).table.index| <= CAPACITY
    ensures Rebuilt(Do(s, e))
  {
    if e.t < |s.pcs| {
      var pc := s.pcs[e.t];
      if HoldsLock(pc) { assert s.lock == Some(e.t); }
      if e.WriteLine? && pc.Published? { AddAllSnoc(EMPTY, s.lines, pc.str); }
    }
  }

  // With the lock free, loading the lines of the file rebuilds the very table in memory, so the
  // threads together did what interning one string after another would have done.
  lemma {:induction false} EveryRunRebuilds(s: State, es: seq<Event>)
    requires Inv(s) && Rebuilt(s) && |Run(s, es).table.index| <= CAPACITY
    ensures Rebuilt(Run(s, es))
    ensures Run(s, es).lock.None? ==> Run(s, es).table == AddAll(EMPTY, Run(s, es).lines)
    decreases |es|
  {
    if es != [] {
      RunGrows(Do(s, es[0]), es[1..]);
      StepKeeps(s, es[0]);
      StepRebuilt(s, es[0]);
      EveryRunRebuilds(Do(s, es[0]), es[1..]);
    }
  }

  // ---------------------------------------------------------------- answers and the file

  // Every number answered so far has its line in the file.
  ghost predicate AnswersVisible(s: State) {
    forall a :: a in s.answers ==> a.number <= |s.lines|
  }

  lemma AloneStepVisible(s: State, e: Event)
    requires Inv(s) && |s.pcs| <= 1 && AnswersVisible(s) && |Do(s, e).table.index| <= CAPACITY
    ensures AnswersVisible(Do(s, e))
  {}

  lemma {:induction false} AloneVisible(s: State, es: seq<Event>)
    requires Inv(s) && |s.pcs| <= 1 && AnswersVisible(s) && |Run(s, es).table.index| <= CAPACITY
    ensures AnswersVisible(Run(s, es))
    decreases |es|
  {
    if es != [] {
      RunGrows(Do(s, es[0]), es[1..]);
      StepKeeps(s, es[0]);
      AloneStepVisible(s, es[0]);
      AloneVisible(Do(s, es[0]), es[1..]);
    }
  }

  lemma RunFront(s: State, e: Event, es: seq<Event>)
    ensures Run(s, [e] + es) == Run(Do(s, e), es)
  {}

  // Thread 0 up to the point where it has published its string but not written it.
  function Publishing(str: string): seq<Event> {
    [Lookup(0, str)] + ([Acquire(0)] + ([Recheck(0)] + ([Publish(0)] + [Lookup(1, str)])))
  }

  // Thread 1 finds the number thread 0 has published but not written yet.
  lemma TwoThreadsOutrunFile(s: State, str: string)
    requires Initial(s) && |s.pcs| >= 2 && |s.table.index| < CAPACITY && str !in s.table.mapping
    ensures !AnswersVisible(Run(s, Publishing(str))) && |Run(s, Publishing(str)).table.index| <= CAPACITY
  {
    var n := |s.table.index|;
    var grown := s.table.index + [str];
    var s1 := s.(pcs := s.pcs[0 := Missed(str)]);
    var s2 := s.(lock := Some(0), pcs := s.pcs[0 := Locked(str)]);
    var s3 := s2.(table := Table(grown, s.table.mapping), pcs := s.pcs[0 := Grown(str, n)]);
    var s4 := s3.(table := Table(grown, s.table.mapping[str := n]), pcs := s.pcs[0 := Published(str, n)]);
    var s5 := s4.(answers := [Answer(str, n)], pcs := s4.pcs[1 := Idle]);
    assert Do(s, Lookup(0, str)) == s1;
    assert Do(s1, Acquire(0)) == s2 by { assert s1.pcs[0 := Locked(str)] == s2.pcs; }
    assert Do(s2, Recheck(0)) == s3 by { assert s2.pcs[0 := Grown(str, n)] == s3.pcs; }
    assert Do(s3, Publish(0)) == s4 by { assert s3.pcs[0 := Published(str, n)] == s4.pcs; }
    assert Do(s4, Lookup(1, str)) == s5;
    RunFront(s, Lookup(0, str), [Acquire(0)] + ([Recheck(0)] + ([Publish(0)] + [Lookup(1, str)])));
    RunFront(s1, Acquire(0), [Recheck(0)] + ([Publish(0)] + [Lookup(1, str)]));
    RunFront(s2, Recheck(0), [Publish(0)] + [Lookup(1, str)]);
    RunFront(s3, Publish(0), [Lookup(1, str)]);
    assert Run(s4, [Lookup(1, str)]) == s5;
    assert Answer(str, n) in s5.answers;
  }

  // The file keeps up with the answers in every run if and only if one thread at most interns.
  lemma FileKeepsUpIff(s: State, str: string)
    requires Initial(s) && |s.table.index| < CAPACITY && str !in s.table.mapping
    ensures |s.pcs| <= 1 <==>
            forall es :: |Run(s, es).table.index| <= CAPACITY ==> AnswersVisible(Run(s, es))
  {
    if |s.pcs| <= 1 {
      forall es | |Run(s, es).table.index| <= CAPACITY ensures AnswersVisible(Run(s, es)) {
        AloneVisible(s, es);
      }
    } else {
      TwoThreadsOutrunFile(s, str);
    }
  }

  // ---------------------------------------------------------------- every call is answered

  // The call of thread t has returned: its last answer is for this string, and reads back.
  ghost predicate Answered(s: State, t: nat, str: string) {
    t < |s.pcs| && s.pcs[t].Idle? && s.answers != [] && s.lock.None?
    && var a := s.answers[|s.answers| - 1]; a.str == str && a.number < |s.table.index| && s.table.index[a.number] == str
  }

  // The other threads are where they were.
  ghost predicate OthersStay(s: State, u: State, t: nat) {
    |u.pcs| == |s.pcs| && forall v :: 0 <= v < |s.pcs| && v != t ==> u.pcs[v] == s.pcs[v]
  }

  function StepsLeft(pc: PC): nat {
    match pc
    case Idle => 0 case Missed(_) => 4 case Locked(_) => 3 case Grown(_, _) => 2 case Published(_, _) => 1
  }

  // How many strings the call may still add.
  function Additions(pc: PC): nat { if pc.Missed? || pc.Locked? then 1 else 0 }

  function NextStep(pc: PC, t: nat): Event {
    if pc.Missed? then Acquire(t) else if pc.Locked? then Recheck(t) else if pc.Grown? then Publish(t) else WriteLine(t)
  }

  lemma CallGoesOn(s: State, t: nat)
    requires t < |s.pcs| && !s.pcs[t].Idle? && (s.pcs[t].Missed? ==> s.lock.None?)
    ensures var u := Do(s, NextStep(s.pcs[t], t));
            OthersStay(s, u, t) && StepsLeft(u.pcs[t]) < StepsLeft(s.pcs[t])
            && |u.table.index| + Additions(u.pcs[t]) <= |s.table.index| + Additions(s.pcs[t])
            && (!u.pcs[t].Idle? ==> u.pcs[t].str == s.pcs[t].str && !u.pcs[t].Missed?)
            && (u.pcs[t].Idle? ==> u.lock.None? && u.answers != [] && u.answers[|u.answers| - 1].str == s.pcs[t].str)
  {}

  // Left alone, a thread that holds the lock, or asks for it while it is free, ends its call and gives it back.
  lemma {:induction false} CallEnds(s: State, t: nat) returns (es: seq<Event>)
    requires Inv(s) && t < |s.pcs| && !s.pcs[t].Idle? && (s.pcs[t].Missed? ==> s.lock.None?)
    requires |s.table.index| + Additions(s.pcs[t]) <= CAPACITY
    ensures var u := Run(s, es);
            Inv(u) && Answered(u, t, s.pcs[t].str) && OthersStay(s, u, t)
            && |u.table.index| <= |s.table.index| + Additions(s.pcs[t])
    decreases StepsLeft(s.pcs[t])
  {
    var e := NextStep(s.pcs[t], t);
    var u := Do(s, e);
    CallGoesOn(s, t);
    StepKeeps(s, e);
    if u.pcs[t].Idle? {
      es := [e];
      assert Run(s, es) == Run(u, []);
      assert u.answers[|u.answers| - 1] in u.answers;
    } else {
      var more := CallEnds(u, t);
      es := [e] + more;
      assert es[0] == e && es[1..] == more;
    }
  }

  lemma {:induction false} RunAppend(s: State, a: seq<Event>, b: seq<Event>)
    ensures Run(s, a + b) == Run(Run(s, a), b)
    decreases |a|
  {
    if a == [] {
      assert a + b == b;
    } else {
      assert (a + b)[0] == a[0] && (a + b)[1..] == a[1..] + b;
      RunAppend(Do(s, a[0]), a[1..], b);
    }
  }

  // From every moment of every run, with room for two strings more: whatever the other threads are at, and
  // whoever holds the lock, the call a thread is in can end, and its answer reads back.
  lemma EveryCallIsAnswered(s: State, t: nat) returns (es: seq<Event>)
    requires Inv(s) && t < |s.pcs| && !s.pcs[t].Idle? && |s.table.index| + 2 <= CAPACITY
    ensures Inv(Run(s, es)) && Answered(Run(s, es), t, s.pcs[t].str)
  {
    if s.pcs[t].Missed? && s.lock.Some? {
      var first := CallEnds(s, s.lock.value);
      var more := CallEnds(Run(s, first), t);
      RunAppend(s, first, more);
      es := first + more;
    } else {
      es := CallEnds(s, t);
    }
  }

  // And so can every call that is yet to be made.
  lemma EveryStringIsInterned(s: State, t: nat, str: string) returns (es: seq<Event>)
    requires Inv(s) && t < |s.pcs| && s.pcs[t].Idle? && |s.table.index| + 2 <= CAPACITY
    ensures var u := Run(s, es);
            Inv(u) && t < |u.pcs| && u.pcs[t].Idle? && u.answers != [] && u.answers[|u.answers| - 1].str == str
            && u.answers[|u.answers| - 1].number < |u.table.index|
            && u.table.index[u.answers[|u.answers| - 1].number] == str
  {
    var u := Do(s, Lookup(t, str));
    StepKeeps(s, Lookup(t, str));
    if u.pcs[t].Idle? {
      es := [Lookup(t, str)];
      assert Run(s, es) == Run(u, []);
    } else {
      var more := EveryCallIsAnswered(u, t);
      es := [Lookup(t, str)] + more;
      assert es[0] == Lookup(t, str) && es[1..] == more;
    }
  }
}
