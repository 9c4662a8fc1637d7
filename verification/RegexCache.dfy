/** The cache of compiled expressions, one for the whole load generator: the decoders of metadata keep
    an expression under its own text, and replacing a variable keeps the pattern of its placeholder
    under the name of the variable. */
module RegexCache {
  import opened Prelude

  // Whether an expression compiles; the same answer every time.
  type Compiler = string -> bool

  datatype Use = Decode(text: string) | Replace(name: string)

  // Where a use looks, and the expression it means.
  function Key(u: Use): string {
    match u
    case Decode(text) => text
    case Replace(name) => name
  }

  function Pattern(name: string): string { "(?m:\\$\\{" + name + "})" }

  function Meant(u: Use): string {
    match u
    case Decode(text) => text
    case Replace(name) => Pattern(name)
  }

  // The expression a use ought to work with; None is an error for a decoder, a panic for a replacement.
  function Right(u: Use, compiles: Compiler): Option<string> {
    if compiles(Meant(u)) then Some(Meant(u)) else None
  }

  type Entries = map<string, string>

  // One use by itself: what it works with, and the cache it leaves.
  function UseOne(cache: Entries, u: Use, compiles: Compiler): (Option<string>, Entries) {
    if Key(u) in cache then (Some(cache[Key(u)]), cache)
    else if compiles(Meant(u)) then (Some(Meant(u)), cache[Key(u) := Meant(u)])
    else (None, cache)
  }

  class Cache {
    var entries: Entries

    constructor ()
      ensures entries == map[]
    {
      entries := map[];
    }

    // Take what is kept under the key, or compile the expression meant and keep it.
    method Take(u: Use, compiles: Compiler) returns (r: Option<string>)
      modifies this
      ensures (r, entries) == UseOne(old(entries), u, compiles)
    {
      if Key(u) in entries { return Some(entries[Key(u)]); }
      if !compiles(Meant(u)) { return None; }
      entries := entries[Key(u) := Meant(u)];
      return Some(Meant(u));
    }
  }

  // ---------------------------------------------------------------- any number of users at once

  // A user that has missed has compiled its expression and not kept it yet.
  datatype PC = Idle | Missed(u: Use)

  datatype Answer = Answer(u: Use, r: Option<string>)

  datatype State = State(cache: Entries, pcs: seq<PC>, log: seq<Answer>)

  datatype Event = Look(t: nat, u: Use) | Keep(t: nat)

  // One step; an event that is not enabled changes nothing.
  function Do(s: State, e: Event, compiles: Compiler): State {
    if e.t >= |s.pcs| then s
    else
      match e
      case Look(t, u) =>
        if !s.pcs[t].Idle? then s
        else if Key(u) in s.cache then s.(log := s.log + [Answer(u, Some(s.cache[Key(u)]))])
        else if compiles(Meant(u)) then s.(pcs := s.pcs[t := Missed(u)])
        else s.(log := s.log + [Answer(u, None)])
      case Keep(t) =>
        if s.pcs[t].Idle? then s
        else
          var u := s.pcs[t].u;
          State(s.cache[Key(u) := Meant(u)], s.pcs[t := Idle], s.log + [Answer(u, Some(Meant(u)))])
  }

  function Run(s: State, es: seq<Event>, compiles: Compiler): State
    decreases |es|
  {
    if es == [] then s else Run(Do(s, es[0], compiles), es[1..], compiles)
  }

  function Start(users: nat): State { State(map[], seq(users, _ => Idle), []) }

  // The texts that may be decoded and the names that may be replaced.
  datatype Vocabulary = Vocabulary(texts: set<string>, names: set<string>)

  predicate Within(u: Use, v: Vocabulary) {
    match u
    case Decode(text) => text in v.texts
    case Replace(name) => name in v.names
  }

  predicate AllWithin(es: seq<Event>, v: Vocabulary) {
    forall i :: 0 <= i < |es| && es[i].Look? ==> Within(es[i].u, v)
  }

  predicate AllRight(log: seq<Answer>, compiles: Compiler) {
    forall i :: 0 <= i < |log| ==> log[i].r == Right(log[i].u, compiles)
  }

  // A word that is both, with an expression to keep under it.
  predicate Clashes(k: string, v: Vocabulary, compiles: Compiler) {
    k in v.texts && k in v.names && (compiles(k) || compiles(Pattern(k)))
  }

  ghost predicate NoClash(v: Vocabulary, compiles: Compiler) {
    forall k :: !Clashes(k, v, compiles)
  }

  // What is kept under a key is what some use of it means.
  ghost predicate KeptRight(cache: Entries, v: Vocabulary, compiles: Compiler) {
    forall k :: k in cache ==>
      (k in v.texts && cache[k] == k && compiles(k)) || (k in v.names && cache[k] == Pattern(k) && compiles(Pattern(k)))
  }

  ghost predicate Inv(s: State, v: Vocabulary, compiles: Compiler) {
    KeptRight(s.cache, v, compiles) && AllRight(s.log, compiles)
    && forall t :: 0 <= t < |s.pcs| && s.pcs[t].Missed? ==> Within(s.pcs[t].u, v) && compiles(Meant(s.pcs[t].u))
  }

  lemma FoundIsRight(cache: Entries, u: Use, v: Vocabulary, compiles: Compiler)
    requires KeptRight(cache, v, compiles) && NoClash(v, compiles) && Within(u, v) && Key(u) in cache
    ensures Some(cache[Key(u)]) == Right(u, compiles)
  {
    assert !Clashes(Key(u), v, compiles);
  }

  lemma StepKeeps(s: State, e: Event, v: Vocabulary, compiles: Compiler)
    requires Inv(s, v, compiles) && NoClash(v, compiles) && (e.Look? ==> Within(e.u, v))
    ensures Inv(Do(s, e, compiles), v, compiles)
  {
    if e.Look? && Key(e.u) in s.cache { FoundIsRight(s.cache, e.u, v, compiles); }
  }

  lemma {:induction false} RunKeeps(s: State, es: seq<Event>, v: Vocabulary, compiles: Compiler)
    requires Inv(s, v, compiles) && NoClash(v, compiles) && AllWithin(es, v)
    ensures Inv(Run(s, es, compiles), v, compiles)
    decreases |es|
  {
    if es != [] {
      StepKeeps(s, es[0], v, compiles);
      RunKeeps(Do(s, es[0], compiles), es[1..], v, compiles);
    }
  }

  // One user that decodes a word and replaces it, one after the other.
  function Clashing(first: Use, second: Use): seq<Event> { [Look(0, first), Keep(0), Look(0, second)] }

  lemma SecondIsWrong(users: nat, first: Use, second: Use, compiles: Compiler)
    requires users > 0 && Key(first) == Key(second) && compiles(Meant(first)) && Meant(first) != Meant(second)
    ensures var log := Run(Start(users), Clashing(first, second), compiles).log;
            log == [Answer(first, Some(Meant(first))), Answer(second, Some(Meant(first)))] && !AllRight(log, compiles)
  {
    var s, es := Start(users), Clashing(first, second);
    var s1 := Do(s, Look(0, first), compiles);
    var s2 := Do(s1, Keep(0), compiles);
    var s3 := Do(s2, Look(0, second), compiles);
    assert s2.cache[Key(second)] == Meant(first) && s2.log == [Answer(first, Some(Meant(first)))];
    assert es[1..] == [Keep(0), Look(0, second)] && es[1..][1..] == [Look(0, second)];
    assert Run(s2, [Look(0, second)], compiles) == Run(s3, [], compiles);
    assert s3.log[1].r != Right(second, compiles);
  }

  ghost predicate AlwaysRight(users: nat, v: Vocabulary, compiles: Compiler) {
    forall es :: AllWithin(es, v) ==> AllRight(Run(Start(users), es, compiles).log, compiles)
  }

  // Whatever the number of users and however they interleave: each decoded expression is its own text
  // and each replacement uses the pattern of its own placeholder, in every run, if and only if no
  // variable has the text of an expression for its name (unless neither would compile).
  lemma AlwaysRightIff(users: nat, v: Vocabulary, compiles: Compiler)
    requires users > 0
    ensures AlwaysRight(users, v, compiles) <==> NoClash(v, compiles)
  {
    if NoClash(v, compiles) {
      forall es | AllWithin(es, v) ensures AllRight(Run(Start(users), es, compiles).log, compiles) {
        RunKeeps(Start(users), es, v, compiles);
      }
    } else {
      var k :| Clashes(k, v, compiles);
      var first := if compiles(k) then Decode(k) else Replace(k);
      var second := if compiles(k) then Replace(k) else Decode(k);
      assert |Pattern(k)| > |k|;
      SecondIsWrong(users, first, second, compiles);
      assert AllWithin(Clashing(first, second), v);
    }
  }

  // The names of variables are made of letters and digits, so that their patterns compile; then it is
  // simply that no name is the text of an expression.
  lemma AlwaysRightIffDisjoint(users: nat, v: Vocabulary, compiles: Compiler)
    requires users > 0 && forall n :: n in v.names ==> compiles(Pattern(n))
    ensures AlwaysRight(users, v, compiles) <==> v.texts !! v.names
  {
    AlwaysRightIff(users, v, compiles);
    if v.texts !! v.names {
      assert forall k :: !Clashes(k, v, compiles);
    } else {
      var k :| k in v.texts && k in v.names;
      assert Clashes(k, v, compiles);
    }
  }

  // ---------------------------------------------------------------- one word by itself

  ghost predicate WordInv(s: State, k: string, v: Vocabulary, compiles: Compiler) {
    (k in s.cache ==> s.cache[k] == k && compiles(k))
    && (forall i :: 0 <= i < |s.log| && s.log[i].u == Decode(k) ==> s.log[i].r == Right(Decode(k), compiles))
    && forall t :: 0 <= t < |s.pcs| && s.pcs[t].Missed? ==> Within(s.pcs[t].u, v) && compiles(Meant(s.pcs[t].u))
  }

  // An expression that is not the name of a variable is decoded right in every run, whatever clashes
  // there are among the others.
  lemma {:induction false} WordInRun(s: State, es: seq<Event>, k: string, v: Vocabulary, compiles: Compiler)
    requires WordInv(s, k, v, compiles) && k !in v.names && AllWithin(es, v)
    ensures WordInv(Run(s, es, compiles), k, v, compiles)
    decreases |es|
  {
    if es != [] { WordInRun(Do(s, es[0], compiles), es[1..], k, v, compiles); }
  }

  // Whatever is kept under a word, is about to be, or has been answered for it, is what this use of it means.
  ghost predicate KeptFor(s: State, m: Use, compiles: Compiler) {
    (Key(m) in s.cache ==> s.cache[Key(m)] == Meant(m))
    && (forall t :: 0 <= t < |s.pcs| && s.pcs[t].Missed? && Key(s.pcs[t].u) == Key(m) ==> s.pcs[t].u == m)
    && forall a :: a in s.log && Key(a.u) == Key(m) ==>
         if a.r.Some? then a.r.value == Meant(m) else !compiles(Meant(a.u))
  }

  // It stays so as long as no other use of the word looks before it is kept.
  lemma KeptForStep(s: State, e: Event, m: Use, compiles: Compiler)
    requires KeptFor(s, m, compiles) && (e.Look? && Key(e.u) == Key(m) ==> e.u == m || Key(m) in s.cache)
    ensures KeptFor(Do(s, e, compiles), m, compiles)
  {}

  // ---------------------------------------------------------------- one user after the other

  // What each of a list of uses works with, one after the other.
  function UseAll(cache: Entries, us: seq<Use>, compiles: Compiler): (log: seq<Answer>)
    decreases |us|
  {
    if us == [] then []
    else
      var (r, cache') := UseOne(cache, us[0], compiles);
      [Answer(us[0], r)] + UseAll(cache', us[1..], compiles)
  }

  // Left to itself, a user that looks and keeps does what one use says.
  lemma UseIsTwoSteps(s: State, t: nat, u: Use, compiles: Compiler)
    requires t < |s.pcs| && s.pcs[t].Idle?
    ensures var (r, cache) := UseOne(s.cache, u, compiles);
            Do(Do(s, Look(t, u), compiles), Keep(t), compiles) == State(cache, s.pcs, s.log + [Answer(u, r)])
  {
    assert s.pcs[t := Missed(u)][t := Idle] == s.pcs;
  }

  lemma {:induction false} KeptDecides(cache: Entries, us: seq<Use>, k: string, i: nat, compiles: Compiler)
    requires k in cache && i < |us| && Key(us[i]) == k && AllRight(UseAll(cache, us, compiles), compiles)
    ensures cache[k] == Meant(us[i])
    decreases |us|
  {
    var log := UseAll(cache, us, compiles);
    if i == 0 {
      assert log[0].r == Right(us[0], compiles);
    } else {
      assert log[1..] == UseAll(UseOne(cache, us[0], compiles).1, us[1..], compiles);
      KeptDecides(UseOne(cache, us[0], compiles).1, us[1..], k, i - 1, compiles);
    }
  }

  lemma {:induction false} SameKeySameMeaning(cache: Entries, us: seq<Use>, i: nat, j: nat, compiles: Compiler)
    requires i < j < |us| && Key(us[i]) == Key(us[j]) && compiles(Meant(us[i]))
    requires AllRight(UseAll(cache, us, compiles), compiles)
    ensures Meant(us[i]) == Meant(us[j])
    decreases |us|
  {
    var log, cache' := UseAll(cache, us, compiles), UseOne(cache, us[0], compiles).1;
    assert log[1..] == UseAll(cache', us[1..], compiles);
    if i == 0 {
      assert log[0].r == Right(us[0], compiles);
      KeptDecides(cache', us[1..], Key(us[0]), j - 1, compiles);
    } else {
      SameKeySameMeaning(cache', us[1..], i - 1, j - 1, compiles);
    }
  }

  // No interleaving is needed: any plain sequence of uses that decodes and replaces the same word
  // goes wrong.
  lemma PlainSequenceGoesWrong(us: seq<Use>, i: nat, j: nat, compiles: Compiler)
    requires i < |us| && j < |us| && us[i].Decode? && us[j].Replace? && Key(us[i]) == Key(us[j])
    requires compiles(Meant(us[i])) && compiles(Meant(us[j]))
    ensures !AllRight(UseAll(map[], us, compiles), compiles)
  {
    assert |Meant(us[j])| > |Meant(us[i])|;
    if AllRight(UseAll(map[], us, compiles), compiles) {
      SameKeySameMeaning(map[], us, if i < j then i else j, if i < j then j else i, compiles);
    }
  }
}
