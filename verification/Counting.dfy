/** How many elements of a sequence satisfy a predicate. */
module Counting {
  function Count<T>(p: T -> bool, s: seq<T>): (n: nat)
    ensures n <= |s|
  {
    if s == [] then 0 else Count(p, s[1..]) + if p(s[0]) then 1 else 0
  }

  function One(b: bool): nat { if b then 1 else 0 }

  lemma {:induction false} CountUpdate<T>(p: T -> bool, s: seq<T>, i: nat, x: T)
    requires i < |s|
    ensures Count(p, s[i := x]) == Count(p, s) - One(p(s[i])) + One(p(x))
  {
    if i > 0 {
      assert s[i := x][0] == s[0] && s[i := x][1..] == s[1..][i - 1 := x];
      CountUpdate(p, s[1..], i - 1, x);
    } else {
      assert s[i := x][1..] == s[1..];
    }
  }

  lemma {:induction false} CountAppend<T>(p: T -> bool, s: seq<T>, x: T)
    ensures Count(p, s + [x]) == Count(p, s) + One(p(x))
  {
    if s == [] {
      assert s + [x] == [x] && [x][1..] == [];
    } else {
      assert (s + [x])[0] == s[0] && (s + [x])[1..] == s[1..] + [x];
      CountAppend(p, s[1..], x);
    }
  }

  // Two predicates that exclude each other, within a third.
  lemma {:induction false} CountParts<T>(p: T -> bool, q: T -> bool, r: T -> bool, s: seq<T>)
    requires forall x :: x in s ==> !(p(x) && q(x)) && (p(x) || q(x) ==> r(x))
    ensures Count(p, s) + Count(q, s) <= Count(r, s)
  {
    if s != [] {
      assert s[0] in s;
      CountParts(p, q, r, s[1..]);
    }
  }

  lemma {:induction false} CountsSome<T>(p: T -> bool, s: seq<T>, i: nat)
    requires i < |s| && p(s[i])
    ensures Count(p, s) >= 1
  {
    if i > 0 {
      assert s[1..][i - 1] == s[i];
      CountsSome(p, s[1..], i - 1);
    }
  }

  lemma {:induction false} CountsNone<T>(p: T -> bool, s: seq<T>)
    requires forall x :: x in s ==> !p(x)
    ensures Count(p, s) == 0
  {
    if s != [] { CountsNone(p, s[1..]); }
  }

  lemma {:induction false} CountSplit<T>(p: T -> bool, q: T -> bool, r: T -> bool, s: seq<T>)
    requires forall x :: x in s ==> !(p(x) && q(x)) && (p(x) || q(x) <==> r(x))
    ensures Count(p, s) + Count(q, s) == Count(r, s)
  {
    if s != [] {
      assert s[0] in s;
      CountSplit(p, q, r, s[1..]);
    }
  }

  lemma {:induction false} CountWitness<T>(p: T -> bool, s: seq<T>) returns (i: nat)
    requires Count(p, s) > 0
    ensures i < |s| && p(s[i])
  {
    if p(s[0]) {
      i := 0;
    } else {
      var j := CountWitness(p, s[1..]);
      i := j + 1;
    }
  }

  // ---------------------------------------------------------------- sums

  function Sum<T>(f: T -> nat, s: seq<T>): nat {
    if s == [] then 0 else f(s[0]) + Sum(f, s[1..])
  }

  lemma {:induction false} SumUpdate<T>(f: T -> nat, s: seq<T>, i: nat, x: T)
    requires i < |s|
    ensures Sum(f, s[i := x]) + f(s[i]) == Sum(f, s) + f(x)
  {
    if i > 0 {
      assert s[i := x][0] == s[0] && s[i := x][1..] == s[1..][i - 1 := x];
      SumUpdate(f, s[1..], i - 1, x);
    } else {
      assert s[i := x][1..] == s[1..];
    }
  }

  lemma {:induction false} SumAppend<T>(f: T -> nat, s: seq<T>, x: T)
    ensures Sum(f, s + [x]) == Sum(f, s) + f(x)
  {
    if s == [] {
      assert s + [x] == [x] && [x][1..] == [];
    } else {
      assert (s + [x])[0] == s[0] && (s + [x])[1..] == s[1..] + [x];
      SumAppend(f, s[1..], x);
    }
  }

  lemma {:induction false} SumOfEqual<T>(f: T -> nat, s: seq<T>, k: nat)
    requires forall x :: x in s ==> f(x) == k
    ensures Sum(f, s) == |s| * k
  {
    if s != [] {
      assert s[0] in s;
      SumOfEqual(f, s[1..], k);
      assert |s| * k == (|s| - 1) * k + k;
    }
  }
}
