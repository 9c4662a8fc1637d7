/** Facts about applying a function to every element of a sequence. */
module Sequences {
  function Map<A, B>(f: A -> B, s: seq<A>): (r: seq<B>)
    ensures |r| == |s|
    ensures forall i :: 0 <= i < |s| ==> r[i] == f(s[i])
  {
    seq(|s|, i requires 0 <= i < |s| => f(s[i]))
  }

  lemma MapAppend<A, B>(f: A -> B, a: seq<A>, b: seq<A>)
    ensures Map(f, a + b) == Map(f, a) + Map(f, b)
  {}

  lemma MapPrefix<A, B>(f: A -> B, a: seq<A>, b: seq<A>)
    requires a <= b
    ensures Map(f, a) <= Map(f, b)
  {}

  lemma MapTail<A, B>(f: A -> B, s: seq<A>)
    requires s != []
    ensures Map(f, s)[0] == f(s[0]) && Map(f, s)[1..] == Map(f, s[1..])
  {}

  lemma MapInverse<A, B>(f: A -> B, g: B -> A, s: seq<A>)
    requires forall x :: x in s ==> g(f(x)) == x
    ensures Map(g, Map(f, s)) == s
  {}

  lemma MapTwice<A, B, C>(f: A -> B, g: B -> C, h: A -> C, s: seq<A>)
    requires forall x :: x in s ==> g(f(x)) == h(x)
    ensures Map(g, Map(f, s)) == Map(h, s)
  {}

  lemma Reassociate<T>(a: seq<T>, b: seq<T>, c: seq<T>)
    ensures a + b + c == a + (b + c)
  {}

  lemma Halves<T>(s: seq<T>, k: nat)
    requires k <= |s|
    ensures s[..k] + s[k..] == s
  {}

  // The first k elements and then m more.
  lemma TakeMore<T>(s: seq<T>, k: nat, m: nat)
    requires k + m <= |s|
    ensures s[..k] + s[k..][..m] == s[..k + m]
  {}

  lemma NextPart<T>(front: seq<T>, s: seq<T>, n: nat)
    requires front <= s && |front| + n <= |s|
    ensures front + s[|front|..|front| + n] <= s
  {}

  lemma DropPrefix<T>(a: seq<T>, x: seq<T>, b: seq<T>)
    requires a + x <= a + b
    ensures x <= b
  {
    assert x == (a + x)[|a|..] && b == (a + b)[|a|..];
  }
  lemma TwoCuts<T>(s: seq<T>, i: nat, j: nat)
    requires i <= j <= |s|
    ensures s[..i] + s[i..] == s && s[..i] + s[i..][..j - i] == s[..j]
  {}

  lemma MoveOver<T>(a: seq<T>, b: seq<T>, n: nat)
    requires n <= |b|
    ensures a + b[..n] + b[n..] == a + b
  {}

  lemma KeptFront<T>(a: seq<T>, b: seq<T>, more: seq<T>, c: seq<T>, d: seq<T>)
    requires c + d == a + b + more && |a| <= |c|
    ensures a <= c
  {
    assert a == (c + d)[..|a|] == c[..|a|];
  }

  lemma HeadMoves<T>(acc: seq<T>, s: seq<T>)
    requires s != []
    ensures acc + [s[0]] + s[1..] == acc + s
  {}

  lemma TakeTake<T>(s: seq<T>, i: nat, j: nat)
    requires i <= j <= |s|
    ensures s[..j][..i] == s[..i]
  {}

  lemma TakeAll<T>(s: seq<T>)
    ensures s[..|s|] == s && s + [] == s
  {}

  lemma PrefixOfPrefix<T>(a: seq<T>, b: seq<T>, c: seq<T>)
    requires a <= b <= c
    ensures a <= c
  {}

  lemma PrefixUnder<T>(a: seq<T>, b: seq<T>, c: seq<T>)
    requires b <= c
    ensures a + b <= a + c && (a + c)[|a + b|..] == c[|b|..]
  {}

  lemma FrontOf<T>(s: seq<T>, front: seq<T>)
    requires front <= s
    ensures s[..|front|] == front
  {}

  lemma SameLastIff<T>(a: seq<T>, x: T, y: T)
    ensures a + [x] == a + [y] <==> x == y
  {
    assert (a + [x])[|a|] == x && (a + [y])[|a|] == y;
  }
}
