/** Numbers in decimal, as printed with "%d" or strconv.Itoa and read back with strconv.Atoi. */
module Decimal {

  predicate IsDigit(c: char) { '0' <= c <= '9' }

  function Digit(n: nat): (c: char)
    requires n < 10
    ensures IsDigit(c)
  {
    '0' + n as char
  }

  function DigitValue(c: char): nat
    requires IsDigit(c)
  {
    (c - '0') as nat
  }

  function Digits(n: nat): (s: string)
    ensures s != "" && forall c :: c in s ==> IsDigit(c)
  {
    if n < 10 then [Digit(n)] else Digits(n / 10) + [Digit(n % 10)]
  }

  function DigitsValue(s: string): nat
    requires forall c :: c in s ==> IsDigit(c)
  {
    if s == "" then 0
    else
      assert forall c :: c in s[..|s| - 1] ==> c in s;
      assert s[|s| - 1] in s;
      10 * DigitsValue(s[..|s| - 1]) + DigitValue(s[|s| - 1])
  }

  lemma {:induction false} DigitsRoundTrip(n: nat)
    ensures DigitsValue(Digits(n)) == n
  {
    if n >= 10 {
      DigitsRoundTrip(n / 10);
      assert Digits(n)[..|Digits(n)| - 1] == Digits(n / 10);
    } else {
      assert Digits(n)[..0] == "";
    }
  }

  function Itoa(n: int): string {
    if n < 0 then "-" + Digits(-n) else Digits(n)
  }

  const MAX_INT64: int := 0x7fff_ffff_ffff_ffff

  predicate Int64(n: int) { -MAX_INT64 - 1 <= n <= MAX_INT64 }

  predicate AllDigits(s: string) { s != "" && forall c :: c in s ==> IsDigit(c) }

  function Clamp(n: int): int {
    if n > MAX_INT64 then MAX_INT64 else if n < -MAX_INT64 - 1 then -MAX_INT64 - 1 else n
  }

  // The number, and whether there was an error: 0 for a malformed one, the nearest 64-bit one when
  // it is out of range.
  function Atoi(s: string): (int, bool) {
    var signed := s != "" && (s[0] == '-' || s[0] == '+');
    var digits := if signed then s[1..] else s;
    if !AllDigits(digits) then (0, true)
    else
      var v: int := DigitsValue(digits);
      var n := if s[0] == '-' then -v else v;
      (Clamp(n), !Int64(n))
  }

  lemma AtoiDigits(digits: string)
    requires AllDigits(digits)
    ensures var v: int := DigitsValue(digits);
            Atoi(digits) == (Clamp(v), !Int64(v)) && Atoi("-" + digits) == (Clamp(-v), !Int64(-v))
  {
    assert digits[0] in digits;
    assert ("-" + digits)[0] == '-' && ("-" + digits)[1..] == digits;
  }

  // A printed number is read back, without error when it fits.
  lemma AtoiItoa(n: int)
    ensures Atoi(Itoa(n)) == (Clamp(n), !Int64(n))
  {
    var m := if n < 0 then -n else n;
    DigitsRoundTrip(m);
    AtoiDigits(Digits(m));
  }

  lemma ItoaHasNoSpace(n: int)
    ensures ' ' !in Itoa(n)
  {}
}
