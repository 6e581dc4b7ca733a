/** Decimal text: `strconv.Itoa` and the base-10 `strconv.ParseInt` with bit size 32. */
module Decimal {
  import opened Prelude

  function DigitChar(d: nat): (c: char)
    requires d < 10
    ensures '0' <= c <= '9'
  {
    ('0' as int + d) as char
  }

  predicate IsDigit(c: char) { '0' <= c <= '9' }

  function DigitValue(c: char): nat
    requires IsDigit(c)
  {
    c as int - '0' as int
  }

  function Digits(n: nat): (s: string)
    ensures s != [] && forall i :: 0 <= i < |s| ==> IsDigit(s[i])
  {
    if n < 10 then [DigitChar(n)] else Digits(n / 10) + [DigitChar(n % 10)]
  }

  function Itoa(n: int): string { if n < 0 then "-" + Digits(-n) else Digits(n) }

  /** The value of a digit string; None on anything else, the empty string included. */
  function ParseDigits(s: string): Option<nat>
  {
    if s == [] then None
    else
      var last := s[|s| - 1];
      if !IsDigit(last) then None
      else if |s| == 1 then Some(DigitValue(last))
      else
        match ParseDigits(s[..|s| - 1])
        case None => None
        case Some(v) => Some(10 * v + DigitValue(last))
  }

  /** `strconv.ParseInt(s, 10, 32)`, None for either of its errors. */
  function ParseInt32(s: string): Option<int>
  {
    var negative := |s| > 0 && s[0] == '-';
    var digits := if |s| > 0 && (s[0] == '-' || s[0] == '+') then s[1..] else s;
    match ParseDigits(digits)
    case None => None
    case Some(v) =>
      var n := if negative then -(v as int) else v as int;
      if MIN_INT32 <= n <= MAX_INT32 then Some(n) else None
  }

  lemma {:induction false} ParseDigitsOfDigits(n: nat)
    ensures ParseDigits(Digits(n)) == Some(n)
  {
    if n < 10 {
      assert DigitValue(DigitChar(n)) == n;
    } else {
      ParseDigitsOfDigits(n / 10);
      var s := Digits(n);
      assert s[..|s| - 1] == Digits(n / 10);
      assert DigitValue(DigitChar(n % 10)) == n % 10;
    }
  }

  lemma SignShows(n: int)
    ensures Itoa(n) != [] && (Itoa(n)[0] == '-' <==> n < 0)
    ensures n < 0 ==> Itoa(n)[1..] == Digits(-n)
  {
    if n >= 0 { assert IsDigit(Digits(n)[0]); }
  }

  /** Written and read back, for every int32. */
  lemma ParseOfItoa(n: int)
    requires MIN_INT32 <= n <= MAX_INT32
    ensures ParseInt32(Itoa(n)) == Some(n)
  {
    SignShows(n);
    ParseDigitsOfDigits(if n < 0 then -n else n);
    assert n >= 0 ==> IsDigit(Itoa(n)[0]);
  }

  lemma ItoaInjective(a: int, b: int)
    requires Itoa(a) == Itoa(b)
    ensures a == b
  {
    SignShows(a);
    SignShows(b);
    ParseDigitsOfDigits(if a < 0 then -a else a);
    ParseDigitsOfDigits(if b < 0 then -b else b);
  }

  /** What follows an explicit sign is read as the digits alone would be. */
  lemma SignIsSplitOff(sign: char, d: string)
    requires sign == '+' || sign == '-'
    ensures ([sign] + d)[0] == sign && ([sign] + d)[1..] == d
  {
  }

  /** An explicit plus reads as no sign, and nothing reads outside int32. */
  lemma PlusReads(n: nat)
    ensures ParseInt32(['+'] + Digits(n)) == if n <= MAX_INT32 then Some(n) else None
  {
    SignIsSplitOff('+', Digits(n));
    ParseDigitsOfDigits(n);
  }

  lemma MinusReads(n: nat)
    ensures ParseInt32(['-'] + Digits(n)) == if n <= 0x8000_0000 then Some(0 - n) else None
  {
    SignIsSplitOff('-', Digits(n));
    ParseDigitsOfDigits(n);
  }
}
