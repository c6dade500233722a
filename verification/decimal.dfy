/**
 Base-10 text for integers, as Go's `strconv.FormatInt(n, 10)` writes it: an
 optional minus sign followed by digits without leading zeros. `ReadInt` is
 the independent reading of such text, used to state what number a string
 denotes.
 */
module Decimal {
  import opened Base

  predicate IsDigit(c: char) {
    '0' <= c <= '9'
  }

  predicate AllDigits(s: string) {
    forall i :: 0 <= i < |s| ==> IsDigit(s[i])
  }

  function DigitChar(d: nat): (c: char)
    requires d < 10
    ensures IsDigit(c)
  {
    (48 + d) as char
  }

  function DigitValue(c: char): (d: nat)
    requires IsDigit(c)
    ensures d < 10
    ensures DigitChar(d) == c
  {
    (c as int) - 48
  }

  /** The digits of `n`, most significant first. */
  function Digits(n: nat): (s: string)
    ensures |s| >= 1 && AllDigits(s)
    ensures n > 0 ==> s[0] != '0'
    ensures n < 10 <==> |s| == 1
  {
    if n < 10 then [DigitChar(n)] else Digits(n / 10) + [DigitChar(n % 10)]
  }

  /** The number a run of digits denotes (0 for none). */
  function ValueOf(s: string): (n: nat)
    requires AllDigits(s)
  {
    if |s| == 0 then 0 else ValueOf(s[..|s| - 1]) * 10 + DigitValue(s[|s| - 1])
  }

  /** A run of digits with no superfluous leading zero. */
  predicate CanonicalDigits(s: string) {
    |s| >= 1 && AllDigits(s) && (|s| > 1 ==> s[0] != '0')
  }

  /** The one way base 10 writes each integer: canonical digits, with a
      minus sign before them exactly when the number is negative (so never
      "-0"). */
  predicate Canonical(s: string) {
    || CanonicalDigits(s)
    || (|s| >= 2 && s[0] == '-' && AllDigits(s[1..]) && s[1] != '0')
  }

  /** `strconv.FormatInt(n, 10)`. */
  function FormatInt(n: int): (s: string)
    ensures Canonical(s)
    ensures n < 0 <==> s[0] == '-'
  {
    if n < 0 then "-" + Digits(-n) else Digits(n)
  }

  /** The integer a decimal text denotes, if it is one: an optional minus
      sign and at least one digit. */
  function ReadInt(s: string): (r: Option<int>)
    ensures r.Some? ==> |s| >= 1
  {
    if |s| >= 2 && s[0] == '-' && AllDigits(s[1..]) then Some(-(ValueOf(s[1..]) as int))
    else if |s| >= 1 && AllDigits(s) then Some(ValueOf(s))
    else None
  }

  lemma {:induction false} ValueOfDigits(n: nat)
    ensures ValueOf(Digits(n)) == n
    decreases n
  {
    if n >= 10 {
      var s := Digits(n);
      assert s[..|s| - 1] == Digits(n / 10);
      ValueOfDigits(n / 10);
    }
  }

  lemma {:induction false} PositiveValue(s: string)
    requires AllDigits(s) && |s| >= 1 && s[0] != '0'
    ensures ValueOf(s) > 0
    decreases |s|
  {
    if |s| > 1 {
      PositiveValue(s[..|s| - 1]);
    }
  }

  /** Canonical digits are the digits of the number they denote. */
  lemma {:induction false} DigitsOfValue(s: string)
    requires CanonicalDigits(s)
    ensures Digits(ValueOf(s)) == s
    decreases |s|
  {
    if |s| > 1 {
      var prefix := s[..|s| - 1];
      PositiveValue(prefix);
      DigitsOfValue(prefix);
      var n := ValueOf(s);
      assert n / 10 == ValueOf(prefix) && n % 10 == DigitValue(s[|s| - 1]);
      assert s == prefix + [s[|s| - 1]];
    }
  }

  /** Reading what `FormatInt` writes gives back the number. */
  lemma ReadFormat(n: int)
    ensures ReadInt(FormatInt(n)) == Some(n)
  {
    if n < 0 {
      ValueOfDigits(-n);
      assert FormatInt(n)[1..] == Digits(-n);
    } else {
      ValueOfDigits(n);
    }
  }

  /** `FormatInt` is the only canonical text for its number: a canonical
      text that reads as `n` is `FormatInt(n)`. */
  lemma CanonicalIsFormat(s: string, n: int)
    requires Canonical(s) && ReadInt(s) == Some(n)
    ensures s == FormatInt(n)
  {
    if |s| >= 1 && s[0] == '-' {
      DigitsOfValue(s[1..]);
      PositiveValue(s[1..]);
      assert s == "-" + s[1..];
    } else {
      DigitsOfValue(s);
    }
  }
}
