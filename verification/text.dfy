/** Decimal text: Python's `str` on an integer, and the value of a run of
    ASCII digits (what `float` makes of the digits a regex captured). */
module Text {

  predicate IsDigit(c: char) {
    '0' <= c <= '9'
  }

  function DigitChar(d: nat): (c: char)
    requires d < 10
    ensures IsDigit(c)
  {
    "0123456789"[d]
  }

  function DigitValue(c: char): (d: nat)
    requires IsDigit(c)
    ensures d < 10 && DigitChar(d) == c
  {
    (c as int - '0' as int) as nat
  }

  /** The decimal digits of `n`, most significant first, without leading zeros. */
  function NatToString(n: nat): (s: string)
    ensures |s| >= 1 && forall k :: 0 <= k < |s| ==> IsDigit(s[k])
    decreases n
  {
    if n < 10 then [DigitChar(n)] else NatToString(n / 10) + [DigitChar(n % 10)]
  }

  /** Python's `str(i)` for an `int`: a minus sign before the digits of a negative number. */
  function IntToString(i: int): (s: string)
    ensures |s| >= 1 && (s[0] == '-' <==> i < 0)
  {
    if i < 0 then "-" + NatToString(-i) else NatToString(i)
  }

  /** A one-digit number is one character; a larger one is the digits of
      its tenth followed by its last digit. */
  lemma NatToStringShape(n: nat)
    ensures n < 10 <==> |NatToString(n)| == 1
    ensures n < 10 ==> NatToString(n)[0] == DigitChar(n)
    ensures n >= 10 ==> var s := NatToString(n);
      s[..|s| - 1] == NatToString(n / 10) && s[|s| - 1] == DigitChar(n % 10)
  {
    if n >= 10 {
      assert |NatToString(n / 10)| >= 1;
    }
  }

  lemma DigitCharInjective(d: nat, e: nat)
    requires d < 10 && e < 10 && DigitChar(d) == DigitChar(e)
    ensures d == e
  {
    assert DigitValue(DigitChar(d)) == d;
    assert DigitValue(DigitChar(e)) == e;
  }

  lemma {:induction false} NatToStringInjective(m: nat, n: nat)
    requires NatToString(m) == NatToString(n)
    ensures m == n
    decreases m
  {
    NatToStringShape(m);
    NatToStringShape(n);
    if m < 10 {
      DigitCharInjective(m, n);
    } else {
      NatToStringInjective(m / 10, n / 10);
      DigitCharInjective(m % 10, n % 10);
    }
  }

  lemma DropSign(a: string, b: string)
    requires "-" + a == "-" + b
    ensures a == b
  {
    assert ("-" + a)[1..] == a && ("-" + b)[1..] == b;
  }

  /** Distinct ids give distinct `str(id)` keys. */
  lemma {:induction false} IntToStringInjective(i: int, j: int)
    requires IntToString(i) == IntToString(j)
    ensures i == j
  {
    SignsAgree(i, j);
    if i < 0 {
      NegativeInjective(i, j);
    } else {
      NatToStringInjective(i, j);
    }
  }

  lemma SignsAgree(i: int, j: int)
    requires IntToString(i) == IntToString(j)
    ensures i < 0 <==> j < 0
  {
    assert IntToString(i)[0] == IntToString(j)[0];
  }

  lemma NegativeInjective(i: int, j: int)
    requires i < 0 && j < 0 && IntToString(i) == IntToString(j)
    ensures i == j
  {
    var m, n: nat := -i, -j;
    assert IntToString(i) == "-" + NatToString(m);
    assert IntToString(j) == "-" + NatToString(n);
    DropSign(NatToString(m), NatToString(n));
    NatToStringInjective(m, n);
  }

  /** Distinct ids give distinct `str(id)` keys, stated forwards. */
  lemma {:induction false} IntToStringDistinct(i: int, j: int)
    ensures i != j ==> IntToString(i) != IntToString(j)
  {
    if IntToString(i) == IntToString(j) {
      IntToStringInjective(i, j);
    }
  }

  predicate AllDigits(s: string) {
    forall k :: 0 <= k < |s| ==> IsDigit(s[k])
  }

  /** The number a run of decimal digits denotes (leading zeros allowed). */
  function DigitsValue(s: string): nat
    requires AllDigits(s)
    decreases |s|
  {
    if s == [] then 0 else DigitsValue(s[..|s| - 1]) * 10 + DigitValue(s[|s| - 1])
  }

  /** Reading back the digits `str` wrote gives the number again. */
  lemma {:induction false} DigitsValueOfNatToString(n: nat)
    ensures AllDigits(NatToString(n)) && DigitsValue(NatToString(n)) == n
    decreases n
  {
    var s := NatToString(n);
    if n >= 10 {
      DigitsValueOfNatToString(n / 10);
      assert s[..|s| - 1] == NatToString(n / 10);
    }
  }
}
