/** Java string behaviour the download tasks depend on: nullable strings,
    concatenation with a null operand, and decimal rendering of integers. */
module Strings {

  /** A Java reference that may be null: `None` stands for null. */
  datatype Option<+T> = None | Some(value: T)

  /** `TextUtils.isEmpty`: true for null and for the empty string. */
  predicate IsEmpty(s: Option<string>)
  {
    s.None? || |s.value| == 0
  }

  /** Java's `prefix + s` on a String that may be null: null is rendered as "null". */
  function Concat(prefix: string, s: Option<string>): string
  {
    prefix + (if s.Some? then s.value else "null")
  }

  predicate IsDigit(c: char)
  {
    '0' <= c <= '9'
  }

  predicate AllDigits(s: string)
  {
    forall i :: 0 <= i < |s| ==> IsDigit(s[i])
  }

  function Digit(d: nat): (c: char)
    requires d < 10
    ensures IsDigit(c) && DigitValue(c) == d
  {
    (d + '0' as int) as char
  }

  function DigitValue(c: char): nat
    requires IsDigit(c)
  {
    c as int - '0' as int
  }

  /** The decimal digits of `n`, most significant first, with no leading zero. */
  function NatToString(n: nat): (s: string)
    ensures |s| > 0 && AllDigits(s)
    ensures s[0] == '0' <==> n == 0
    ensures |s| == 1 || s[0] != '0'
    decreases n
  {
    if n < 10 then [Digit(n)] else NatToString(n / 10) + [Digit(n % 10)]
  }

  /** `Integer.toString` / `Long.toString`, which is what `"..." + n` uses:
      a minus sign before the magnitude of a negative number. */
  function IntToString(n: int): (r: string)
    ensures Canonical(r)
    ensures r[0] == '-' <==> n < 0
  {
    if n < 0 then "-" + NatToString(-n) else NatToString(n)
  }

  /** Digits with no leading zero. */
  predicate CanonicalNat(s: string)
  {
    |s| > 0 && AllDigits(s) && (|s| == 1 || s[0] != '0')
  }

  /** The form `Integer.toString` writes: canonical digits, preceded by a minus
      sign only before a non-zero magnitude. */
  predicate Canonical(s: string)
  {
    if |s| > 0 && s[0] == '-' then CanonicalNat(s[1..]) && s[1] != '0' else CanonicalNat(s)
  }

  /** The value of a string of decimal digits. */
  function ParseNat(s: string): nat
    requires AllDigits(s)
    decreases |s|
  {
    if s == [] then 0 else ParseNat(s[..|s| - 1]) * 10 + DigitValue(s[|s| - 1])
  }

  /** Reads a decimal integer, optionally preceded by a minus sign. */
  function ParseInt(s: string): Option<int>
  {
    if |s| > 1 && s[0] == '-' && AllDigits(s[1..]) then Some(-(ParseNat(s[1..]) as int))
    else if |s| > 0 && AllDigits(s) then Some(ParseNat(s))
    else None
  }

  lemma {:induction false} ParseNatToString(n: nat)
    ensures ParseNat(NatToString(n)) == n
  {
    if n >= 10 {
      var s := NatToString(n);
      assert s[..|s| - 1] == NatToString(n / 10);
      ParseNatToString(n / 10);
    }
  }

  /** Parsing undoes rendering, for every integer. */
  lemma IntToStringRoundTrip(n: int)
    ensures ParseInt(IntToString(n)) == Some(n)
  {
    if n < 0 {
      var s := IntToString(n);
      assert s[1..] == NatToString(-n);
      ParseNatToString(-n);
    } else {
      ParseNatToString(n);
    }
  }

  /** Canonical digits are the rendering of their own value. */
  lemma {:induction false} NatToStringParse(s: string)
    requires CanonicalNat(s)
    ensures NatToString(ParseNat(s)) == s
    decreases |s|
  {
    var c := s[|s| - 1];
    if |s| == 1 {
      assert s == [c];
      assert Digit(DigitValue(c)) == c;
    } else {
      var t := s[..|s| - 1];
      assert t[0] == s[0];
      NatToStringParse(t);
      var n := ParseNat(s);
      assert ParseNat(t) != 0;
      assert n / 10 == ParseNat(t) && n % 10 == DigitValue(c);
      assert Digit(DigitValue(c)) == c;
      assert s == t + [c];
    }
  }

  /** A canonical numeral is exactly the rendering of the integer it reads as,
      so the round-trip and the canonical form together fix the text. */
  lemma CanonicalIsRendering(s: string)
    requires Canonical(s)
    ensures ParseInt(s).Some? && s == IntToString(ParseInt(s).value)
  {
    if s[0] == '-' {
      NatToStringParse(s[1..]);
      assert s == "-" + s[1..];
    } else {
      NatToStringParse(s);
    }
  }

  /** Two integers render alike only when they are equal. */
  lemma IntToStringInjective(a: int, b: int)
    ensures IntToString(a) == IntToString(b) ==> a == b
  {
    IntToStringRoundTrip(a);
    IntToStringRoundTrip(b);
  }
}
