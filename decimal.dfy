/** Decimal rendering of integers, as JavaScript's template literals print a whole number,
    and a digit-reading partner used to prove that the project's display strings can be read
    back. */
module Decimal {
  import opened Wrappers

  predicate IsDigit(c: char) {
    '0' <= c <= '9'
  }

  predicate AllDigits(s: string) {
    forall i :: 0 <= i < |s| ==> IsDigit(s[i])
  }

  function DigitChar(d: int): (c: char)
    requires 0 <= d < 10
    ensures IsDigit(c)
  {
    (48 + d) as char
  }

  function DigitValue(c: char): int
    requires IsDigit(c)
  {
    c as int - 48
  }

  /** `${n}` for a whole number that is zero or more: its digits, most significant first,
      with no leading zero. */
  function NatToString(n: nat): (s: string)
    ensures |s| > 0
  {
    if n < 10 then [DigitChar(n)] else NatToString(n / 10) + [DigitChar(n % 10)]
  }

  /** `${i}` for any whole number: a minus sign before the digits of a negative one. */
  function IntToString(i: int): (s: string)
    ensures |s| > 0
  {
    if i < 0 then "-" + NatToString(-i) else NatToString(i)
  }

  /** The number of digits at the front of `s`. */
  function DigitSpan(s: string): (k: nat)
    ensures k <= |s| && AllDigits(s[..k])
    ensures k < |s| ==> !IsDigit(s[k])
  {
    if s == [] || !IsDigit(s[0]) then 0
    else
      var k := DigitSpan(s[1..]);
      assert s[..k + 1] == [s[0]] + s[1..][..k];
      k + 1
  }

  /** The value of a string of digits (the empty string reads as 0). */
  function ParseDigits(s: string): nat
    requires AllDigits(s)
  {
    if s == [] then 0 else 10 * ParseDigits(s[..|s| - 1]) + DigitValue(s[|s| - 1])
  }

  /** Reads an optionally signed whole number at the front of `s`: its value and the number
      of characters it takes up; `None` when `s` does not start with one. */
  function ParseIntPrefix(s: string): (r: Option<(int, nat)>)
    ensures r.Some? ==> 0 < r.value.1 <= |s|
  {
    if |s| > 0 && s[0] == '-' then
      var k := DigitSpan(s[1..]);
      var d: int := ParseDigits(s[1..][..k]);
      if k == 0 then None else Some((-d, k + 1))
    else
      var k := DigitSpan(s);
      var v: int := ParseDigits(s[..k]);
      if k == 0 then None else Some((v, k))
  }

  /** A rendered whole number is all digits, and reading them back gives `n`. */
  lemma {:induction false} ParseNatToString(n: nat)
    ensures AllDigits(NatToString(n)) && ParseDigits(NatToString(n)) == n
  {
    var s := NatToString(n);
    if n >= 10 {
      ParseNatToString(n / 10);
      assert s[..|s| - 1] == NatToString(n / 10);
    }
  }

  /** The digit span of a digit string followed by a non-digit is the digit string. */
  lemma {:induction false} DigitSpanOf(ds: string, rest: string)
    requires AllDigits(ds)
    requires rest == [] || !IsDigit(rest[0])
    ensures DigitSpan(ds + rest) == |ds|
    decreases |ds|
  {
    if ds != [] {
      assert (ds + rest)[1..] == ds[1..] + rest;
      DigitSpanOf(ds[1..], rest);
    } else {
      assert ds + rest == rest;
    }
  }

  /** A rendered number followed by anything that does not start with a digit reads back as
      that number, taking up exactly its rendering. */
  lemma IntPrefixOf(n: int, rest: string)
    requires rest == [] || !IsDigit(rest[0])
    ensures ParseIntPrefix(IntToString(n) + rest) == Some((n, |IntToString(n)|))
  {
    if n < 0 {
      NegativePrefixOf(-n, rest);
    } else {
      NaturalPrefixOf(n, rest);
    }
  }

  lemma NaturalPrefixOf(n: nat, rest: string)
    requires rest == [] || !IsDigit(rest[0])
    ensures ParseIntPrefix(NatToString(n) + rest) == Some((n, |NatToString(n)|))
  {
    var ds := NatToString(n);
    ParseNatToString(n);
    var s := ds + rest;
    assert s[0] == ds[0] && IsDigit(ds[0]);
    DigitSpanOf(ds, rest);
    assert s[..|ds|] == ds;
    ParseNatToString(n);
  }

  lemma NegativePrefixOf(m: nat, rest: string)
    requires m > 0
    requires rest == [] || !IsDigit(rest[0])
    ensures ParseIntPrefix("-" + NatToString(m) + rest) == Some((-(m as int), 1 + |NatToString(m)|))
  {
    var ds := NatToString(m);
    ParseNatToString(m);
    var s := "-" + ds + rest;
    assert s[0] == '-';
    assert s[1..] == ds + rest;
    DigitSpanOf(ds, rest);
    assert s[1..][..|ds|] == ds;
    ParseNatToString(m);
  }

  /** The rendering of a positive number does not start with a zero. */
  lemma {:induction false} NoLeadingZero(n: nat)
    requires n > 0
    ensures NatToString(n)[0] != '0'
  {
    if n >= 10 {
      NoLeadingZero(n / 10);
    }
  }

  /** A number below 100 and at least 10 has exactly two digits. */
  lemma TwoDigits(n: nat)
    requires 10 <= n < 100
    ensures |NatToString(n)| == 2
  {
    assert NatToString(n) == NatToString(n / 10) + [DigitChar(n % 10)];
  }
}
