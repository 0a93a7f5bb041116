/**
 * Decimal text of integers, as `Data(int)` renders a port, and the C library's
 * `atoi`, as the scanner reads one back.
 */
module Decimal {

  predicate IsDigit(c: char) {
    '0' <= c <= '9'
  }

  /** The characters C's `isspace` accepts. */
  const CSpace: set<char> := {' ', '\t', '\n', '\U{000B}', '\U{000C}', '\r'}

  function DigitChar(d: nat): (c: char)
    requires d < 10
    ensures IsDigit(c)
  {
    (('0' as int) + d) as char
  }

  function DigitValue(c: char): (d: nat)
    requires IsDigit(c)
    ensures d < 10 && DigitChar(d) == c
  {
    (c as int) - ('0' as int)
  }

  /** The shortest decimal text of `n`: only digits, and no leading zero unless `n` is zero. */
  function NatText(n: nat): (r: string)
    ensures |r| >= 1
    ensures forall i :: 0 <= i < |r| ==> IsDigit(r[i])
    ensures r[0] == '0' ==> n == 0 && |r| == 1
    decreases n
  {
    if n < 10 then [DigitChar(n)] else NatText(n / 10) + [DigitChar(n % 10)]
  }

  /** `Data(int)`: a leading `-` for a negative value, then the digits of its magnitude. */
  function IntText(n: int): (r: string)
    ensures |r| >= 1 && (r[0] == '-' <==> n < 0)
    ensures forall i :: 0 <= i < |r| ==> IsDigit(r[i]) || (i == 0 && r[i] == '-')
  {
    if n < 0 then "-" + NatText(-n) else NatText(n)
  }

  /**
   * `atoi`'s digit loop: starting from the value `acc` read so far, each
   * leading digit of `s` multiplies it by ten and adds the digit's value; the
   * first non-digit (or the end) stops the loop.
   */
  function ReadDigits(acc: nat, s: string): nat
    decreases |s|
  {
    if |s| > 0 && IsDigit(s[0]) then ReadDigits(acc * 10 + DigitValue(s[0]), s[1..]) else acc
  }

  /** `s` with its leading C whitespace removed. */
  function DropSpace(s: string): string
    decreases |s|
  {
    if |s| > 0 && s[0] in CSpace then DropSpace(s[1..]) else s
  }

  /** An optional sign, then the value of the digits that follow it (0 if none). */
  function SignedValue(t: string): int
  {
    if |t| > 0 && t[0] == '-' then -(ReadDigits(0, t[1..]) as int)
    else if |t| > 0 && t[0] == '+' then ReadDigits(0, t[1..])
    else ReadDigits(0, t)
  }

  /**
   * C's `atoi` on the text from `s` on: leading whitespace is skipped, then an
   * optional sign and the digits that follow are read.
   */
  function AtoI(s: string): int
  {
    SignedValue(DropSpace(s))
  }

  /** The digit loop runs through a digit text `d` and then carries on with what follows it. */
  lemma {:induction false} ReadDigitsThrough(acc: nat, d: string, rest: string)
    requires forall i :: 0 <= i < |d| ==> IsDigit(d[i])
    ensures ReadDigits(acc, d + rest) == ReadDigits(ReadDigits(acc, d), rest)
    decreases |d|
  {
    if |d| == 0 {
      assert d + rest == rest;
    } else {
      assert (d + rest)[1..] == d[1..] + rest;
      ReadDigitsThrough(acc * 10 + DigitValue(d[0]), d[1..], rest);
    }
  }

  /** The digit loop reads the decimal text of `n` as `n`. */
  lemma {:induction false} NatTextValue(n: nat)
    ensures ReadDigits(0, NatText(n)) == n
    decreases n
  {
    if n >= 10 {
      var c := DigitChar(n % 10);
      NatTextValue(n / 10);
      ReadDigitsThrough(0, NatText(n / 10), [c]);
      assert [c][1..] == [];
    } else {
      assert NatText(n)[1..] == [];
    }
  }

  /** A text that starts with a digit or a sign has no leading whitespace to skip. */
  lemma NoSpaceToDrop(s: string)
    requires |s| > 0 && (IsDigit(s[0]) || s[0] == '-')
    ensures DropSpace(s) == s
  {
    assert s[0] !in CSpace;
  }

  /**
   * `atoi` reads back what `Data(int)` wrote: the decimal text of `n`, followed
   * by anything that does not start with a digit, has the value `n`.
   */
  lemma AtoIOfIntText(n: int, tail: string)
    requires |tail| == 0 || !IsDigit(tail[0])
    ensures AtoI(IntText(n) + tail) == n
  {
    var m: nat := if n < 0 then -n else n;
    var d := NatText(m);
    NatTextValue(m);
    ReadDigitsThrough(0, d, tail);
    var t := IntText(n) + tail;
    NoSpaceToDrop(t);
    if n < 0 {
      assert t[1..] == d + tail;
    } else {
      assert t == d + tail;
    }
  }
}
