/**
 Character classes and the pieces of regular expression that the registration
 form's validators are built from: a bounded repetition of one character class
 (`[a-zA-Z]{2,25}`, `\d{5}`) and fixed-width decimal fields, together with their
 numeric reading and printing.
 */
module Patterns {

  /** The class `[a-zA-Z]`. */
  predicate IsLetter(c: char)
  {
    'a' <= c <= 'z' || 'A' <= c <= 'Z'
  }

  /** The class `\d` as Java reads it without UNICODE_CHARACTER_CLASS: ASCII digits only. */
  predicate IsDigit(c: char)
  {
    '0' <= c <= '9'
  }

  predicate AllDigits(s: string)
  {
    forall i :: 0 <= i < |s| ==> IsDigit(s[i])
  }

  /**
   Full match of the bounded repetition `cls{lo,hi}` against `s`: every step
   consumes one character of the class, and the input must run out after at
   least `lo` and at most `hi` steps.
   */
  function Repeat(cls: char -> bool, s: string, lo: nat, hi: nat): bool
    decreases |s|
  {
    if s == [] then lo == 0
    else hi > 0 && cls(s[0]) && Repeat(cls, s[1..], if lo == 0 then 0 else lo - 1, hi - 1)
  }

  /** `cls{lo,hi}` matches exactly the strings of `lo` to `hi` characters, all in the class. */
  lemma {:induction false} RepeatMatches(cls: char -> bool, s: string, lo: nat, hi: nat)
    ensures Repeat(cls, s, lo, hi) <==> lo <= |s| <= hi && forall i :: 0 <= i < |s| ==> cls(s[i])
    decreases |s|
  {
    if s != [] && hi > 0 {
      var rest := s[1..];
      RepeatMatches(cls, rest, if lo == 0 then 0 else lo - 1, hi - 1);
      if cls(s[0]) && forall i :: 0 <= i < |rest| ==> cls(rest[i]) {
        forall i | 0 <= i < |s| ensures cls(s[i]) {
          if i > 0 { assert s[i] == rest[i - 1]; }
        }
      }
    }
  }

  function DigitValue(c: char): (d: nat)
    requires IsDigit(c)
    ensures d < 10
  {
    c as int - '0' as int
  }

  function DigitChar(d: nat): (c: char)
    requires d < 10
    ensures IsDigit(c) && DigitValue(c) == d
  {
    ('0' as int + d) as char
  }

  function Pow10(n: nat): (p: nat)
    ensures p >= 1
  {
    if n == 0 then 1 else 10 * Pow10(n - 1)
  }

  /** The number a string of decimal digits denotes (leading zeros allowed). */
  function DecimalValue(s: string): (v: nat)
    requires AllDigits(s)
    ensures v < Pow10(|s|)
  {
    if s == [] then 0 else 10 * DecimalValue(s[..|s| - 1]) + DigitValue(s[|s| - 1])
  }

  /** `n` printed in exactly `width` decimal digits, zero-padded on the left. */
  function DecimalText(n: nat, width: nat): (s: string)
    requires n < Pow10(width)
    ensures |s| == width && AllDigits(s)
  {
    if width == 0 then [] else DecimalText(n / 10, width - 1) + [DigitChar(n % 10)]
  }

  /** Printing and then reading a number gives the number back. */
  lemma {:induction false} DecimalValueOfText(n: nat, width: nat)
    requires n < Pow10(width)
    ensures DecimalValue(DecimalText(n, width)) == n
  {
    if width > 0 {
      var s := DecimalText(n, width);
      assert s[..width - 1] == DecimalText(n / 10, width - 1);
      DecimalValueOfText(n / 10, width - 1);
    }
  }

  /** Reading a digit string and printing it at the same width gives the string back. */
  lemma {:induction false} DecimalTextOfValue(s: string)
    requires AllDigits(s)
    ensures DecimalText(DecimalValue(s), |s|) == s
  {
    if s != [] {
      var init, last := s[..|s| - 1], s[|s| - 1];
      var v, w, d := DecimalValue(s), DecimalValue(init), DigitValue(last);
      assert v == 10 * w + d && d < 10;
      assert v / 10 == w && v % 10 == d;
      assert DigitChar(d) == last;
      DecimalTextOfValue(init);
      assert s == init + [last];
    }
  }

  /** The value of a two-digit string, digit by digit. */
  lemma DecimalValue2(s: string)
    requires |s| == 2 && AllDigits(s)
    ensures DecimalValue(s) == 10 * DigitValue(s[0]) + DigitValue(s[1])
  {
  }

  /** The value of a four-digit string, digit by digit. */
  lemma DecimalValue4(s: string)
    requires |s| == 4 && AllDigits(s)
    ensures DecimalValue(s) == 1000 * DigitValue(s[0]) + 100 * DigitValue(s[1]) + 10 * DigitValue(s[2]) + DigitValue(s[3])
  {
    assert s[..3][..2] == s[..2];
    DecimalValue2(s[..2]);
  }
}
