/**
 The two pieces of Java string handling the index-name computation relies on:
 decimal rendering of a non-negative int (`Integer.toString`, `StringBuilder.append(int)`)
 and `String.replace(char, char)`.
 */
module Strings {

  predicate IsDigit(c: char) {
    '0' <= c <= '9'
  }

  /** The decimal digit character for 0..9. */
  function DigitChar(d: nat): (c: char)
    requires d < 10
    ensures IsDigit(c)
    ensures DigitValue(c) == d
  {
    (('0' as int) + d) as char
  }

  function DigitValue(c: char): (d: nat)
    requires IsDigit(c)
    ensures d < 10
  {
    c as int - '0' as int
  }

  /** The number a string of decimal digits denotes, most significant digit first. */
  function ValueOf(s: string): nat
    requires forall i :: 0 <= i < |s| ==> IsDigit(s[i])
  {
    if s == [] then 0 else ValueOf(s[..|s| - 1]) * 10 + DigitValue(s[|s| - 1])
  }

  /**
   Decimal rendering of a non-negative int, as `Integer.toString` gives it: only digits,
   no leading zero, and reading the digits back gives the number.
   */
  function DecimalString(n: nat): (r: string)
    ensures 1 <= |r|
    ensures forall i :: 0 <= i < |r| ==> IsDigit(r[i])
    ensures ValueOf(r) == n
    ensures |r| > 1 ==> r[0] != '0'
    ensures |r| == 1 <==> n < 10
    decreases n
  {
    if n < 10 then [DigitChar(n)]
    else
      var front := DecimalString(n / 10);
      var r := front + [DigitChar(n % 10)];
      assert r[..|r| - 1] == front;
      r
  }

  /** Two zero-padded decimal digits of a number below 100. */
  function TwoDigits(n: nat): (r: string)
    requires n < 100
    ensures |r| == 2 && IsDigit(r[0]) && IsDigit(r[1])
    ensures DigitValue(r[0]) * 10 + DigitValue(r[1]) == n
  {
    [DigitChar(n / 10), DigitChar(n % 10)]
  }

  /** Two-digit strings are equal exactly when the numbers are. */
  lemma TwoDigitsInjective(a: nat, b: nat)
    requires a < 100 && b < 100
    ensures TwoDigits(a) == TwoDigits(b) <==> a == b
  {
    if TwoDigits(a) == TwoDigits(b) {
      assert TwoDigits(a)[0] == TwoDigits(b)[0] && TwoDigits(a)[1] == TwoDigits(b)[1];
    }
  }

  /**
   The padding idiom of `LocalTime.toString`: a `"0"` in front of one-digit values,
   then the decimal rendering, gives exactly two digits.
   */
  lemma PaddedIsTwoDigits(n: nat)
    requires n < 100
    ensures (if n < 10 then "0" else "") + DecimalString(n) == TwoDigits(n)
  {
    if n >= 10 {
      assert DecimalString(n) == DecimalString(n / 10) + [DigitChar(n % 10)];
      assert DecimalString(n / 10) == [DigitChar(n / 10)];
    }
  }

  /**
   `String.replace(oldChar, newChar)`: every occurrence of oldChar becomes newChar,
   every other character stays where it is.
   */
  function ReplaceChar(s: string, oldChar: char, newChar: char): (r: string)
    ensures |r| == |s|
    ensures forall i :: 0 <= i < |s| ==> r[i] == if s[i] == oldChar then newChar else s[i]
    ensures oldChar != newChar ==> oldChar !in r
  {
    if s == [] then []
    else [if s[0] == oldChar then newChar else s[0]] + ReplaceChar(s[1..], oldChar, newChar)
  }
}
