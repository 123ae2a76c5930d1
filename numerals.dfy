/** Digit characters, their values, positional value of a digit string, and
    base-10 rendering of integers (Go's strconv.Itoa / %d). */
module Numerals {

  /** The digit alphabet shared by both radices: '0'..'9', then 'a'..'f'. */
  function DigitChar(d: nat): char
    requires d < 16
  {
    if d < 10 then ('0' as int + d) as char else ('a' as int + d - 10) as char
  }

  /** `c` is a lowercase digit of base `radix` (radix at most 16). */
  predicate IsDigit(c: char, radix: nat) {
    || ('0' <= c <= '9' && c as int - '0' as int < radix)
    || ('a' <= c <= 'f' && c as int - 'a' as int + 10 < radix)
  }

  predicate AllDigits(s: string, radix: nat) {
    forall i :: 0 <= i < |s| ==> IsDigit(s[i], radix)
  }

  lemma AllDigitsAppend(s: string, c: char, radix: nat)
    requires AllDigits(s, radix) && IsDigit(c, radix)
    ensures AllDigits(s + [c], radix)
  {
  }

  function DigitValue(c: char): (d: nat)
    requires IsDigit(c, 16)
    ensures d < 16
  {
    if '0' <= c <= '9' then c as int - '0' as int else c as int - 'a' as int + 10
  }

  lemma DigitRoundTrip(d: nat, radix: nat)
    requires d < radix <= 16
    ensures IsDigit(DigitChar(d), radix) && DigitValue(DigitChar(d)) == d
  {
  }

  lemma DigitCharOfValue(c: char, radix: nat)
    requires radix <= 16 && IsDigit(c, radix)
    ensures DigitValue(c) < radix && DigitChar(DigitValue(c)) == c
  {
  }

  /** The number a digit string denotes in base `radix`, most significant digit first. */
  function Value(s: string, radix: nat): nat
    requires radix <= 16 && AllDigits(s, radix)
  {
    if s == [] then 0
    else Value(s[..|s| - 1], radix) * radix + DigitValue(s[|s| - 1])
  }

  lemma ValueAppend(s: string, c: char, radix: nat)
    requires radix <= 16 && AllDigits(s, radix) && IsDigit(c, radix)
    ensures AllDigits(s + [c], radix)
    ensures Value(s + [c], radix) == Value(s, radix) * radix + DigitValue(c)
  {
    assert (s + [c])[..|s|] == s;
  }

  /** Base-10 rendering of a natural number, without leading zeros. */
  function NatDecimal(n: nat): string
  {
    if n < 10 then [DigitChar(n)] else NatDecimal(n / 10) + [DigitChar(n % 10)]
  }

  /** Base-10 rendering of an integer, with a leading '-' when negative. */
  function Decimal(n: int): string
  {
    if n < 0 then "-" + NatDecimal(-n) else NatDecimal(n)
  }

  /** NatDecimal yields a canonical decimal numeral whose value is `n`. */
  lemma {:induction false} NatDecimalValue(n: nat)
    ensures |NatDecimal(n)| > 0 && AllDigits(NatDecimal(n), 10)
    ensures NatDecimal(n)[0] == '0' <==> n == 0
    ensures Value(NatDecimal(n), 10) == n
  {
    if n < 10 {
      DigitRoundTrip(n, 10);
      assert NatDecimal(n) == [DigitChar(n)];
      assert Value([DigitChar(n)], 10) == Value([], 10) * 10 + DigitValue(DigitChar(n));
    } else {
      NatDecimalValue(n / 10);
      DigitRoundTrip(n % 10, 10);
      ValueAppend(NatDecimal(n / 10), DigitChar(n % 10), 10);
    }
  }

  lemma TenSplit(w: nat, d: nat)
    requires d < 10
    ensures (w * 10 + d) / 10 == w && (w * 10 + d) % 10 == d
  {
  }

  /** Integer digit strings are canonical decimal numerals: this is the
      inverse direction of NatDecimalValue. */
  lemma {:induction false} DecimalOfValue(s: string)
    requires |s| > 0 && AllDigits(s, 10) && (s[0] == '0' ==> |s| == 1)
    ensures NatDecimal(Value(s, 10)) == s
  {
    var init, c := s[..|s| - 1], s[|s| - 1];
    assert s == init + [c];
    DigitCharOfValue(c, 10);
    ValueAppend(init, c, 10);
    if init == [] {
      assert Value(s, 10) == DigitValue(c);
    } else {
      assert init[0] == s[0];
      DecimalOfValue(init);
      NatDecimalValue(Value(init, 10));
      assert Value(init, 10) > 0;
      TenSplit(Value(init, 10), DigitValue(c));
    }
  }
}
