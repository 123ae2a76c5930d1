/** Packed digit words: an 8-byte little-endian unsigned integer holds 19
    decimal digits or 16 hexadecimal digits, most significant digit first,
    zero-padded on the left. */
module WordCodec {
  import opened Numerals

  type byte = x: int | 0 <= x < 256

  /** The radices a block header can carry. */
  type Radix = r: int | r == 10 || r == 16 witness 10

  const WordBytes: nat := 8

  function DigitsPerWord(radix: Radix): nat
  {
    if radix == 10 then 19 else 16
  }

  function Pow(b: nat, e: nat): (p: nat)
    ensures b > 0 ==> p > 0
  {
    if e == 0 then 1 else b * Pow(b, e - 1)
  }

  /** The unsigned 64-bit integer stored little-endian in bytes `at` to
      `at + 7` of `b` (the least significant byte first). */
  function Uint64(b: seq<byte>, at: nat): (v: nat)
    requires at + WordBytes <= |b|
    ensures v < 0x1_0000_0000_0000_0000
  {
    b[at] as int + 0x100 * b[at + 1] as int + 0x1_0000 * b[at + 2] as int + 0x100_0000 * b[at + 3] as int
    + 0x1_0000_0000 * b[at + 4] as int + 0x100_0000_0000 * b[at + 5] as int
    + 0x1_0000_0000_0000 * b[at + 6] as int + 0x100_0000_0000_0000 * b[at + 7] as int
  }

  lemma PowTenNineteen()
    ensures Pow(10, 19) == 10_000_000_000_000_000_000
  {
    assert Pow(10, 1) == 10;
    assert Pow(10, 2) == 100;
    assert Pow(10, 3) == 1000;
    assert Pow(10, 4) == 10000;
    assert Pow(10, 5) == 100000;
    assert Pow(10, 6) == 1000000;
    assert Pow(10, 7) == 10000000;
    assert Pow(10, 8) == 100000000;
    assert Pow(10, 9) == 1000000000;
    assert Pow(10, 10) == 10000000000;
    assert Pow(10, 11) == 100000000000;
    assert Pow(10, 12) == 1000000000000;
    assert Pow(10, 13) == 10000000000000;
    assert Pow(10, 14) == 100000000000000;
    assert Pow(10, 15) == 1000000000000000;
    assert Pow(10, 16) == 10000000000000000;
    assert Pow(10, 17) == 100000000000000000;
    assert Pow(10, 18) == 1000000000000000000;
    assert Pow(10, 19) == 10000000000000000000;
  }

  lemma PowSixteenSixteen()
    ensures Pow(16, 16) == 0x1_0000_0000_0000_0000
  {
    assert Pow(16, 1) == 0x10;
    assert Pow(16, 2) == 0x100;
    assert Pow(16, 3) == 0x1000;
    assert Pow(16, 4) == 0x10000;
    assert Pow(16, 5) == 0x100000;
    assert Pow(16, 6) == 0x1000000;
    assert Pow(16, 7) == 0x10000000;
    assert Pow(16, 8) == 0x100000000;
    assert Pow(16, 9) == 0x1000000000;
    assert Pow(16, 10) == 0x10000000000;
    assert Pow(16, 11) == 0x100000000000;
    assert Pow(16, 12) == 0x1000000000000;
    assert Pow(16, 13) == 0x10000000000000;
    assert Pow(16, 14) == 0x100000000000000;
    assert Pow(16, 15) == 0x1000000000000000;
    assert Pow(16, 16) == 0x10000000000000000;
  }

  /** Every 8-byte word is a valid hexadecimal word: 2^64 == 16^16. */
  lemma HexWordsAlwaysFit(b: seq<byte>, at: nat)
    requires at + WordBytes <= |b|
    ensures Fits(Uint64(b, at), 16)
  {
    PowSixteenSixteen();
  }

  /** The last `n` digits of `v` in base `radix`, most significant first. */
  function Digits(v: nat, radix: nat, n: nat): (s: string)
    requires 2 <= radix <= 16
    ensures |s| == n
    decreases n
  {
    if n == 0 then [] else Digits(v / radix, radix, n - 1) + [DigitChar(v % radix)]
  }

  lemma {:induction false} DigitsAreDigits(v: nat, radix: nat, n: nat)
    requires 2 <= radix <= 16
    ensures AllDigits(Digits(v, radix, n), radix)
    decreases n
  {
    if n > 0 {
      DivModBounds(v, radix);
      DigitsAreDigits(v / radix, radix, n - 1);
      DigitRoundTrip(v % radix, radix);
      AllDigitsAppend(Digits(v / radix, radix, n - 1), DigitChar(v % radix), radix);
    }
  }

  lemma DivModBounds(v: nat, radix: nat)
    requires 2 <= radix
    ensures 0 <= v / radix && 0 <= v % radix < radix
  {
  }

  lemma QuotientBound(v: nat, radix: nat, p: nat)
    requires 2 <= radix && v < radix * p
    ensures v / radix < p
  {
  }

  lemma DivModOfSum(w: nat, d: nat, radix: nat)
    requires 0 <= d < radix
    ensures (w * radix + d) / radix == w && (w * radix + d) % radix == d
  {
    var x := w * radix + d;
    var q, m := x / radix, x % radix;
    assert radix * q + m == radix * w + d;
    if q > w {
      MulMonotone(radix, q - w);
    } else if q < w {
      MulMonotone(radix, w - q);
    }
  }

  lemma EuclideanDivision(v: nat, radix: nat)
    requires radix > 0
    ensures v == (v / radix) * radix + v % radix && v % radix < radix
  {
  }

  lemma MulMonotone(a: nat, b: nat)
    requires b >= 1
    ensures a * b >= a
  {
  }

  lemma BelowNextPower(w: nat, d: nat, radix: nat, p: nat)
    requires w < p && d < radix
    ensures w * radix + d < radix * p
  {
    assert w * radix <= (p - 1) * radix;
  }

  /** Rendering `n` digits of `v` is rendering `n - 1` digits of `v / radix`
      followed by the digit `v % radix`, so its value follows from theirs. */
  lemma DigitsStepValue(v: nat, radix: nat, n: nat)
    requires 2 <= radix <= 16 && n > 0
    requires AllDigits(Digits(v / radix, radix, n - 1), radix)
    requires Value(Digits(v / radix, radix, n - 1), radix) == v / radix
    ensures AllDigits(Digits(v, radix, n), radix)
    ensures Value(Digits(v, radix, n), radix) == v
  {
    DivModBounds(v, radix);
    DigitRoundTrip(v % radix, radix);
    ValueAppend(Digits(v / radix, radix, n - 1), DigitChar(v % radix), radix);
    EuclideanDivision(v, radix);
  }

  lemma QuotientBelowPow(v: nat, radix: nat, n: nat)
    requires 2 <= radix && n > 0 && v < Pow(radix, n)
    ensures v / radix < Pow(radix, n - 1)
  {
    QuotientBound(v, radix, Pow(radix, n - 1));
  }

  /** Reading the rendered digits back gives `v`, whenever `v` fits in `n` digits. */
  lemma {:induction false} DigitsValue(v: nat, radix: nat, n: nat)
    requires 2 <= radix <= 16 && v < Pow(radix, n)
    ensures AllDigits(Digits(v, radix, n), radix)
    ensures Value(Digits(v, radix, n), radix) == v
    decreases n
  {
    if n == 0 {
      assert Digits(v, radix, n) == [];
    } else {
      DivModBounds(v, radix);
      QuotientBelowPow(v, radix, n);
      DigitsValue(v / radix, radix, n - 1);
      DigitsStepValue(v, radix, n);
    }
  }

  /** Any `n`-digit string denotes a value below radix^n and is the rendering of that value. */
  lemma {:induction false} ValueDigits(s: string, radix: nat)
    requires 2 <= radix <= 16 && AllDigits(s, radix)
    ensures Value(s, radix) < Pow(radix, |s|)
    ensures Digits(Value(s, radix), radix, |s|) == s
  {
    if s != [] {
      var init, c := s[..|s| - 1], s[|s| - 1];
      assert s == init + [c];
      ValueDigits(init, radix);
      DigitCharOfValue(c, radix);
      var w, d := Value(init, radix), DigitValue(c);
      var v := Value(s, radix);
      assert v == w * radix + d;
      DivModOfSum(w, d, radix);
      BelowNextPower(w, d, radix, Pow(radix, |init|));
      assert Digits(v, radix, |s|) == Digits(w, radix, |init|) + [DigitChar(d)];
    }
  }

  /** A word is decodable when its value fits the radix's fixed digit count.
      Hexadecimal words always fit (HexWordsAlwaysFit). */
  predicate Fits(value: nat, radix: Radix)
  {
    value < Pow(radix, DigitsPerWord(radix))
  }

  /** The digit characters a word value stands for. */
  function DecodeWord(value: nat, radix: Radix): (s: string)
    requires Fits(value, radix)
    ensures |s| == DigitsPerWord(radix)
  {
    Digits(value, radix, DigitsPerWord(radix))
  }

  /** Decoding is exact: fixed width, only radix digits, and the digits
      read back as the word's value. */
  lemma DecodeWordRoundTrip(value: nat, radix: Radix)
    requires Fits(value, radix)
    ensures |DecodeWord(value, radix)| == DigitsPerWord(radix)
    ensures AllDigits(DecodeWord(value, radix), radix)
    ensures Value(DecodeWord(value, radix), radix) == value
  {
    DigitsValue(value, radix, DigitsPerWord(radix));
  }

  /** Every fixed-width digit string is the decoding of exactly one word value. */
  lemma DecodeWordOnto(s: string, radix: Radix)
    requires |s| == DigitsPerWord(radix) && AllDigits(s, radix)
    ensures Fits(Value(s, radix), radix)
    ensures DecodeWord(Value(s, radix), radix) == s
  {
    ValueDigits(s, radix);
  }

  /** Distinct decodable word values decode to distinct digit strings. */
  lemma DecodeWordInjective(a: nat, b: nat, radix: Radix)
    requires Fits(a, radix) && Fits(b, radix) && DecodeWord(a, radix) == DecodeWord(b, radix)
    ensures a == b
  {
    DecodeWordRoundTrip(a, radix);
    DecodeWordRoundTrip(b, radix);
  }
}
