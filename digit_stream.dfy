/** A catalog of blocks and the logical digit stream it denotes.

    Each block holds a payload of packed 8-byte words. A block contributes
    only the first `blockSize` digits of its decoded words; blocks follow each
    other in catalog order; and the whole stream is cut at the declared total,
    which only the blocks carrying a non-zero `totalDigits` declare (the last
    such block wins; zero everywhere means no cut). */
module DigitStream {
  import opened Numerals
  import opened WordCodec

  /** A stored block: its header fields and its packed-word payload. */
  datatype Block = Block(radix: Radix, blockSize: nat, totalDigits: nat, payload: seq<byte>)

  function WordCount(b: Block): nat
  {
    |b.payload| / WordBytes
  }

  /** The value of word `j` of a block's payload. */
  function WordAt(b: Block, j: nat): nat
    requires j < WordCount(b)
  {
    WordInPayload(b, j);
    Uint64(b.payload, WordBytes * j)
  }

  lemma WordInPayload(b: Block, j: nat)
    requires j < WordCount(b)
    ensures WordBytes * j + WordBytes <= |b.payload|
  {
    MulLeq(j + 1, WordCount(b), WordBytes);
  }

  /** Every word of the block decodes, and the words hold at least `blockSize` digits. */
  predicate BlockOk(b: Block)
  {
    && (forall j :: 0 <= j < WordCount(b) ==> Fits(WordAt(b, j), b.radix))
    && b.blockSize <= WordCount(b) * DigitsPerWord(b.radix)
  }

  /** Strings joined end to end, in order. */
  function Concat(parts: seq<string>): (s: string)
  {
    if parts == [] then [] else Concat(parts[..|parts| - 1]) + parts[|parts| - 1]
  }

  lemma ConcatNext(parts: seq<string>, k: nat)
    requires k < |parts|
    ensures Concat(parts[..k + 1]) == Concat(parts[..k]) + parts[k]
  {
    assert parts[..k + 1][..k] == parts[..k];
  }

  lemma ConcatAll(parts: seq<string>)
    ensures Concat(parts[..|parts|]) == Concat(parts)
  {
    assert parts[..|parts|] == parts;
  }

  /** Character `p` of a concatenation lies in the part whose range holds `p`. */
  lemma {:induction false} ConcatAt(parts: seq<string>, k: nat, p: nat)
    requires k < |parts|
    requires |Concat(parts[..k])| <= p < |Concat(parts[..k])| + |parts[k]|
    ensures p < |Concat(parts)| && Concat(parts)[p] == parts[k][p - |Concat(parts[..k])|]
    decreases |parts|
  {
    var init := parts[..|parts| - 1];
    if k == |parts| - 1 {
      assert parts[..k] == init;
    } else {
      assert init[..k] == parts[..k];
      ConcatAt(init, k, p);
    }
  }

  /** Concatenating parts of one width `d`: character `q` is character
      `q % d` of part `q / d`. */
  lemma {:induction false} UniformAt(parts: seq<string>, d: nat, q: nat)
    requires d > 0 && forall i :: 0 <= i < |parts| ==> |parts[i]| == d
    requires q < |parts| * d
    ensures |Concat(parts)| == |parts| * d
    ensures q / d < |parts| && Concat(parts)[q] == parts[q / d][q % d]
    decreases |parts|
  {
    var m := |parts|;
    var init := parts[..m - 1];
    var split := (m - 1) * d;
    MulPred(m, d);
    if q < split {
      UniformAt(init, d, q);
    } else {
      UniformWidth(init, d);
      DivModWithin(q, d, m - 1);
    }
  }

  lemma {:induction false} UniformWidth(parts: seq<string>, d: nat)
    requires forall i :: 0 <= i < |parts| ==> |parts[i]| == d
    ensures |Concat(parts)| == |parts| * d
    decreases |parts|
  {
    if parts != [] {
      UniformWidth(parts[..|parts| - 1], d);
      MulPred(|parts|, d);
    }
  }

  lemma MulPred(m: nat, d: nat)
    requires m > 0
    ensures (m - 1) * d + d == m * d
  {
  }

  lemma DivModWithin(q: nat, d: nat, k: nat)
    requires d > 0 && k * d <= q < k * d + d
    ensures q / d == k && q % d == q - k * d
  {
    DivModOfSum(k, q - k * d, d);
  }

  /** The decodings of a block's words, in payload order. */
  function WordStrings(b: Block): (w: seq<string>)
    requires BlockOk(b)
    ensures |w| == WordCount(b)
  {
    seq(WordCount(b), j requires 0 <= j < WordCount(b) => DecodeWord(WordAt(b, j), b.radix))
  }

  /** All digits a block's words hold. */
  function WordDigits(b: Block): (s: string)
    requires BlockOk(b)
    ensures |s| == WordCount(b) * DigitsPerWord(b.radix)
  {
    UniformWidth(WordStrings(b), DigitsPerWord(b.radix));
    Concat(WordStrings(b))
  }

  /** The digits a block contributes to the stream. */
  function BlockDigits(b: Block): (s: string)
    requires BlockOk(b)
    ensures |s| == b.blockSize
  {
    WordDigits(b)[..b.blockSize]
  }

  /** Digit `q` of a block: digit `q % dpw` of the decoding of word `q / dpw`. */
  function WordDigit(b: Block, q: nat): char
    requires BlockOk(b) && q < WordCount(b) * DigitsPerWord(b.radix)
  {
    var d := DigitsPerWord(b.radix);
    QuotientBelow(q, d, WordCount(b));
    DecodeWord(WordAt(b, q / d), b.radix)[q % d]
  }

  lemma QuotientBelow(q: nat, d: nat, m: nat)
    requires d > 0 && q < m * d
    ensures q / d < m
  {
    if q / d >= m {
      MulLeq(m, q / d, d);
    }
  }

  lemma MulLeq(a: nat, b: nat, d: nat)
    requires a <= b
    ensures a * d <= b * d
  {
  }

  lemma WordDigitsAt(b: Block, q: nat)
    requires BlockOk(b) && q < WordCount(b) * DigitsPerWord(b.radix)
    ensures WordDigits(b)[q] == WordDigit(b, q)
  {
    var ws, d := WordStrings(b), DigitsPerWord(b.radix);
    assert forall i :: 0 <= i < |ws| ==> |ws[i]| == d by {
      forall i | 0 <= i < |ws| ensures |ws[i]| == d {
        assert ws[i] == DecodeWord(WordAt(b, i), b.radix);
      }
    }
    UniformAt(ws, d, q);
    assert ws[q / d] == DecodeWord(WordAt(b, q / d), b.radix);
  }

  predicate BlocksOk(bs: seq<Block>)
  {
    forall k :: 0 <= k < |bs| ==> BlockOk(bs[k])
  }

  /** The contribution of each block, in catalog order. */
  function Pieces(bs: seq<Block>): (ps: seq<string>)
    requires BlocksOk(bs)
    ensures |ps| == |bs|
  {
    seq(|bs|, k requires 0 <= k < |bs| => BlockDigits(bs[k]))
  }

  /** All block contributions, in catalog order. */
  function Raw(bs: seq<Block>): string
    requires BlocksOk(bs)
  {
    Concat(Pieces(bs))
  }

  /** Stream offset of the first digit of block `k`: the digits the blocks before it contribute. */
  function Offset(bs: seq<Block>, k: nat): nat
    requires BlocksOk(bs) && k <= |bs|
  {
    |Concat(Pieces(bs)[..k])|
  }

  /** The declared stream length: the last non-zero `totalDigits`, or 0. */
  function DeclaredTotal(bs: seq<Block>): nat
  {
    if bs == [] then 0
    else if bs[|bs| - 1].totalDigits != 0 then bs[|bs| - 1].totalDigits
    else DeclaredTotal(bs[..|bs| - 1])
  }

  /** A catalog whose blocks all decode and whose declared total they cover. */
  predicate CatalogOk(bs: seq<Block>)
  {
    BlocksOk(bs) && DeclaredTotal(bs) <= |Raw(bs)|
  }

  /** The logical digit stream of a catalog. */
  function Stream(bs: seq<Block>): string
    requires CatalogOk(bs)
  {
    var total := DeclaredTotal(bs);
    if total == 0 then Raw(bs) else Raw(bs)[..total]
  }

  lemma OffsetNext(bs: seq<Block>, k: nat)
    requires BlocksOk(bs) && k < |bs|
    ensures Offset(bs, k + 1) == Offset(bs, k) + bs[k].blockSize
  {
    ConcatNext(Pieces(bs), k);
  }

  lemma OffsetAll(bs: seq<Block>)
    requires BlocksOk(bs)
    ensures Offset(bs, |bs|) == |Raw(bs)|
  {
    ConcatAll(Pieces(bs));
  }

  lemma {:induction false} OffsetMonotone(bs: seq<Block>, i: nat, j: nat)
    requires BlocksOk(bs) && i <= j <= |bs|
    ensures Offset(bs, i) <= Offset(bs, j)
    decreases j - i
  {
    if i < j {
      OffsetNext(bs, i);
      OffsetMonotone(bs, i + 1, j);
    }
  }

  /** The decoded-position mapping: stream digit `p`, which lies `q` digits
      into block `k`, is digit `q % dpw` of word `q / dpw` of that block. */
  lemma StreamAt(bs: seq<Block>, k: nat, p: nat)
    requires CatalogOk(bs) && k < |bs| && p < |Stream(bs)|
    requires Offset(bs, k) <= p < Offset(bs, k) + bs[k].blockSize
    ensures BlockOk(bs[k]) && p - Offset(bs, k) < bs[k].blockSize
    ensures Stream(bs)[p] == WordDigit(bs[k], p - Offset(bs, k))
  {
    var q := p - Offset(bs, k);
    assert BlockOk(bs[k]);
    ConcatAt(Pieces(bs), k, p);
    WordDigitsAt(bs[k], q);
  }

  lemma SingletonRaw(b: Block)
    requires BlockOk(b)
    ensures BlocksOk([b]) && Raw([b]) == BlockDigits(b) && DeclaredTotal([b]) == b.totalDigits
  {
    var ps := Pieces([b]);
    ConcatNext(ps, 0);
    ConcatAll(ps);
    assert ps[..0] == [] && [b][..0] == [];
  }

  /** A single block that declares no total and whose size is all of its
      words' digits denotes exactly the concatenated decodings of its words. */
  lemma SingleBlockStream(b: Block)
    requires BlockOk(b) && b.totalDigits == 0 && b.blockSize == WordCount(b) * DigitsPerWord(b.radix)
    ensures CatalogOk([b])
    ensures Stream([b]) == Concat(WordStrings(b))
  {
    SingletonRaw(b);
    var all := WordDigits(b);
    assert all[..|all|] == all;
  }

  /** Strings of radix digits joined end to end are radix digits. */
  lemma {:induction false} ConcatDigits(parts: seq<string>, radix: nat)
    requires forall i :: 0 <= i < |parts| ==> AllDigits(parts[i], radix)
    ensures AllDigits(Concat(parts), radix)
    decreases |parts|
  {
    if parts != [] {
      var init, last := parts[..|parts| - 1], parts[|parts| - 1];
      assert forall i :: 0 <= i < |init| ==> init[i] == parts[i];
      ConcatDigits(init, radix);
      var c := Concat(init) + last;
      assert forall k :: |Concat(init)| <= k < |c| ==> c[k] == last[k - |Concat(init)|];
    }
  }

  /** A block contributes only digits of its radix. */
  lemma BlockDigitsInRadix(b: Block)
    requires BlockOk(b)
    ensures AllDigits(BlockDigits(b), b.radix)
  {
    var ws := WordStrings(b);
    forall j | 0 <= j < |ws| ensures AllDigits(ws[j], b.radix) {
      DecodeWordRoundTrip(WordAt(b, j), b.radix);
    }
    ConcatDigits(ws, b.radix);
  }

  /** The stream of a catalog whose blocks all have radix `radix` consists of digits of that radix. */
  lemma StreamAllDigits(bs: seq<Block>, radix: Radix)
    requires CatalogOk(bs)
    requires forall k :: 0 <= k < |bs| ==> bs[k].radix == radix
    ensures AllDigits(Stream(bs), radix)
  {
    var ps := Pieces(bs);
    forall k | 0 <= k < |ps| ensures AllDigits(ps[k], radix) {
      BlockDigitsInRadix(bs[k]);
    }
    ConcatDigits(ps, radix);
  }
}
