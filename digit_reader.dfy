/** A reader over the digit stream of a block catalog: `Read` consumes
    digits from a cursor, `ReadAt` reads at an absolute offset without
    touching the cursor, and `Seek` (relative to the start) moves it.
    The reader yields the digit characters '0'..'9' and 'a'..'f'. */
module DigitReader {
  import opened WordCodec
  import opened DigitStream

  /** The error a call returns: none, end of stream (io.EOF), or a negative offset. */
  datatype Status = Ok | EndOfStream | InvalidOffset

  function Min(a: nat, b: nat): nat
  {
    if a <= b then a else b
  }

  /** Digits left in a stream of `length` digits from offset `at` (none past the end). */
  function Remaining(length: nat, at: nat): nat
  {
    if at <= length then length - at else 0
  }

  /** The number of digits a catalog's stream holds: the blocks' sizes summed,
      cut at the last non-zero declared total. */
  method StreamSize(bs: seq<Block>) returns (n: nat)
    requires CatalogOk(bs)
    ensures n == |Stream(bs)|
  {
    var sum, total, k := 0, 0, 0;
    while k < |bs|
      invariant k <= |bs|
      invariant sum == Offset(bs, k)
      invariant total == DeclaredTotal(bs[..k])
    {
      OffsetNext(bs, k);
      assert bs[..k + 1][..k] == bs[..k];
      if bs[k].totalDigits != 0 {
        total := bs[k].totalDigits;
      }
      sum, k := sum + bs[k].blockSize, k + 1;
    }
    OffsetAll(bs);
    assert bs[..k] == bs;
    n := if total == 0 then sum else total;
  }

  /** The block holding stream digit `p`, and the stream offset of that block's first digit. */
  method Locate(bs: seq<Block>, p: nat) returns (k: nat, off: nat)
    requires CatalogOk(bs) && p < |Stream(bs)|
    ensures k < |bs| && off == Offset(bs, k)
    ensures off <= p < off + bs[k].blockSize
  {
    k, off := 0, 0;
    OffsetAll(bs);
    while k < |bs| && off + bs[k].blockSize <= p
      invariant k <= |bs| && off == Offset(bs, k) <= p
      decreases |bs| - k
    {
      OffsetNext(bs, k);
      off, k := off + bs[k].blockSize, k + 1;
    }
    if k == |bs| {
      assert false;
    }
  }

  /** Stream digit `p`: decode the word holding it and pick its position in the word. */
  method DigitAt(bs: seq<Block>, p: nat) returns (c: char)
    requires CatalogOk(bs) && p < |Stream(bs)|
    ensures c == Stream(bs)[p]
  {
    var k, off := Locate(bs, p);
    StreamAt(bs, k, p);
    c := WordDigit(bs[k], p - off);
  }

  /** Copy stream digits `from .. from + n` into the front of `buf`. */
  method CopyOut(bs: seq<Block>, from: nat, n: nat, buf: array<char>)
    requires CatalogOk(bs) && from + n <= |Stream(bs)| && n <= buf.Length
    modifies buf
    ensures buf[..n] == Stream(bs)[from .. from + n]
    ensures buf[n..] == old(buf[n..])
  {
    var i := 0;
    while i < n
      invariant i <= n
      invariant buf[..i] == Stream(bs)[from .. from + i]
      invariant buf[n..] == old(buf[n..])
    {
      buf[i] := DigitAt(bs, from + i);
      i := i + 1;
    }
  }

  class Reader {
    /** The catalog the reader serves. */
    const blocks: seq<Block>
    /** The digits the reader serves. */
    ghost const content: string
    /** The number of digits in the stream. */
    const length: nat
    /** The cursor: offset of the next digit `Read` returns. */
    var pos: nat

    ghost predicate Valid()
    {
      CatalogOk(blocks) && content == Stream(blocks) && length == |content|
    }

    constructor (bs: seq<Block>)
      requires CatalogOk(bs)
      ensures Valid() && blocks == bs && content == Stream(bs) && pos == 0
    {
      var size := StreamSize(bs);
      blocks, content, length, pos := bs, Stream(bs), size, 0;
    }

    /** Read up to `buf.Length` digits at the cursor and advance it. An empty
        buffer reads nothing and succeeds; a non-empty one at the end reports
        end of stream. */
    method Read(buf: array<char>) returns (n: nat, status: Status)
      requires Valid()
      modifies this, buf
      ensures n == Min(buf.Length, Remaining(length, old(pos)))
      ensures pos == old(pos) + n
      ensures n > 0 ==> buf[..n] == content[old(pos) .. old(pos) + n]
      ensures buf[n..] == old(buf[n..])
      ensures status == if buf.Length > 0 && n == 0 then EndOfStream else Ok
    {
      n := Min(buf.Length, Remaining(length, pos));
      if n > 0 {
        CopyOut(blocks, pos, n, buf);
      }
      pos := pos + n;
      status := if buf.Length > 0 && n == 0 then EndOfStream else Ok;
    }

    /** Read up to `buf.Length` digits at offset `off`, leaving the cursor alone.
        Reading fewer digits than asked reports end of stream. */
    method ReadAt(buf: array<char>, off: int) returns (n: nat, status: Status)
      requires Valid()
      modifies buf
      ensures off < 0 ==> n == 0 && status == InvalidOffset && buf[..] == old(buf[..])
      ensures off >= 0 ==> n == Min(buf.Length, Remaining(length, off))
      ensures off >= 0 && n > 0 ==> buf[..n] == content[off .. off + n]
      ensures buf[n..] == old(buf[n..])
      ensures off >= 0 ==> status == if n < buf.Length then EndOfStream else Ok
    {
      if off < 0 {
        n, status := 0, InvalidOffset;
        return;
      }
      n := Min(buf.Length, Remaining(length, off));
      if n > 0 {
        CopyOut(blocks, off, n, buf);
      }
      status := if n < buf.Length then EndOfStream else Ok;
    }

    /** Move the cursor to absolute offset `offset` (seeking from the start).
        A negative offset is refused and leaves the cursor where it was. */
    method Seek(offset: int) returns (newPos: int, status: Status)
      requires Valid()
      modifies this
      ensures offset < 0 ==> status == InvalidOffset && pos == old(pos) && newPos == old(pos)
      ensures offset >= 0 ==> status == Ok && pos == offset && newPos == offset
    {
      if offset < 0 {
        return pos, InvalidOffset;
      }
      pos := offset;
      return offset, Ok;
    }
  }
}
