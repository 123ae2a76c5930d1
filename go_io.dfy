/** The two helpers of Go's io package that the unpack tests drive the
    reader with: io.ReadAll drains it, io.ReadFull fills a buffer exactly. */
module GoIo {
  import opened DigitReader

  /** The digits from offset `from` to the end (none when `from` is past the end). */
  function Rest(s: string, from: nat): string
  {
    if from <= |s| then s[from..] else []
  }

  function Max(a: nat, b: nat): nat
  {
    if a >= b then a else b
  }

  /** `out` holds the digits of `s` from `start` up to the cursor `pos`. */
  ghost predicate Collected(s: string, start: nat, out: string, pos: nat)
  {
    pos == start + |out| && (|out| > 0 ==> pos <= |s| && out == s[start .. pos])
  }

  /** Appending what one read returned keeps `out` the digits read so far. */
  lemma CollectedStep(s: string, start: nat, out: string, pos: nat, chunk: string)
    requires Collected(s, start, out, pos)
    requires |chunk| > 0 ==> pos + |chunk| <= |s| && chunk == s[pos .. pos + |chunk|]
    ensures Collected(s, start, out + chunk, pos + |chunk|)
  {
    if |chunk| > 0 && |out| == 0 {
      assert out + chunk == chunk;
    }
  }

  /** One call to Read, its digits appended to those collected so far. A
      call at the end of the stream reads nothing and reports it. */
  method ReadStep(r: Reader, buf: array<char>, ghost start: nat, out: string) returns (grown: string, done: bool)
    requires r.Valid() && buf.Length > 0 && Collected(r.content, start, out, r.pos)
    modifies r, buf
    ensures Collected(r.content, start, grown, r.pos)
    ensures done == (old(r.pos) >= r.length)
    ensures |out| <= |grown| <= |out| + buf.Length
    ensures done ==> grown == out
    ensures !done ==> |grown| > |out| && Remaining(r.length, r.pos) < Remaining(r.length, old(r.pos))
  {
    var n, status := r.Read(buf);
    var chunk := buf[..n];
    CollectedStep(r.content, start, out, r.pos - n, chunk);
    grown := out + chunk;
    done := status == EndOfStream;
  }

  /** Read until end of stream, collecting every digit. */
  method ReadAll(r: Reader) returns (out: string)
    requires r.Valid()
    modifies r
    ensures out == Rest(r.content, old(r.pos))
    ensures r.pos == Max(old(r.pos), r.length)
  {
    var buf := new char[512];
    ghost var start := r.pos;
    out := [];
    var done := false;
    while !done
      invariant Collected(r.content, start, out, r.pos)
      invariant done ==> r.pos >= r.length
      decreases Remaining(r.length, r.pos) + (if done then 0 else 1)
    {
      out, done := ReadStep(r, buf, start, out);
    }
    Drained(r.content, start, out, r.pos);
  }

  lemma Drained(s: string, start: nat, out: string, pos: nat)
    requires Collected(s, start, out, pos) && pos >= |s|
    ensures out == Rest(s, start) && pos == Max(start, |s|)
  {
  }

  /** Read exactly `size` digits, or report how the stream fell short:
      end of stream when nothing was read, unexpected end when only part was. */
  method ReadFull(r: Reader, size: nat) returns (out: string, status: FullStatus)
    requires r.Valid()
    modifies r
    ensures out == Rest(r.content, old(r.pos))[..Min(size, Remaining(r.length, old(r.pos)))]
    ensures r.pos == old(r.pos) + |out|
    ensures status == if |out| == size then Filled else if |out| == 0 then Empty else Short
  {
    ghost var start := r.pos;
    out := [];
    var done := false;
    while |out| < size && !done
      invariant |out| <= size
      invariant Collected(r.content, start, out, r.pos)
      invariant done ==> r.pos >= r.length
      decreases size - |out|, if done then 0 else 1
    {
      var buf := new char[size - |out|];
      out, done := ReadStep(r, buf, start, out);
    }
    FullRead(r.content, start, size, out, r.pos, done);
    status := if |out| == size then Filled else if |out| == 0 then Empty else Short;
  }

  lemma FullRead(s: string, start: nat, size: nat, out: string, pos: nat, done: bool)
    requires |out| <= size && Collected(s, start, out, pos)
    requires done ==> pos >= |s|
    requires |out| == size || done
    ensures out == Rest(s, start)[..Min(size, Remaining(|s|, start))]
  {
  }

  /** How io.ReadFull ends: the buffer filled, nothing read (io.EOF), or part read (io.ErrUnexpectedEOF). */
  datatype FullStatus = Filled | Empty | Short
}
