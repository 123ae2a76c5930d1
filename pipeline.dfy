/** One run of the palindrome search: each scheduled task seeks a fresh
    reader to its start, copies its digits and scans them; and the proof
    that with reads ending at each task's own chunk end no short palindrome
    of the stream is lost at a chunk boundary. */
module Pipeline {
  import opened DigitStream
  import opened DigitReader
  import opened GoIo
  import opened Scanner
  import opened Scheduler

  /** How processing one task ends: the seek refused its start, the copy
      came up short (the program exits), or the lines the scan wrote. */
  datatype Outcome = SeekFailed | CopyFailed | Written(lines: seq<string>)

  /** What processing a task that starts at `start` and copies `count > 0`
      digits yields on the stream of catalog `bs`. */
  function Expected(bs: seq<Block>, start: int, count: nat, offset: nat): Outcome
    requires CatalogOk(bs)
  {
    if start < 0 then SeekFailed
    else if start + count > |Stream(bs)| then CopyFailed
    else Written(CandidateLines(start, Stream(bs)[start .. start + count], offset))
  }

  /** Process one task: seek a new reader to the task's start, copy `count`
      digits from there, and scan them. */
  method Process(bs: seq<Block>, t: Task, count: nat) returns (o: Outcome)
    requires CatalogOk(bs) && count > 0
    ensures o == Expected(bs, t.start, count, t.offset)
  {
    var urd := new Reader(bs);
    var _, seeked := urd.Seek(t.start);
    if seeked != Ok {
      return SeekFailed;
    }
    var digits, copied := ReadFull(urd, count);
    if copied != Filled {
      return CopyFailed;
    }
    CopiedDigits(urd.content, t.start, count, digits);
    var lines := FindCandidates(t.start, digits, t.offset);
    return Written(lines);
  }

  /** A full copy of `count` digits from `start` is that slice of the stream. */
  lemma CopiedDigits(s: string, start: nat, count: nat, out: string)
    requires count > 0 && out == Rest(s, start)[..Min(count, Remaining(|s|, start))]
    ensures |out| == count <==> start + count <= |s|
    ensures |out| == count ==> out == s[start .. start + count]
  {
  }

  /** The digits a task copies when its read ends at its own chunk end. */
  function CorrectedCount(t: Task): (n: nat)
    ensures t == TaskAt(t.id) ==> n == if t.id == 0 then ChunkSize else ChunkSize + Overlap
  {
    if t.start <= CorrectedEnd(t) then CorrectedEnd(t) - t.start else 0
  }

  /** Run every task of the schedule that counts from `first` to the
      stream's length, one after another, each copying ChunkSize digits
      from its start. The first task that fails ends the run: a short copy
      exits the program, and a refused seek fails every retry alike and
      cancels the remaining tasks. */
  method Run(bs: seq<Block>, first: int) returns (tasks: seq<Task>, outcomes: seq<Outcome>)
    requires CatalogOk(bs)
    ensures IsSchedule(tasks, first, |Stream(bs)|)
    ensures |outcomes| <= |tasks|
    ensures forall k :: 0 <= k < |outcomes| ==> outcomes[k] == Expected(bs, tasks[k].start, ChunkSize, tasks[k].offset)
    ensures forall k :: 0 <= k < |outcomes| - 1 ==> outcomes[k].Written?
    ensures |outcomes| < |tasks| ==> |outcomes| > 0 && !outcomes[|outcomes| - 1].Written?
  {
    var total := StreamSize(bs);
    tasks := MakeTasks(first, total);
    outcomes := [];
    while |outcomes| < |tasks|
      invariant RunSoFar(bs, tasks, outcomes)
      invariant forall k :: 0 <= k < |outcomes| ==> outcomes[k].Written?
    {
      var t := tasks[|outcomes|];
      var o := Process(bs, t, ChunkSize);
      RunStep(bs, tasks, outcomes, o);
      outcomes := outcomes + [o];
      if !o.Written? {
        return;
      }
    }
  }

  /** The outcomes so far are those of the first tasks, in order, and all
      but the last of them wrote their lines. */
  ghost predicate RunSoFar(bs: seq<Block>, tasks: seq<Task>, outcomes: seq<Outcome>)
    requires CatalogOk(bs)
  {
    && |outcomes| <= |tasks|
    && (forall k :: 0 <= k < |outcomes| ==> outcomes[k] == Expected(bs, tasks[k].start, ChunkSize, tasks[k].offset))
    && (forall k :: 0 <= k < |outcomes| - 1 ==> outcomes[k].Written?)
  }

  /** After outcomes that all wrote their lines, appending the next task's outcome keeps them those of the first tasks. */
  lemma RunStep(bs: seq<Block>, tasks: seq<Task>, outcomes: seq<Outcome>, o: Outcome)
    requires CatalogOk(bs) && RunSoFar(bs, tasks, outcomes) && |outcomes| < |tasks|
    requires forall k :: 0 <= k < |outcomes| ==> outcomes[k].Written?
    requires var t := tasks[|outcomes|]; o == Expected(bs, t.start, ChunkSize, t.offset)
    ensures RunSoFar(bs, tasks, outcomes + [o])
  {
  }

  /** A ring of the stream and the same ring of a chunk cut from it agree
      whenever both its digits lie inside the chunk. */
  lemma RingInChunk(s: string, lo: nat, hi: nat, c: nat, k: nat)
    requires lo + k <= c && c + k < hi <= |s|
    ensures Ring(s[lo .. hi], c - lo, k) == Ring(s, c, k)
  {
  }

  /** A palindrome whose mismatch ring lies inside a chunk grows in the chunk
      exactly as far as in the whole stream. */
  lemma {:induction false} ExpandInChunk(s: string, lo: nat, hi: nat, c: nat, p: nat)
    requires p <= Expand(s, c, p)
    requires lo + Expand(s, c, p) <= c && c + Expand(s, c, p) < hi <= |s|
    ensures Expand(s[lo .. hi], c - lo, p) == Expand(s, c, p)
    decreases Expand(s, c, p) - p
  {
    var q := Expand(s, c, p);
    RingInChunk(s, lo, hi, c, p);
    if p < q {
      assert Ring(s, c, p);
      ExpandInChunk(s, lo, hi, c, p + 1);
    }
  }

  /** No palindrome is lost at a chunk boundary: when the stream's length
      is a whole number of chunks and a run starts from zero, every centre
      of the stream whose palindrome reaches half-width `q` of at least 9,
      and whose span with one more digit on each side fits in Overlap
      digits inside the stream, is reported by some task with the same
      palindrome text, once its read ends at its own chunk end. */
  lemma NoPalindromeLost(s: string, tasks: seq<Task>, c: nat, q: nat)
    requires IsSchedule(tasks, 0, |s|) && |s| % ChunkSize == 0
    requires q == Expand(s, c, 1) && 9 <= q && q + 1 <= c && c + q + 1 <= |s| && 2 * q + 2 <= Overlap
    ensures exists k :: 0 <= k < |tasks| && ReportedBy(s, tasks[k], c, q)
  {
    var k := CoveringTask(tasks, |s|, c - q - 1, c + q + 1);
    ChunkEnd(k, |s|);
    assert tasks[k].id == k * ChunkSize;
    TaskReports(s, tasks[k], c, q);
  }

  /** A task whose corrected read holds the palindrome with one extra digit on each side reports it. */
  lemma TaskReports(s: string, t: Task, c: nat, q: nat)
    requires q == Expand(s, c, 1) && 9 <= q
    requires 0 <= t.start && t.start + q + 1 <= c && c + q + 1 <= CorrectedEnd(t) <= |s|
    ensures ReportedBy(s, t, c, q)
  {
    var hi := t.start + CorrectedCount(t);
    assert hi == CorrectedEnd(t);
    ReportedInChunk(s, t.start, hi, c, q);
  }

  /** Task `t`, reading to its own chunk end inside stream `s`, reports
      centre `c` of the stream with its palindrome of half-width `q`: the
      scan of its chunk emits that centre (so, by `EmittedIsWritten`, writes
      its line) with the same palindrome text. */
  predicate ReportedBy(s: string, t: Task, c: nat, q: nat)
  {
    && 0 <= t.start <= c && t.start + CorrectedCount(t) <= |s| && 1 <= q <= c && c + q <= |s|
    && var chunk := s[t.start .. t.start + CorrectedCount(t)];
       Emits(chunk, c - t.start, 1) && Pal(chunk, c - t.start, 1) == s[c - q + 1 .. c + q]
  }

  /** A chunk that holds a stream palindrome with one extra digit on each side emits its centre with the same text. */
  lemma ReportedInChunk(s: string, lo: nat, hi: nat, c: nat, q: nat)
    requires q == Expand(s, c, 1) && 9 <= q && lo + q + 1 <= c && c + q + 1 <= hi <= |s|
    ensures var chunk, i := s[lo .. hi], c - lo;
      Emits(chunk, i, 1) && Pal(chunk, i, 1) == s[c - q + 1 .. c + q]
  {
    var chunk := s[lo .. hi];
    var i := c - lo;
    ExpandInChunk(s, lo, hi, c, 1);
    assert Expand(chunk, i, 1) == q;
    assert Emits(chunk, i, 1);
    assert Pal(chunk, i, 1) == chunk[i - q + 1 .. i + q];
    SliceOfSlice(s, lo, hi, i - q + 1, i + q);
    assert Pal(chunk, i, 1) == s[c - q + 1 .. c + q];
  }

  lemma SliceOfSlice(s: string, lo: nat, hi: nat, a: nat, b: nat)
    requires lo <= hi <= |s| && a <= b <= hi - lo
    ensures s[lo .. hi][a .. b] == s[lo + a .. lo + b]
  {
    var x, y := s[lo .. hi][a .. b], s[lo + a .. lo + b];
    assert |x| == |y|;
    forall j | 0 <= j < |x| ensures x[j] == y[j] {
      assert x[j] == s[lo .. hi][a + j];
    }
  }

  /** When the total is a whole number of chunks, every scheduled chunk ends inside the stream. */
  lemma ChunkEnd(k: nat, total: nat)
    requires k * ChunkSize < total && total % ChunkSize == 0
    ensures k * ChunkSize + ChunkSize <= total
  {
    var m := total / ChunkSize;
    assert total == m * ChunkSize;
  }
}
