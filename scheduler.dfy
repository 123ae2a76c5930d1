/** The task schedule: the digit stream is cut into chunks of
    ChunkSize digits, and every chunk after the first is started Overlap
    digits early so that a palindrome straddling a chunk boundary is seen
    whole by one task. */
module Scheduler {

  const ChunkSize: nat := 100_000_000
  const Overlap: nat := 1000

  /** One unit of work: where the digits to scan begin, the digit count
      recorded with it, the half-width each palindrome starts at, and the
      chunk number (the loop counter that produced it). */
  datatype Task = Task(start: int, n: int, offset: nat, id: int)

  /** The task the scheduling loop builds for counter value `i`. */
  function TaskAt(i: int): (t: Task)
    ensures t.id == i && t.n == ChunkSize && t.offset == 1
    ensures t.start == (if i == 0 then 0 else i - Overlap)
  {
    Task(if i == 0 then i else i - Overlap, ChunkSize, 1, i)
  }

  /** `tasks` is what the scheduling loop sends, in order, when counting from
      `first` in steps of ChunkSize while the counter is below `total`. */
  predicate IsSchedule(tasks: seq<Task>, first: int, total: int)
  {
    && (forall k :: 0 <= k < |tasks| ==> first + k * ChunkSize < total && tasks[k] == TaskAt(first + k * ChunkSize))
    && first + |tasks| * ChunkSize >= total
  }

  /** Build the tasks for one run: counters `first`, `first + ChunkSize`, ...
      below `total`. */
  method MakeTasks(first: int, total: int) returns (tasks: seq<Task>)
    ensures IsSchedule(tasks, first, total)
  {
    tasks := [];
    var i := first;
    while i < total
      invariant i == first + |tasks| * ChunkSize
      invariant forall k :: 0 <= k < |tasks| ==> first + k * ChunkSize < total && tasks[k] == TaskAt(first + k * ChunkSize)
      invariant |tasks| > 0 ==> i - ChunkSize < total
      decreases total - i
    {
      var s;
      if i == 0 {
        s := i;
      } else {
        s := i - Overlap;
      }
      tasks := tasks + [Task(s, ChunkSize, 1, i)];
      i := i + ChunkSize;
    }
  }

  /** A schedule counting from zero has task `k` start at chunk `k` (less
      the overlap after the first), has exactly as many tasks as chunks
      needed to reach `total`, and gives every task ChunkSize digits. */
  lemma ScheduleFromZero(tasks: seq<Task>, total: int)
    requires IsSchedule(tasks, 0, total) && total > 0
    ensures |tasks| > 0 && (|tasks| - 1) * ChunkSize < total <= |tasks| * ChunkSize
    ensures tasks[0].start == 0
    ensures forall k :: 1 <= k < |tasks| ==> tasks[k].start == k * ChunkSize - Overlap
    ensures forall k :: 0 <= k < |tasks| ==> tasks[k].n == ChunkSize && tasks[k].offset == 1 && tasks[k].id == k * ChunkSize
  {
  }

  /** Where the digits a task scans end, as the program reads them:
      always ChunkSize digits from its start, whatever its chunk. */
  function AsWrittenEnd(t: Task): int
  {
    t.start + ChunkSize
  }

  /** Reading ChunkSize digits from an early start leaves every later task
      late by the same Overlap: only the first two tasks overlap (by exactly
      Overlap digits), and from then on each task begins exactly where the
      one before it ends. */
  lemma AsWrittenSpans(tasks: seq<Task>, total: int)
    requires IsSchedule(tasks, 0, total) && |tasks| >= 2
    ensures AsWrittenEnd(tasks[0]) - tasks[1].start == Overlap
    ensures forall k :: 1 <= k < |tasks| - 1 ==> AsWrittenEnd(tasks[k]) == tasks[k + 1].start
  {
  }

  /** With three chunks, the 20 digits around stream position 2 * ChunkSize
      - Overlap lie in no task's digits as the program reads them, so a
      palindrome of length 17 centred there is never reported. */
  lemma AsWrittenGap(tasks: seq<Task>)
    requires IsSchedule(tasks, 0, 3 * ChunkSize)
    ensures |tasks| == 3
    ensures forall k :: 0 <= k < |tasks| ==>
      !(tasks[k].start <= 2 * ChunkSize - Overlap - 10 && 2 * ChunkSize - Overlap + 10 <= AsWrittenEnd(tasks[k]))
  {
    assert tasks[0].start == 0 && tasks[1].start == ChunkSize - Overlap && tasks[2].start == 2 * ChunkSize - Overlap;
  }

  /** Where the digits a task should scan end: at the end of its own chunk,
      so that a task started Overlap digits early reads Overlap more. */
  function CorrectedEnd(t: Task): int
  {
    t.id + ChunkSize
  }

  /** With the corrected reads every window of at most Overlap digits in
      the stream lies whole in the digits of some task. */
  lemma CorrectedCoverage(tasks: seq<Task>, total: int, a: int, b: int)
    requires IsSchedule(tasks, 0, total)
    requires 0 <= a < b <= total && b - a <= Overlap
    ensures exists k :: 0 <= k < |tasks| && tasks[k].start <= a && b <= CorrectedEnd(tasks[k])
  {
    var k := CoveringTask(tasks, total, a, b);
  }

  /** The index of a task whose corrected digits hold the window `[a, b)`. */
  lemma CoveringTask(tasks: seq<Task>, total: int, a: int, b: int) returns (k: nat)
    requires IsSchedule(tasks, 0, total)
    requires 0 <= a < b <= total && b - a <= Overlap
    ensures k < |tasks| && tasks[k].start <= a && b <= CorrectedEnd(tasks[k])
    ensures k * ChunkSize < total
  {
    var j := a / ChunkSize;
    assert j * ChunkSize <= a < j * ChunkSize + ChunkSize;
    if b <= j * ChunkSize + ChunkSize {
      k := j;
    } else {
      k := j + 1;
    }
  }
}
