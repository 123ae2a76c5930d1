/** The post-processing script: it reads the lines the scan wrote, keeps
    the long candidates whose last digit is odd and not 5, converts each
    to a one-based position in the digits of pi, and prints them by size,
    largest first. Ruby's split, to_i and strip are modelled on the
    character level. */
module ResultProcessor {
  import opened Numerals

  datatype Option<T> = None | Some(value: T)

  /** Ruby's idea of white space for to_i: space, tab, line feed, vertical
      tab, form feed and carriage return. */
  predicate IsSpace(c: char)
  {
    c == ' ' || 9 <= c as int <= 13
  }

  /** strip also removes NUL characters. */
  predicate IsStripped(c: char)
  {
    IsSpace(c) || c == 0 as char
  }

  /** The fields of `s` between commas, empty ones included. */
  function Fields(s: string): (f: seq<string>)
    ensures |f| >= 1
  {
    if s == [] then [""]
    else if s[0] == ',' then [""] + Fields(s[1..])
    else var rest := Fields(s[1..]); [[s[0]] + rest[0]] + rest[1..]
  }

  function DropTrailingEmpty(f: seq<string>): seq<string>
  {
    if f == [] || f[|f| - 1] != "" then f else DropTrailingEmpty(f[..|f| - 1])
  }

  /** `s.split(',')`: the comma-separated fields, trailing empty fields dropped. */
  function Split(s: string): seq<string>
  {
    DropTrailingEmpty(Fields(s))
  }

  function SkipSpace(s: string): (t: string)
    ensures |t| <= |s|
  {
    if s != [] && IsSpace(s[0]) then SkipSpace(s[1..]) else s
  }

  predicate IsDecimalDigit(c: char)
  {
    '0' <= c <= '9'
  }

  /** The digits of the leading integer, underscores between digits skipped. */
  function DigitPrefix(t: string): (d: string)
    ensures AllDigits(d, 10)
  {
    if t == [] || !IsDecimalDigit(t[0]) then []
    else if |t| >= 3 && t[1] == '_' && IsDecimalDigit(t[2]) then [t[0]] + DigitPrefix(t[2..])
    else [t[0]] + DigitPrefix(t[1..])
  }

  /** `s.to_i`: leading white space, an optional sign, then the leading
      digits; 0 when there are none. */
  function ToI(s: string): int
  {
    var t := SkipSpace(s);
    if t != [] && t[0] == '-' then -(Value(DigitPrefix(t[1..]), 10) as int)
    else if t != [] && t[0] == '+' then Value(DigitPrefix(t[1..]), 10)
    else Value(DigitPrefix(t), 10)
  }

  function StripFront(s: string): (t: string)
    ensures |t| <= |s|
  {
    if s != [] && IsStripped(s[0]) then StripFront(s[1..]) else s
  }

  function StripBack(s: string): (t: string)
    ensures |t| <= |s|
  {
    if s != [] && IsStripped(s[|s| - 1]) then StripBack(s[..|s| - 1]) else s
  }

  /** `s.strip`: leading and trailing white space and NULs removed. */
  function Strip(s: string): string
  {
    StripBack(StripFront(s))
  }

  /** `t[0..(n - 1)]` for `n >= 1`: the first `n` characters, or all of a shorter string. */
  function Prefix(t: string, n: nat): string
  {
    if n <= |t| then t[..n] else t
  }

  /** The last digits that mark a palindrome as not prime. */
  const Excluded: seq<char> := ['0', '2', '4', '5', '6', '8']

  const MinSize := 25

  /** A kept candidate: its length, its one-based position in the digits
      of pi, its digits, and whether the digits service returned the same
      digits there. */
  datatype Candidate = Candidate(size: int, position: int, pal: string, validated: bool)

  /** What one line does: it raises (no third field), is skipped, or adds a candidate. */
  datatype Parsed = Crash | Skip | Keep(candidate: Candidate)

  /** The service call: the digits of pi (the leading 3 at index 0) starting
      at index `start`, `count` of them. */
  type Fetch = (int, int) -> string

  /** Whether the service's digits at `position` begin with the candidate's `size` digits `pal`. */
  predicate Confirmed(fetch: Fetch, position: int, size: nat, pal: string)
  {
    Prefix(fetch(position, size), size) == pal
  }

  /** Parse one line and decide whether it is kept. */
  function ParseLine(line: string, fetch: Fetch): Parsed
  {
    var r := Split(line);
    if |r| < 3 then Crash
    else
      var size := if |r| >= 4 then ToI(r[3]) else 0;
      var pal := Strip(r[2]);
      if size >= MinSize && !(r[2] != [] && r[2][|r[2]| - 1] in Excluded) then
        var position := (ToI(r[0]) + ToI(r[1])) - (size - 1) / 2 + 1;
        Keep(Candidate(size, position, pal, Confirmed(fetch, position, size, pal)))
      else Skip
  }

  /** A line is kept exactly when it has a third field, its fourth field
      reads as at least 25 and the third field does not end in 0, 2, 4, 5, 6
      or 8; the candidate then carries that size, the stripped third field,
      the position `start + centre - (size - 1) / 2 + 1`, and whether the
      service's digits at that position begin with it. */
  lemma KeptExactly(line: string, fetch: Fetch)
    ensures ParseLine(line, fetch) == Crash <==> |Split(line)| < 3
    ensures ParseLine(line, fetch).Keep? <==>
      |Split(line)| >= 4 && ToI(Split(line)[3]) >= 25 && !(Split(line)[2] != [] && Split(line)[2][|Split(line)[2]| - 1] in Excluded)
    ensures ParseLine(line, fetch).Keep? ==>
      var r, c := Split(line), ParseLine(line, fetch).candidate;
      && c.size == ToI(r[3]) && c.pal == Strip(r[2])
      && c.position == ToI(r[0]) + ToI(r[1]) - (c.size - 1) / 2 + 1
      && c.size >= MinSize && c.validated == Confirmed(fetch, c.position, c.size, c.pal)
  {
  }

  /** All lines of all files, files in order. */
  function Flatten(files: seq<seq<string>>): seq<string>
  {
    if files == [] then [] else Flatten(files[..|files| - 1]) + files[|files| - 1]
  }

  /** One line's effect on what has been collected so far. */
  function Step(acc: Option<seq<Candidate>>, p: Parsed): Option<seq<Candidate>>
  {
    match acc
    case None => None
    case Some(cs) =>
      match p
      case Crash => None
      case Skip => Some(cs)
      case Keep(c) => Some(cs + [c])
  }

  /** The parser the script applies to every line. */
  function Parser(fetch: Fetch): string -> Parsed
  {
    line => ParseLine(line, fetch)
  }

  /** What the loop over `lines` collects: None once a line raised, else the kept candidates in order. */
  function Collected(lines: seq<string>, parse: string -> Parsed): Option<seq<Candidate>>
  {
    if lines == [] then Some([])
    else Step(Collected(lines[..|lines| - 1], parse), parse(lines[|lines| - 1]))
  }

  lemma CollectedNext(lines: seq<string>, k: nat, parse: string -> Parsed)
    requires k < |lines|
    ensures Collected(lines[..k + 1], parse) == Step(Collected(lines[..k], parse), parse(lines[k]))
  {
    assert lines[..k + 1][..k] == lines[..k];
  }

  lemma FlattenNext(files: seq<seq<string>>, f: nat)
    requires f < |files|
    ensures Flatten(files[..f + 1]) == Flatten(files[..f]) + files[f]
  {
    assert files[..f + 1][..f] == files[..f];
  }

  /** The loop over the result files: collect every kept candidate in
      order, stopping at the first line that raises. */
  method Collect(files: seq<seq<string>>, fetch: Fetch) returns (result: Option<seq<Candidate>>)
    ensures result == Collected(Flatten(files), Parser(fetch))
  {
    var parse := Parser(fetch);
    var candArray: seq<Candidate> := [];
    var f := 0;
    while f < |files|
      invariant f <= |files|
      invariant Collected(Flatten(files[..f]), parse) == Some(candArray)
    {
      FlattenNext(files, f);
      var more := CollectFile(Flatten(files[..f]), files[f], parse, candArray);
      if more.None? {
        FlattenPrefix(files, f + 1);
        CollectedNonePrefix(Flatten(files), |Flatten(files[..f + 1])|, parse);
        return None;
      }
      candArray := more.value;
      f := f + 1;
    }
    assert files[..f] == files;
    return Some(candArray);
  }

  /** The loop over the lines of one file, after lines `before` collected `candArray`. */
  method CollectFile(ghost before: seq<string>, file: seq<string>, parse: string -> Parsed, candArray: seq<Candidate>)
    returns (result: Option<seq<Candidate>>)
    requires Collected(before, parse) == Some(candArray)
    ensures result == Collected(before + file, parse)
  {
    ghost var lines := before + file;
    var cands := candArray;
    var l := 0;
    assert lines[..|before|] == before;
    while l < |file|
      invariant l <= |file|
      invariant Collected(lines[..|before| + l], parse) == Some(cands)
    {
      CollectedNext(lines, |before| + l, parse);
      assert lines[|before| + l] == file[l];
      var parsed := parse(file[l]);
      if parsed.Crash? {
        CollectedNonePrefix(lines, |before| + l + 1, parse);
        return None;
      }
      if parsed.Keep? {
        cands := cands + [parsed.candidate];
      }
      l := l + 1;
    }
    assert lines[..|before| + l] == lines;
    return Some(cands);
  }

  /** The lines of the first `f` files are a prefix of all lines. */
  lemma {:induction false} FlattenPrefix(files: seq<seq<string>>, f: nat)
    requires f <= |files|
    ensures |Flatten(files[..f])| <= |Flatten(files)|
    ensures Flatten(files)[..|Flatten(files[..f])|] == Flatten(files[..f])
    decreases |files|
  {
    if f == |files| {
      assert files[..f] == files;
    } else {
      var n := |files|;
      var init := files[..n - 1];
      assert Flatten(files) == Flatten(init) + files[n - 1];
      assert init[..f] == files[..f];
      FlattenPrefix(init, f);
    }
  }

  /** A prefix that raises makes every longer run raise. */
  lemma {:induction false} CollectedNonePrefix(lines: seq<string>, k: nat, parse: string -> Parsed)
    requires k <= |lines| && Collected(lines[..k], parse) == None
    ensures Collected(lines, parse) == None
    decreases |lines| - k
  {
    if k == |lines| {
      assert lines[..k] == lines;
    } else {
      CollectedNext(lines, k, parse);
      CollectedNonePrefix(lines, k + 1, parse);
    }
  }

  /** The printing order: by size, largest first. */
  predicate BySizeDescending(cs: seq<Candidate>)
  {
    forall i, j :: 0 <= i < j < |cs| ==> cs[i].size >= cs[j].size
  }

  function Insert(c: Candidate, sorted: seq<Candidate>): (r: seq<Candidate>)
    requires BySizeDescending(sorted)
    ensures BySizeDescending(r)
    ensures multiset(r) == multiset(sorted) + multiset{c}
    ensures |r| > 0 && (r[0] == c || (sorted != [] && r[0] == sorted[0]))
  {
    if sorted == [] || c.size >= sorted[0].size then [c] + sorted
    else
      assert sorted == [sorted[0]] + sorted[1..];
      [sorted[0]] + Insert(c, sorted[1..])
  }

  /** `sort_by { size }.reverse`: the same candidates, largest first. */
  function SortBySize(cs: seq<Candidate>): (r: seq<Candidate>)
    ensures BySizeDescending(r)
    ensures multiset(r) == multiset(cs)
  {
    if cs == [] then []
    else
      assert cs == [cs[0]] + cs[1..];
      Insert(cs[0], SortBySize(cs[1..]))
  }

  /** The whole script: what it prints, in order. A line that raises aborts
      it before anything is printed. */
  method Report(files: seq<seq<string>>, fetch: Fetch) returns (printed: seq<Candidate>)
    ensures Collected(Flatten(files), Parser(fetch)) == None ==> printed == []
    ensures Collected(Flatten(files), Parser(fetch)).Some? ==>
      BySizeDescending(printed) && multiset(printed) == multiset(Collected(Flatten(files), Parser(fetch)).value)
  {
    var candArray := Collect(files, fetch);
    if candArray.None? {
      return [];
    }
    printed := SortBySize(candArray.value);
  }
}
