/** The result line as a contract between the scanner, which writes it,
    and the post-processing script, which reads it back: parsing a written
    line recovers its fields, and the computed position is one plus the
    stream offset of the palindrome's first digit. */
module LineFormat {
  import opened Numerals
  import opened Scanner
  import opened ResultProcessor
  import DigitStream
  import Pipeline

  predicate NoComma(s: string)
  {
    forall k :: 0 <= k < |s| ==> s[k] != ','
  }

  lemma {:induction false} FieldsOfPlain(x: string)
    requires NoComma(x)
    ensures Fields(x) == [x]
    decreases |x|
  {
    if x != [] {
      FieldsOfPlain(x[1..]);
      assert [x[0]] + x[1..] == x;
    }
  }

  /** A comma-free field followed by a comma splits off as the first field. */
  lemma {:induction false} FieldsOfJoin(x: string, y: string)
    requires NoComma(x)
    ensures Fields(x + "," + y) == [x] + Fields(y)
    decreases |x|
  {
    if x == [] {
      assert x + "," + y == [','] + y;
      assert (x + "," + y)[1..] == y;
    } else {
      var rest := x[1..];
      assert (x + "," + y)[1..] == rest + "," + y;
      FieldsOfJoin(rest, y);
      assert [x[0]] + rest == x;
    }
  }

  lemma DigitsNoComma(d: string)
    requires AllDigits(d, 10)
    ensures NoComma(d)
  {
  }

  lemma DecimalShape(n: int)
    ensures |Decimal(n)| > 0 && NoComma(Decimal(n))
    ensures !IsSpace(Decimal(n)[0]) && !IsStripped(Decimal(n)[0])
    ensures IsDecimalDigit(Decimal(n)[|Decimal(n)| - 1])
  {
    var m := if n < 0 then -n else n;
    NatDecimalValue(m);
    var d := NatDecimal(m);
    assert IsDigit(d[|d| - 1], 10);
    if n < 0 {
      assert Decimal(n) == "-" + d;
      assert Decimal(n)[|Decimal(n)| - 1] == d[|d| - 1];
    } else {
      assert IsDigit(d[0], 10);
    }
  }

  /** Four comma-free fields, the last one not empty, joined by commas split back into those fields. */
  lemma SplitFour(a: string, b: string, c: string, d: string)
    requires NoComma(a) && NoComma(b) && NoComma(c) && NoComma(d) && d != []
    ensures Split(a + "," + b + "," + c + "," + d) == [a, b, c, d]
  {
    var t3 := c + "," + d;
    var t2 := b + "," + t3;
    var t1 := a + "," + t2;
    assert a + "," + b + "," + c + "," + d == t1;
    FieldsOfJoin(a, t2);
    FieldsOfJoin(b, t3);
    FieldsOfJoin(c, d);
    FieldsOfPlain(d);
    assert Fields(t1) == [a, b, c, d];
    assert DropTrailingEmpty([a, b, c, d]) == [a, b, c, d];
  }

  /** A line's comma-space separators, read as a comma and a space that opens the next field. */
  lemma Regroup(w: string, x: string, y: string, z: string)
    ensures w + Separator + x + Separator + y + Separator + z + " \n"
         == w + "," + (" " + x) + "," + (" " + y) + "," + (" " + z + " \n")
  {
  }

  lemma SpacedNoComma(x: string)
    requires NoComma(x)
    ensures NoComma(" " + x) && NoComma(" " + x + " \n")
  {
  }

  /** The four fields of a written line, exactly as the script's split returns them. */
  lemma SplitLine(start: int, s: string, i: nat, ps: nat)
    requires Emits(s, i, ps) && AllDigits(s, 10)
    ensures var pal := Pal(s, i, ps);
      Split(Line(start, s, i, ps)) == [Decimal(start), " " + Decimal(i), " " + pal, " " + Decimal(|pal|) + " \n"]
  {
    var pal := Pal(s, i, ps);
    DecimalShape(start);
    DecimalShape(i);
    DecimalShape(|pal|);
    PalDigits(s, i, ps);
    DigitsNoComma(pal);
    SpacedNoComma(Decimal(i));
    SpacedNoComma(pal);
    SpacedNoComma(Decimal(|pal|));
    Regroup(Decimal(start), Decimal(i), pal, Decimal(|pal|));
    SplitFour(Decimal(start), " " + Decimal(i), " " + pal, " " + Decimal(|pal|) + " \n");
  }

  lemma PalDigits(s: string, i: nat, ps: nat)
    requires Emits(s, i, ps) && AllDigits(s, 10)
    ensures AllDigits(Pal(s, i, ps), 10) && |Pal(s, i, ps)| > 0
  {
    var q := Expand(s, i, ps);
    assert Pal(s, i, ps) == s[i - q + 1 .. i + q];
    assert forall k :: 0 <= k < |Pal(s, i, ps)| ==> Pal(s, i, ps)[k] == s[i - q + 1 + k];
  }

  /** Reading the leading digits stops at the first character that is neither a digit nor an underscore. */
  lemma {:induction false} DigitPrefixStops(d: string, tail: string)
    requires AllDigits(d, 10)
    requires tail == [] || (!IsDecimalDigit(tail[0]) && tail[0] != '_')
    ensures DigitPrefix(d + tail) == d
    decreases |d|
  {
    if d == [] {
      assert d + tail == tail;
    } else {
      var t := d + tail;
      assert t[1..] == d[1..] + tail;
      if |d| >= 2 {
        assert t[1] == d[1] && IsDigit(d[1], 10);
      } else {
        assert d[1..] + tail == tail;
      }
      DigitPrefixStops(d[1..], tail);
      assert [d[0]] + d[1..] == d;
    }
  }

  /** `to_i` reads back any decimal rendering, after a space or not and
      followed by a space or nothing. */
  lemma ToIDecimal(n: int, lead: string, tail: string)
    requires lead == "" || lead == " "
    requires tail == "" || tail[0] == ' '
    ensures ToI(lead + Decimal(n) + tail) == n
  {
    var m := if n < 0 then -n else n;
    NatDecimalValue(m);
    var d := NatDecimal(m);
    DecimalShape(n);
    var x := Decimal(n) + tail;
    assert lead + Decimal(n) + tail == lead + x;
    assert x[0] == Decimal(n)[0];
    assert SkipSpace(lead + x) == x by {
      if lead == " " {
        assert (lead + x)[1..] == x;
      }
    }
    if n < 0 {
      assert x == "-" + (d + tail);
      assert x[1..] == d + tail;
    } else {
      assert IsDigit(d[0], 10);
    }
    DigitPrefixStops(d, tail);
  }

  lemma StripPal(pal: string)
    requires |pal| > 0 && AllDigits(pal, 10)
    ensures Strip(" " + pal) == pal
  {
    assert (" " + pal)[1..] == pal;
    assert IsDigit(pal[0], 10) && IsDigit(pal[|pal| - 1], 10);
    assert StripFront(" " + pal) == StripFront(pal) == pal;
    assert StripBack(pal) == pal;
  }

  /** Parsing a written line: it never raises; it is kept exactly when the
      palindrome has at least 25 digits and its last digit is odd and not
      5; and the candidate then carries the palindrome's length, its text,
      as position one plus the stream offset of its first digit, and whether
      the service confirms those digits there. */
  lemma LineRoundTrip(start: int, s: string, i: nat, ps: nat, fetch: Fetch)
    requires Emits(s, i, ps) && AllDigits(s, 10)
    ensures var pal, q := Pal(s, i, ps), Expand(s, i, ps);
      var position := start + (i - q + 1) + 1;
      var p := ParseLine(Line(start, s, i, ps), fetch);
      && p != Crash
      && (p.Keep? <==> |pal| >= MinSize && pal[|pal| - 1] !in Excluded)
      && (p.Keep? ==> p.candidate.size == |pal| && p.candidate.position == position)
      && (p.Keep? ==> p.candidate.pal == pal)
      && (p.Keep? ==> p.candidate.validated == Confirmed(fetch, p.candidate.position, p.candidate.size, pal))
  {
    var pal, q := Pal(s, i, ps), Expand(s, i, ps);
    var line := Line(start, s, i, ps);
    SplitLine(start, s, i, ps);
    var r := Split(line);
    PalDigits(s, i, ps);
    EmittedShape(s, i, ps);
    ToIDecimal(start, "", "");
    assert r[0] == "" + Decimal(start) + "";
    ToIDecimal(i, " ", "");
    assert r[1] == " " + Decimal(i) + "";
    ToIDecimal(|pal|, " ", " \n");
    StripPal(pal);
    assert r[2][|r[2]| - 1] == pal[|pal| - 1];
    KeptExactly(line, fetch);
    var p := ParseLine(line, fetch);
    var position := start + (i - q + 1) + 1;
    if p.Keep? {
      var c := p.candidate;
      assert c.position == position;
    }
  }

  /** The position convention agrees with the digits service: when the
      scanned chunk is the stream from `start` on and the service answers
      with the digits of "3" followed by the stream, the service confirms
      every written palindrome at the position the script computes for it
      (which `LineRoundTrip` makes the candidate's `validated` field). */
  lemma ValidatedAgainstStream(stream: string, start: nat, s: string, i: nat, ps: nat, fetch: Fetch)
    requires Emits(s, i, ps)
    requires start + |s| <= |stream| && s == stream[start .. start + |s|]
    requires var pal, q := Pal(s, i, ps), Expand(s, i, ps);
      var position := start + (i - q + 1) + 1;
      fetch(position, |pal|) == ("3" + stream)[position .. position + |pal|]
    ensures var pal, q := Pal(s, i, ps), Expand(s, i, ps);
      Confirmed(fetch, start + (i - q + 1) + 1, |pal|, pal)
  {
    var pal, q := Pal(s, i, ps), Expand(s, i, ps);
    var position := start + (i - q + 1) + 1;
    EmittedShape(s, i, ps);
    var got := ("3" + stream)[position .. position + |pal|];
    assert |got| == |pal|;
    forall k | 0 <= k < |pal| ensures got[k] == pal[k] {
      assert got[k] == stream[start + (i - q + 1) + k];
      assert pal[k] == s[i - q + 1 + k];
    }
    assert Prefix(fetch(position, |pal|), |pal|) == got;
  }

  /** `line` is one the scan of `s` writes for some emitting centre. */
  ghost predicate WrittenBy(line: string, start: int, s: string, ps: nat)
  {
    exists i: nat :: i < |s| && Emits(s, i, ps) && line == Line(start, s, i, ps)
  }

  /** The script never raises on what the scanner writes. */
  lemma {:induction false} ScanOutputParses(lines: seq<string>, start: int, s: string, ps: nat, fetch: Fetch)
    requires AllDigits(s, 10)
    requires forall k :: 0 <= k < |lines| ==> WrittenBy(lines[k], start, s, ps)
    ensures Collected(lines, Parser(fetch)).Some?
    decreases |lines|
  {
    if lines != [] {
      var init := lines[..|lines| - 1];
      assert forall k :: 0 <= k < |init| ==> init[k] == lines[k];
      ScanOutputParses(init, start, s, ps, fetch);
      LastLineParses(lines[|lines| - 1], start, s, ps, fetch);
      assert Parser(fetch)(lines[|lines| - 1]) == ParseLine(lines[|lines| - 1], fetch);
    }
  }

  lemma LastLineParses(line: string, start: int, s: string, ps: nat, fetch: Fetch)
    requires AllDigits(s, 10)
    requires WrittenBy(line, start, s, ps)
    ensures ParseLine(line, fetch) != Crash
  {
    var i :| Emits(s, i, ps) && line == Line(start, s, i, ps);
    LineRoundTrip(start, s, i, ps, fetch);
  }

  /** In particular the whole output of one scan parses. */
  lemma CandidateLinesParse(start: int, s: string, ps: nat, fetch: Fetch)
    requires AllDigits(s, 10)
    ensures Collected(CandidateLines(start, s, ps), Parser(fetch)).Some?
  {
    var cs := Centres(s, ps, Limit(s, ps));
    var lines := CandidateLines(start, s, ps);
    forall k | 0 <= k < |lines| ensures WrittenBy(lines[k], start, s, ps) {
      var i := cs[k];
      assert Emits(s, i, ps) && lines[k] == Line(start, s, i, ps);
    }
    ScanOutputParses(lines, start, s, ps, fetch);
  }

  /** The script never raises on what a task writes from a decimal catalog:
      the catalog's stream is all decimal digits, so is the slice the task
      scans, and every line of its scan parses. */
  lemma TaskOutputParses(bs: seq<DigitStream.Block>, start: int, count: nat, ps: nat, fetch: Fetch)
    requires DigitStream.CatalogOk(bs)
    requires forall k :: 0 <= k < |bs| ==> bs[k].radix == 10
    requires Pipeline.Expected(bs, start, count, ps).Written?
    ensures Collected(Pipeline.Expected(bs, start, count, ps).lines, Parser(fetch)).Some?
  {
    var stream := DigitStream.Stream(bs);
    DigitStream.StreamAllDigits(bs, 10);
    var s := stream[start .. start + count];
    assert forall k :: 0 <= k < |s| ==> s[k] == stream[start + k];
    CandidateLinesParse(start, s, ps, fetch);
  }
}
