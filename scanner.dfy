/** The palindrome scan of one chunk of digits: every centre's odd-length
    palindrome is grown until it meets a mismatch or an end of the chunk,
    and the long ones are written out as text lines. */
module Scanner {
  import opened Numerals

  /** Ring `k` around centre `i` matches: the digits `k` before and `k`
      after the centre both exist and are equal. */
  predicate Ring(s: string, i: nat, k: nat)
  {
    i >= k && i + k < |s| && s[i - k] == s[i + k]
  }

  /** How far the palindrome around centre `i` grows when the scan starts
      at half-width `p`: the first half-width `q >= p` at which the digits
      `q` before and `q` after the centre are out of range or differ. */
  function Expand(s: string, i: nat, p: nat): (q: nat)
    ensures p <= q
    ensures !Ring(s, i, q)
    ensures forall k :: p <= k < q ==> Ring(s, i, k)
    ensures i + p <= |s| ==> i + q <= |s|
    decreases |s| - p
  {
    if Ring(s, i, p) then Expand(s, i, p + 1) else p
  }

  /** Growing from a later half-width whose inner rings all match ends at the same place. */
  lemma {:induction false} ExpandSkip(s: string, i: nat, p: nat, m: nat)
    requires p <= m
    requires forall k :: p <= k < m ==> Ring(s, i, k)
    ensures Expand(s, i, p) == Expand(s, i, m)
    decreases m - p
  {
    if p < m {
      ExpandSkip(s, i, p + 1, m);
    }
  }

  /** The centres the scan visits: those below `|s| - 1 - ps` (it stops at the first centre past them). */
  function Limit(s: string, ps: nat): nat
  {
    if |s| >= 1 + ps then |s| - 1 - ps else 0
  }

  /** Centre `i` produces a line: it is visited, it is at least `ps` from
      the start, and its palindrome stopped strictly inside the chunk's
      left end and has half-width above 8. */
  predicate Emits(s: string, i: nat, ps: nat)
  {
    ps <= i < Limit(s, ps) && var q := Expand(s, i, ps); i - q > 0 && q > 8
  }

  /** The half-width an emitting centre reaches, with the bounds that make its palindrome a slice. */
  function Reach(s: string, i: nat, ps: nat): (q: nat)
    requires Emits(s, i, ps)
    ensures q == Expand(s, i, ps) && 8 < q < i && i + q <= |s|
  {
    Expand(s, i, ps)
  }

  /** The palindrome text of an emitting centre: the digits strictly inside the mismatch. */
  function Pal(s: string, i: nat, ps: nat): string
    requires Emits(s, i, ps)
  {
    var q := Reach(s, i, ps);
    s[i - q + 1 .. i + q]
  }

  const Separator: string := ", "

  /** The line written for an emitting centre: chunk start, centre, palindrome and its length. */
  function Line(start: int, s: string, i: nat, ps: nat): string
    requires Emits(s, i, ps)
  {
    var pal := Pal(s, i, ps);
    Decimal(start) + Separator + Decimal(i) + Separator + pal + Separator + Decimal(|pal|) + " \n"
  }

  /** The emitting centres below `k`, in increasing order. */
  function Centres(s: string, ps: nat, k: nat): (cs: seq<nat>)
    ensures forall j :: 0 <= j < |cs| ==> cs[j] < k && Emits(s, cs[j], ps)
    ensures forall j, l :: 0 <= j < l < |cs| ==> cs[j] < cs[l]
    ensures forall i :: 0 <= i < k && Emits(s, i, ps) ==> i in cs
  {
    if k == 0 then [] else Centres(s, ps, k - 1) + (if Emits(s, k - 1, ps) then [k - 1] else [])
  }

  /** The lines of a sequence of emitting centres, in the same order. */
  function Lines(start: int, s: string, ps: nat, cs: seq<nat>): (ls: seq<string>)
    requires forall j :: 0 <= j < |cs| ==> Emits(s, cs[j], ps)
    ensures |ls| == |cs|
    ensures forall j :: 0 <= j < |cs| ==> ls[j] == Line(start, s, cs[j], ps)
  {
    seq(|cs|, j requires 0 <= j < |cs| => Line(start, s, cs[j], ps))
  }

  /** All the lines the scan of chunk `s` writes. */
  function CandidateLines(start: int, s: string, ps: nat): seq<string>
  {
    Lines(start, s, ps, Centres(s, ps, Limit(s, ps)))
  }

  lemma LinesAppend(start: int, s: string, ps: nat, cs: seq<nat>, i: nat)
    requires forall j :: 0 <= j < |cs| ==> Emits(s, cs[j], ps)
    requires Emits(s, i, ps)
    ensures Lines(start, s, ps, cs + [i]) == Lines(start, s, ps, cs) + [Line(start, s, i, ps)]
  {
  }

  /** The inner loop of the scan: widen the palindrome around centre `i`
      from half-width `ps` while the next ring matches. */
  method Grow(s: string, i: nat, ps: nat) returns (pLen: nat)
    ensures pLen == Expand(s, i, ps)
  {
    pLen := ps;
    while i - pLen >= 0 && i + pLen < |s| && s[i - pLen] == s[i + pLen]
      invariant ps <= pLen
      invariant forall k :: ps <= k < pLen ==> Ring(s, i, k)
      decreases |s| - pLen
    {
      pLen := pLen + 1;
    }
    ExpandSkip(s, i, ps, pLen);
  }

  /** Scan chunk `s`, which starts at stream offset `start`, for palindromes
      around every centre, starting each at half-width `ps`; return the
      lines written, in order. */
  method FindCandidates(start: int, s: string, ps: nat) returns (lines: seq<string>)
    ensures lines == CandidateLines(start, s, ps)
  {
    lines := [];
    var i := 0;
    while i < |s|
      invariant i <= Limit(s, ps)
      invariant lines == Lines(start, s, ps, Centres(s, ps, i))
    {
      if i >= |s| - 1 - ps {
        break;
      }
      if i - ps < 0 {
        i := i + 1;
        continue;
      }
      var pLen := Grow(s, i, ps);
      if i - pLen > 0 && pLen > 8 {
        LinesAppend(start, s, ps, Centres(s, ps, i), i);
        lines := lines + [Line(start, s, i, ps)];
      }
      i := i + 1;
    }
  }

  /** Every emitting centre's line is among the lines the scan writes. */
  lemma EmittedIsWritten(start: int, s: string, i: nat, ps: nat)
    requires Emits(s, i, ps)
    ensures Line(start, s, i, ps) in CandidateLines(start, s, ps)
  {
    var cs := Centres(s, ps, Limit(s, ps));
    assert i in cs;
    var j :| 0 <= j < |cs| && cs[j] == i;
    assert CandidateLines(start, s, ps)[j] == Line(start, s, i, ps);
  }

  /** An emitted palindrome lies inside the chunk, starts at index 2 or
      later, has odd length `2q - 1` of at least 17, and cannot be grown by
      one more digit on each side inside the chunk. */
  lemma EmittedShape(s: string, i: nat, ps: nat)
    requires Emits(s, i, ps)
    ensures var q := Expand(s, i, ps);
      && 2 <= i - q + 1 && i + q <= |s|
      && Pal(s, i, ps) == s[i - q + 1 .. i + q]
      && |Pal(s, i, ps)| == 2 * q - 1 && |Pal(s, i, ps)| % 2 == 1 && |Pal(s, i, ps)| >= 17
      && (i + q == |s| || s[i - q] != s[i + q])
  {
  }

  /** Started from half-width 1, as the program does, an emitted text reads
      the same backwards. */
  lemma EmittedPalindrome(s: string, i: nat)
    requires Emits(s, i, 1)
    ensures var pal := Pal(s, i, 1); forall k :: 0 <= k < |pal| ==> pal[k] == pal[|pal| - 1 - k]
  {
    var q := Expand(s, i, 1);
    var pal := Pal(s, i, 1);
    forall k | 0 <= k < |pal|
      ensures pal[k] == pal[|pal| - 1 - k]
    {
      var d := if k < q - 1 then q - 1 - k else k - (q - 1);
      assert d == 0 || (1 <= d < q && Ring(s, i, d));
    }
  }
}
