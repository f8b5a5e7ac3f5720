/** The citation extractor at the end of `generate`: Python's
    `re.findall(r'Section \d+[A-Z]*', output)` as a left-to-right scanner.
    `findall` tries a match at every position from the left; where one
    succeeds it takes the longest (greedy) one and resumes right after it;
    where none does it moves on by one character. */
module Citations {
  import opened Wrappers

  /** The literal that opens every citation: the word and ONE space character
      (not `\s`: a tab or a newline after the word does not match). */
  const Keyword: string := "Section "

  /** `\d`, restricted to the ASCII digits. */
  predicate IsDigit(c: char) { '0' <= c <= '9' }

  /** `[A-Z]`: ASCII upper-case letters only; the pattern is case-sensitive. */
  predicate IsUpper(c: char) { 'A' <= c <= 'Z' }

  /** `x` is a whole match of the pattern: the keyword, a digit, then only
      digits and upper-case letters, with no digit after a letter. */
  predicate IsCitation(x: string) {
    && |x| > |Keyword|
    && x[..|Keyword|] == Keyword
    && IsDigit(x[|Keyword|])
    && (forall t :: |Keyword| < t < |x| ==> IsDigit(x[t]) || IsUpper(x[t]))
    && (forall t, u :: |Keyword| < t < u < |x| && IsUpper(x[t]) ==> IsUpper(x[u]))
  }

  /** A match of the pattern can begin at position `p` of `s`. */
  predicate StartsAt(s: string, p: nat) {
    p + |Keyword| < |s| && s[p..p + |Keyword|] == Keyword && IsDigit(s[p + |Keyword|])
  }

  /** No piece of `s` that begins at `p` and is longer than `s[p..e]` is a
      citation: the match cannot be extended (greedy `\d+` and `[A-Z]*`). */
  predicate Maximal(s: string, p: nat, e: nat)
    requires p <= e <= |s|
  {
    forall e' :: e < e' <= |s| ==> !IsCitation(s[p..e'])
  }

  /** The half-open range `[start, end)` of one match. */
  datatype Span = Span(start: nat, end: nat)

  /** Some span of `r` contains position `p`. */
  predicate Covered(r: seq<Span>, p: nat) {
    exists k :: 0 <= k < |r| && r[k].start <= p < r[k].end
  }

  /** `r` is what `findall` reports when it scans `s` from position `i`: every
      span lies at or after `i`, is a citation and cannot be extended; the
      spans are in left-to-right order and do not overlap; and every position
      at which a match could begin lies inside one of them (so none is missed,
      and each span begins at the leftmost possible place). */
  predicate IsScan(s: string, i: nat, r: seq<Span>) {
    && (forall k :: 0 <= k < |r| ==>
          && i <= r[k].start < r[k].end <= |s|
          && IsCitation(s[r[k].start..r[k].end])
          && Maximal(s, r[k].start, r[k].end))
    && (forall k, l :: 0 <= k < l < |r| ==> r[k].end <= r[l].start)
    && (forall p :: i <= p < |s| && StartsAt(s, p) ==> Covered(r, p))
  }

  /** The end of the longest run of characters in `inClass` from position `i`. */
  function RunEnd(s: string, i: nat, inClass: char -> bool): (j: nat)
    requires i <= |s|
    ensures i <= j <= |s|
    ensures forall t :: i <= t < j ==> inClass(s[t])
    ensures j == |s| || !inClass(s[j])
    decreases |s| - i
  {
    if i < |s| && inClass(s[i]) then RunEnd(s, i + 1, inClass) else i
  }

  /** A citation in `s` begins where the pattern can begin. */
  lemma CitationStarts(s: string, p: nat, e: nat)
    requires p <= e <= |s| && IsCitation(s[p..e])
    ensures StartsAt(s, p)
  {
    assert s[p..e][..|Keyword|] == s[p..p + |Keyword|];
  }

  /** The greedy match from `p`: digits as far as they go, then upper-case
      letters as far as they go, is a citation that cannot be extended. */
  lemma GreedyMatch(s: string, p: nat, d: nat, e: nat)
    requires StartsAt(s, p)
    requires d == RunEnd(s, p + |Keyword|, IsDigit) && e == RunEnd(s, d, IsUpper)
    ensures p + |Keyword| < d <= e <= |s|
    ensures IsCitation(s[p..e]) && Maximal(s, p, e)
  {
    var n := |Keyword|;
    var x := s[p..e];
    assert x[..n] == s[p..p + n];
    forall t | n < t < |x|
      ensures IsDigit(x[t]) || IsUpper(x[t])
    {
      assert x[t] == s[p + t];
    }
    forall t, u | n < t < u < |x| && IsUpper(x[t])
      ensures IsUpper(x[u])
    {
      assert x[t] == s[p + t] && x[u] == s[p + u];
      assert p + t >= d;
    }
    forall e' | e < e' <= |s|
      ensures !IsCitation(s[p..e'])
    {
      var y := s[p..e'];
      assert y[e - p] == s[e];
      if IsCitation(y) {
        if e > d {
          assert y[e - 1 - p] == s[e - 1];
        }
      }
    }
  }

  /** Where a match can begin at `p`, the end of the longest one. */
  function MatchAt(s: string, p: nat): (m: Option<nat>)
    requires p <= |s|
    ensures m.Some? <==> StartsAt(s, p)
    ensures m.Some? ==> p + |Keyword| < m.value <= |s|
  {
    if StartsAt(s, p) then
      var d := RunEnd(s, p + |Keyword|, IsDigit);
      Some(RunEnd(s, d, IsUpper))
    else
      None
  }

  /** The match `MatchAt` finds is a citation that cannot be extended. */
  lemma MatchAtGreedy(s: string, p: nat)
    requires p <= |s| && MatchAt(s, p).Some?
    ensures IsCitation(s[p..MatchAt(s, p).value]) && Maximal(s, p, MatchAt(s, p).value)
  {
    var d := RunEnd(s, p + |Keyword|, IsDigit);
    GreedyMatch(s, p, d, RunEnd(s, d, IsUpper));
  }

  /** A match at `i` followed by a scan from its end is a scan from `i`. */
  lemma ScanPrepend(s: string, i: nat, e: nat, rest: seq<Span>)
    requires i < e <= |s| && IsCitation(s[i..e]) && Maximal(s, i, e)
    requires IsScan(s, e, rest)
    ensures IsScan(s, i, [Span(i, e)] + rest)
  {
    var r := [Span(i, e)] + rest;
    forall p | i <= p < |s| && StartsAt(s, p)
      ensures Covered(r, p)
    {
      if p < e {
        assert r[0].start <= p < r[0].end;
      } else {
        var k :| 0 <= k < |rest| && rest[k].start <= p < rest[k].end;
        assert r[k + 1] == rest[k];
      }
    }
  }

  /** The spans `findall` reports when it scans `s` from position `i`, in
      order and without overlap. */
  function ScanFrom(s: string, i: nat): (r: seq<Span>)
    requires i <= |s|
    ensures forall k :: 0 <= k < |r| ==> i <= r[k].start < r[k].end <= |s|
    ensures forall k, l :: 0 <= k < l < |r| ==> r[k].end <= r[l].start
    decreases |s| - i
  {
    if i == |s| then []
    else
      match MatchAt(s, i)
      case Some(e) => [Span(i, e)] + ScanFrom(s, e)
      case None => ScanFrom(s, i + 1)
  }

  /** The scanner does what `IsScan` describes. */
  lemma {:induction false} ScanFromIsScan(s: string, i: nat)
    requires i <= |s|
    ensures IsScan(s, i, ScanFrom(s, i))
    decreases |s| - i
  {
    if i < |s| {
      match MatchAt(s, i)
      case Some(e) =>
        MatchAtGreedy(s, i);
        ScanFromIsScan(s, e);
        ScanPrepend(s, i, e, ScanFrom(s, e));
        assert ScanFrom(s, i) == [Span(i, e)] + ScanFrom(s, e);
      case None =>
        ScanFromIsScan(s, i + 1);
        ScanNoStart(s, i, ScanFrom(s, i + 1));
        assert ScanFrom(s, i) == ScanFrom(s, i + 1);
    }
  }

  /** Where a match can begin at `i`, a scan from `i` has a span there. */
  lemma ScanFirst(s: string, i: nat, r: seq<Span>)
    requires i < |s| && IsScan(s, i, r) && StartsAt(s, i)
    ensures |r| > 0 && r[0].start == i
  {
    assert Covered(r, i);
    var k :| 0 <= k < |r| && r[k].start <= i < r[k].end;
    assert forall l :: 0 < l < |r| ==> r[0].end <= r[l].start;
  }

  /** Where a match begins at `i`, a scan from `i` starts with that match,
      and what follows it is a scan from the match's end. */
  lemma ScanHead(s: string, i: nat, e: nat, r: seq<Span>)
    requires i < |s| && IsScan(s, i, r) && MatchAt(s, i) == Some(e)
    ensures |r| > 0 && r[0] == Span(i, e) && IsScan(s, e, r[1..])
  {
    MatchAtGreedy(s, i);
    ScanFirst(s, i, r);
    assert IsCitation(s[i..r[0].end]) && Maximal(s, i, r[0].end);
    assert r[0].end == e;
    var rest := r[1..];
    forall p | e <= p < |s| && StartsAt(s, p)
      ensures Covered(rest, p)
    {
      var k' :| 0 <= k' < |r| && r[k'].start <= p < r[k'].end;
      assert rest[k' - 1] == r[k'];
    }
  }

  /** A scan from `i + 1` is a scan from `i` when no match begins at `i`. */
  lemma ScanNoStart(s: string, i: nat, r: seq<Span>)
    requires i < |s| && IsScan(s, i + 1, r) && !StartsAt(s, i)
    ensures IsScan(s, i, r)
  {
  }

  /** Where no match begins at `i`, a scan from `i` is a scan from `i + 1`. */
  lemma ScanNoHead(s: string, i: nat, r: seq<Span>)
    requires i < |s| && IsScan(s, i, r) && !StartsAt(s, i)
    ensures IsScan(s, i + 1, r)
  {
    forall k | 0 <= k < |r|
      ensures r[k].start != i
    {
      CitationStarts(s, r[k].start, r[k].end);
    }
  }

  /** `IsScan` describes exactly one list of spans: the scanner's. */
  lemma {:induction false} ScanUnique(s: string, i: nat, r: seq<Span>)
    requires i <= |s| && IsScan(s, i, r)
    ensures r == ScanFrom(s, i)
    decreases |s| - i
  {
    assert |r| > 0 ==> r[0].start < |s|;
    if i < |s| {
      match MatchAt(s, i)
      case Some(e) =>
        ScanHead(s, i, e, r);
        ScanUnique(s, e, r[1..]);
        assert r == [Span(i, e)] + r[1..];
      case None =>
        ScanNoHead(s, i, r);
        ScanUnique(s, i + 1, r);
    }
  }

  /** The text of each span. */
  function Texts(s: string, r: seq<Span>): (items: seq<string>)
    requires forall k :: 0 <= k < |r| ==> r[k].start <= r[k].end <= |s|
    ensures |items| == |r|
    ensures forall k :: 0 <= k < |r| ==> items[k] == s[r[k].start..r[k].end]
  {
    seq(|r|, k requires 0 <= k < |r| => s[r[k].start..r[k].end])
  }

  /** `re.findall(r'Section \d+[A-Z]*', s)`: every item is a citation, and
      the list is empty exactly when no match can begin anywhere in `s`. */
  function FindAll(s: string): (items: seq<string>)
    ensures forall k :: 0 <= k < |items| ==> IsCitation(items[k])
    ensures items == [] <==> forall p :: 0 <= p < |s| ==> !StartsAt(s, p)
  {
    var r := ScanFrom(s, 0);
    ScanFromIsScan(s, 0);
    ScanEmpty(s, r);
    Texts(s, r)
  }

  /** A scan of all of `s` is empty exactly when no match can begin in `s`. */
  lemma ScanEmpty(s: string, r: seq<Span>)
    requires IsScan(s, 0, r)
    ensures r == [] <==> forall p :: 0 <= p < |s| ==> !StartsAt(s, p)
  {
    if |r| > 0 {
      CitationStarts(s, r[0].start, r[0].end);
    }
  }

  /** `FindAll` is the text of the one list of spans that `IsScan` describes. */
  lemma FindAllCharacterised(s: string, r: seq<Span>)
    requires IsScan(s, 0, r)
    ensures FindAll(s) == Texts(s, r)
  {
    ScanFromIsScan(s, 0);
    ScanUnique(s, 0, r);
  }

  /** Only a position holding the keyword's first letter can begin a match. */
  lemma StartsWithKeyword(s: string, p: nat)
    requires StartsAt(s, p)
    ensures s[p] == Keyword[0]
  {
    assert s[p..p + |Keyword|][0] == s[p];
  }

  /** The keyword, one or more digits and then upper-case letters make a
      citation. */
  lemma CitationOf(digits: string, suffix: string)
    requires |digits| > 0 && forall t :: 0 <= t < |digits| ==> IsDigit(digits[t])
    requires forall t :: 0 <= t < |suffix| ==> IsUpper(suffix[t])
    ensures IsCitation(Keyword + digits + suffix)
  {
    var x := Keyword + digits + suffix;
    assert x[..|Keyword|] == Keyword;
    assert forall t :: |Keyword| <= t < |Keyword| + |digits| ==> x[t] == digits[t - |Keyword|];
    assert forall t :: |Keyword| + |digits| <= t < |x| ==> x[t] == suffix[t - |Keyword| - |digits|];
  }

  /** A match followed by a character that is neither a digit nor an
      upper-case letter cannot be extended. */
  lemma MaximalBefore(s: string, a: nat, b: nat)
    requires a + |Keyword| < b < |s| && !IsDigit(s[b]) && !IsUpper(s[b])
    ensures Maximal(s, a, b)
  {
    forall e' | b < e' <= |s|
      ensures !IsCitation(s[a..e'])
    {
      assert s[a..e'][b - a] == s[b];
    }
  }
}

/** Worked inputs for the extractor. Each is proved through the
    characterisation: the expected spans satisfy `IsScan`, so by
    `FindAllCharacterised` they are what `FindAll` reports. */
module CitationExamples {
  import opened Citations

  /** Two citations, the second with a letter suffix, among other words. */
  const Suffixed: string := "Section 378 and Section 457A apply"

  lemma SuffixedMatches()
    ensures IsCitation(Suffixed[0..11]) && Maximal(Suffixed, 0, 11)
    ensures IsCitation(Suffixed[16..28]) && Maximal(Suffixed, 16, 28)
  {
    assert Suffixed[0..11] == Keyword + "378" + "";
    CitationOf("378", "");
    MaximalBefore(Suffixed, 0, 11);
    assert Suffixed[16..28] == Keyword + "457" + "A";
    CitationOf("457", "A");
    MaximalBefore(Suffixed, 16, 28);
  }

  lemma SuffixedStarts(p: nat)
    requires p < |Suffixed| && StartsAt(Suffixed, p)
    ensures p == 0 || p == 16
  {
    StartsWithKeyword(Suffixed, p);
  }

  lemma SuffixedScan()
    ensures IsScan(Suffixed, 0, [Span(0, 11), Span(16, 28)])
  {
    var r := [Span(0, 11), Span(16, 28)];
    SuffixedMatches();
    forall p | 0 <= p < |Suffixed| && StartsAt(Suffixed, p)
      ensures Covered(r, p)
    {
      SuffixedStarts(p);
      assert r[if p == 0 then 0 else 1].start <= p < r[if p == 0 then 0 else 1].end;
    }
  }

  lemma SuffixedTexts()
    ensures Texts(Suffixed, [Span(0, 11), Span(16, 28)]) == ["Section 378", "Section 457A"]
  {
    var a, b := "Section 378", "Section 457A";
    assert Suffixed == a + " and " + b + " apply";
    assert Suffixed[0..11] == a && Suffixed[16..28] == b;
    var t := Texts(Suffixed, [Span(0, 11), Span(16, 28)]);
    assert |t| == 2 && t[0] == a && t[1] == b;
  }

  /** The letter suffix belongs to the citation, and the order of mention is
      kept. */
  lemma SuffixedCitations()
    ensures FindAll(Suffixed) == ["Section 378", "Section 457A"]
  {
    SuffixedScan();
    FindAllCharacterised(Suffixed, [Span(0, 11), Span(16, 28)]);
    SuffixedTexts();
  }

  /** Two citations with nothing between them. */
  const Adjacent: string := "Section 378Section 457"

  lemma AdjacentMatch()
    ensures IsCitation(Adjacent[0..12]) && Maximal(Adjacent, 0, 12)
  {
    assert Adjacent[0..12] == Keyword + "378" + "S";
    CitationOf("378", "S");
    MaximalBefore(Adjacent, 0, 12);
  }

  lemma AdjacentStarts(p: nat)
    requires p < |Adjacent| && StartsAt(Adjacent, p)
    ensures p == 0 || p == 11
  {
    StartsWithKeyword(Adjacent, p);
  }

  /** `[A-Z]*` takes the `S` of the second citation, the rest of which
      ("ection 457") no longer matches: one altered citation is found. */
  lemma AdjacentCitations()
    ensures FindAll(Adjacent) == ["Section 378S"]
  {
    var r := [Span(0, 12)];
    AdjacentMatch();
    forall p | 0 <= p < |Adjacent| && StartsAt(Adjacent, p)
      ensures Covered(r, p)
    {
      AdjacentStarts(p);
      assert r[0].start <= p < r[0].end;
    }
    FindAllCharacterised(Adjacent, r);
    assert Texts(Adjacent, r)[0] == Adjacent[0..12] == "Section 378S";
  }

  /** The same citation twice. */
  const Repeated: string := "Section 420, Section 420"

  lemma RepeatedMatches()
    ensures IsCitation(Repeated[0..11]) && Maximal(Repeated, 0, 11)
    ensures IsCitation(Repeated[13..24]) && Maximal(Repeated, 13, 24)
  {
    assert Repeated == "Section 420" + ", " + "Section 420";
    assert Repeated[0..11] == Keyword + "420" + "";
    assert Repeated[13..24] == Keyword + "420" + "";
    CitationOf("420", "");
    MaximalBefore(Repeated, 0, 11);
  }

  lemma RepeatedStarts(p: nat)
    requires p < |Repeated| && StartsAt(Repeated, p)
    ensures p == 0 || p == 13
  {
    StartsWithKeyword(Repeated, p);
  }

  lemma RepeatedScan()
    ensures IsScan(Repeated, 0, [Span(0, 11), Span(13, 24)])
  {
    var r := [Span(0, 11), Span(13, 24)];
    RepeatedMatches();
    forall p | 0 <= p < |Repeated| && StartsAt(Repeated, p)
      ensures Covered(r, p)
    {
      RepeatedStarts(p);
      assert r[if p == 0 then 0 else 1].start <= p < r[if p == 0 then 0 else 1].end;
    }
  }

  lemma RepeatedTexts()
    ensures Texts(Repeated, [Span(0, 11), Span(13, 24)]) == ["Section 420", "Section 420"]
  {
    var a := "Section 420";
    assert Repeated == a + ", " + a;
    assert Repeated[0..11] == a && Repeated[13..24] == a;
    var t := Texts(Repeated, [Span(0, 11), Span(13, 24)]);
    assert |t| == 2 && t[0] == a && t[1] == a;
  }

  /** A repeated citation is reported each time: the list is not deduplicated. */
  lemma RepeatedCitations()
    ensures FindAll(Repeated) == ["Section 420", "Section 420"]
  {
    RepeatedScan();
    FindAllCharacterised(Repeated, [Span(0, 11), Span(13, 24)]);
    RepeatedTexts();
  }

  /** A tab in place of the space. */
  const Tabbed: string := "See Section\t302"

  lemma TabbedStarts(p: nat)
    requires p < |Tabbed|
    ensures StartsAt(Tabbed, p) ==> p == 4
  {
    if StartsAt(Tabbed, p) {
      StartsWithKeyword(Tabbed, p);
    }
  }

  /** The separator is a literal space, not any white space: nothing is found,
      and that is an empty list rather than an error. */
  lemma TabbedCitations()
    ensures FindAll(Tabbed) == []
  {
    assert !StartsAt(Tabbed, 4) by {
      assert Tabbed[4..4 + |Keyword|][7] == '\t';
    }
    forall p | 0 <= p < |Tabbed|
      ensures !StartsAt(Tabbed, p)
    {
      TabbedStarts(p);
    }
  }
}
