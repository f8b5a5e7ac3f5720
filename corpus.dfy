/** The row builder of pdfParsing/py-pdf-parser.py: the paraphrased text of
    the statute book is split into lines, and every line that is not blank
    becomes a `[section, title, description]` row of the corpus. */
module Corpus {
  import opened Wrappers
  import opened Citations

  /** Python's `str.isspace` on one character: the characters `str.strip()`
      removes. */
  predicate IsSpace(c: char) {
    var x := c as int;
    || 9 <= x <= 13 || 28 <= x <= 32 || x == 0x85 || x == 0xA0 || x == 0x1680
    || 0x2000 <= x <= 0x200A || x == 0x2028 || x == 0x2029 || x == 0x202F
    || x == 0x205F || x == 0x3000
  }

  /** Every character of `s` is white space (so is the empty string). */
  predicate Blank(s: string) {
    forall k :: 0 <= k < |s| ==> IsSpace(s[k])
  }

  /** `s` without its leading white space. */
  function TrimStart(s: string): (t: string)
    ensures |t| <= |s| && t == s[|s| - |t|..]
    ensures forall k :: 0 <= k < |s| - |t| ==> IsSpace(s[k])
    ensures t != [] ==> !IsSpace(t[0])
  {
    if s != [] && IsSpace(s[0]) then TrimStart(s[1..]) else s
  }

  /** `s` without its trailing white space. */
  function TrimEnd(s: string): (t: string)
    ensures |t| <= |s| && t == s[..|t|]
    ensures forall k :: |t| <= k < |s| ==> IsSpace(s[k])
    ensures t != [] ==> !IsSpace(t[|t| - 1])
  {
    if s != [] && IsSpace(s[|s| - 1]) then TrimEnd(s[..|s| - 1]) else s
  }

  /** `s.strip()`: a piece of `s` that neither begins nor ends with white
      space, and that is empty exactly when `s` is blank. */
  function Strip(s: string): (t: string)
    ensures t != [] ==> !IsSpace(t[0]) && !IsSpace(t[|t| - 1])
    ensures t == [] <==> Blank(s)
  {
    var u := TrimStart(s);
    assert u != [] ==> s[|s| - |u|] == u[0];
    TrimEnd(u)
  }

  /** `text.split("\n")`: the pieces between line feeds, one more than there
      are line feeds. */
  function Split(s: string): (lines: seq<string>)
    ensures |lines| >= 1
    ensures forall l :: 0 <= l < |lines| ==> '\n' !in lines[l]
  {
    if s == [] then [""]
    else
      var rest := Split(s[1..]);
      if s[0] == '\n' then [""] + rest
      else [[s[0]] + rest[0]] + rest[1..]
  }

  /** `"\n".join(lines)`. */
  function Join(lines: seq<string>): string
    requires |lines| >= 1
  {
    if |lines| == 1 then lines[0] else lines[0] + "\n" + Join(lines[1..])
  }

  /** Joining the pieces gives the text back. */
  lemma {:induction false} SplitJoin(s: string)
    ensures Join(Split(s)) == s
  {
    if s != [] {
      var rest := Split(s[1..]);
      SplitJoin(s[1..]);
      if s[0] != '\n' && |rest| > 1 {
        assert Join(rest) == rest[0] + "\n" + Join(rest[1..]);
        assert ([[s[0]] + rest[0]] + rest[1..])[1..] == rest[1..];
      }
    }
  }

  /** Text before the first line feed goes to the first piece. */
  lemma {:induction false} SplitPrefix(w: string, t: string)
    requires '\n' !in w
    ensures Split(w + t) == [w + Split(t)[0]] + Split(t)[1..]
  {
    if w != [] {
      assert (w + t)[1..] == w[1..] + t;
      SplitPrefix(w[1..], t);
      assert [w[0]] + (w[1..] + Split(t)[0]) == w + Split(t)[0];
    } else {
      assert w + t == t && w + Split(t)[0] == Split(t)[0];
      assert Split(t) == [Split(t)[0]] + Split(t)[1..];
    }
  }

  /** Splitting a join of pieces without line feeds gives the pieces back. */
  lemma {:induction false} JoinSplit(lines: seq<string>)
    requires |lines| >= 1
    requires forall l :: 0 <= l < |lines| ==> '\n' !in lines[l]
    ensures Split(Join(lines)) == lines
  {
    if |lines| == 1 {
      SplitPrefix(lines[0], "");
      assert lines[0] + "" == lines[0];
    } else {
      JoinSplit(lines[1..]);
      var tail := "\n" + Join(lines[1..]);
      assert Split(tail) == [""] + lines[1..] by {
        assert tail[1..] == Join(lines[1..]);
      }
      SplitPrefix(lines[0], tail);
      assert lines[0] + "\n" + Join(lines[1..]) == lines[0] + tail;
      assert lines[0] + "" == lines[0];
      assert lines == [lines[0]] + lines[1..];
    }
  }

  /** A blank text splits into blank lines only. */
  lemma {:induction false} SplitBlank(s: string)
    requires Blank(s)
    ensures forall l :: 0 <= l < |Split(s)| ==> Blank(Split(s)[l])
  {
    if s != [] {
      SplitBlank(s[1..]);
      var rest := Split(s[1..]);
      if s[0] != '\n' {
        assert Blank([s[0]] + rest[0]);
      }
    }
  }

  /** One CSV row: `[section, title, description]`. */
  datatype Row = Row(section: string, title: string, description: string)

  /** The title is this many leading characters of the line. */
  const TitleWidth: nat := 50

  /** `line[:50]`. */
  function Title(line: string): string {
    if |line| <= TitleWidth then line else line[..TitleWidth]
  }

  /** A title is the first `min(50, |line|)` characters of its line. */
  lemma TitlePrefix(line: string)
    ensures |Title(line)| == if |line| < TitleWidth then |line| else TitleWidth
    ensures Title(line) == line[..|Title(line)|]
  {
  }

  /** The character of one decimal digit. */
  function DigitChar(d: nat): (c: char)
    requires d < 10
    ensures IsDigit(c) && c as int - '0' as int == d
  {
    ('0' as int + d) as char
  }

  /** `str(n)`: the decimal numeral of `n`, without leading zeros. */
  function Decimal(n: nat): (s: string)
    ensures |s| >= 1 && forall k :: 0 <= k < |s| ==> IsDigit(s[k])
    ensures n > 0 ==> s[0] != '0'
  {
    if n < 10 then [DigitChar(n)] else Decimal(n / 10) + [DigitChar(n % 10)]
  }

  /** The value of one decimal digit. */
  function DigitValue(c: char): nat
    requires IsDigit(c)
  {
    c as int - '0' as int
  }

  /** The number a string of decimal digits denotes. */
  function ValueOf(s: string): nat
    requires forall k :: 0 <= k < |s| ==> IsDigit(s[k])
  {
    if s == [] then 0 else ValueOf(s[..|s| - 1]) * 10 + DigitValue(s[|s| - 1])
  }

  lemma {:induction false} DecimalRoundTrip(n: nat)
    ensures ValueOf(Decimal(n)) == n
  {
    if n >= 10 {
      DecimalRoundTrip(n / 10);
      var s := Decimal(n);
      assert s[..|s| - 1] == Decimal(n / 10);
    }
  }

  /** `f"Section {n}"`. */
  function SectionLabel(n: nat): string {
    Keyword + Decimal(n)
  }

  /** The line number a section label carries, if it is one. */
  function LabelNumber(heading: string): Option<nat> {
    if |heading| > |Keyword| && heading[..|Keyword|] == Keyword
       && forall k :: |Keyword| <= k < |heading| ==> IsDigit(heading[k])
    then Some(ValueOf(heading[|Keyword|..]))
    else None
  }

  /** A label gives back its line number, so different lines get different
      labels. */
  lemma LabelRoundTrip(n: nat)
    ensures LabelNumber(SectionLabel(n)) == Some(n)
  {
    var heading := SectionLabel(n);
    assert heading[|Keyword|..] == Decimal(n);
    DecimalRoundTrip(n);
  }

  /** The row the loop appends for line `i` (0-based) of `lines`. */
  function RowAt(lines: seq<string>, i: nat): Row
    requires i < |lines|
  {
    Row(SectionLabel(i + 1), Title(lines[i]), lines[i])
  }

  /** `data` after the loop has visited the first `n` lines: a row for every
      line that is not blank, which is to say whose `strip()` is not empty. */
  function RowsUpTo(lines: seq<string>, n: nat): (rows: seq<Row>)
    requires n <= |lines|
    ensures |rows| == |Kept(lines, n)|
  {
    if n == 0 then []
    else RowsUpTo(lines, n - 1) + (if Blank(lines[n - 1]) then [] else [RowAt(lines, n - 1)])
  }

  /** The positions among the first `n` lines of the lines that are not
      blank, in increasing order. */
  function Kept(lines: seq<string>, n: nat): (idx: seq<nat>)
    requires n <= |lines|
    ensures forall k, l :: 0 <= k < l < |idx| ==> idx[k] < idx[l]
    ensures forall k :: 0 <= k < |idx| ==> idx[k] < n
  {
    if n == 0 then []
    else Kept(lines, n - 1) + (if Blank(lines[n - 1]) then [] else [n - 1])
  }

  /** The rows are the rows of the lines that are not blank, one each, in
      line order. */
  lemma {:induction false} RowsByLine(lines: seq<string>, n: nat)
    requires n <= |lines|
    ensures forall k :: 0 <= k < |Kept(lines, n)| ==> RowsUpTo(lines, n)[k] == RowAt(lines, Kept(lines, n)[k])
  {
    if n > 0 {
      RowsByLine(lines, n - 1);

    }
  }

  /** The lines kept are exactly the lines that are not blank. */
  lemma {:induction false} KeptExactly(lines: seq<string>, n: nat, i: nat)
    requires i < n <= |lines|
    ensures i in Kept(lines, n) <==> !Blank(lines[i])
  {
    if i < n - 1 {
      KeptExactly(lines, n - 1, i);
      assert n - 1 !in Kept(lines, n - 1);
    } else {
      assert i !in Kept(lines, n - 1);
    }
  }

  /** A row's label carries the 1-based number of its line among all lines,
      so the numbers of blank lines are skipped. */
  lemma RowLabel(lines: seq<string>, k: nat)
    requires k < |Kept(lines, |lines|)|
    ensures LabelNumber(RowsUpTo(lines, |lines|)[k].section) == Some(Kept(lines, |lines|)[k] + 1)
  {
    var rows, idx := RowsUpTo(lines, |lines|), Kept(lines, |lines|);
    RowsByLine(lines, |lines|);
    assert rows[k].section == SectionLabel(idx[k] + 1);
    LabelRoundTrip(idx[k] + 1);
  }

  /** The labels of later rows carry larger numbers. */
  lemma RowLabelsIncrease(lines: seq<string>, k: nat, l: nat)
    requires k < l < |Kept(lines, |lines|)|
    ensures var rows := RowsUpTo(lines, |lines|);
            && LabelNumber(rows[k].section).Some? && LabelNumber(rows[l].section).Some?
            && LabelNumber(rows[k].section).value < LabelNumber(rows[l].section).value
  {
    RowLabel(lines, k);
    RowLabel(lines, l);
  }

  /** A row's description is its line unchanged, a line that is not blank,
      and its title is the first `min(50, |line|)` characters of it. */
  lemma RowText(lines: seq<string>, k: nat)
    requires k < |Kept(lines, |lines|)|
    ensures var rows, idx := RowsUpTo(lines, |lines|), Kept(lines, |lines|);
            && rows[k].description == lines[idx[k]] && !Blank(rows[k].description)
            && |rows[k].title| == (if |rows[k].description| < TitleWidth then |rows[k].description| else TitleWidth)
            && rows[k].title == rows[k].description[..|rows[k].title|]
  {
    var rows, idx := RowsUpTo(lines, |lines|), Kept(lines, |lines|);
    RowsByLine(lines, |lines|);
    assert rows[k] == RowAt(lines, idx[k]);
    KeptExactly(lines, |lines|, idx[k]);
    TitlePrefix(lines[idx[k]]);
  }

  /** There are no more rows than lines. */
  lemma {:induction false} RowCount(lines: seq<string>, n: nat)
    requires n <= |lines|
    ensures |RowsUpTo(lines, n)| <= n
  {
    if n > 0 {
      RowCount(lines, n - 1);
      assert |RowsUpTo(lines, n)| <= |RowsUpTo(lines, n - 1)| + 1;
    }
  }

  /** No row comes from lines that are all blank. */
  lemma {:induction false} BlankLinesNoRows(lines: seq<string>, n: nat)
    requires n <= |lines|
    requires forall l :: 0 <= l < n ==> Blank(lines[l])
    ensures RowsUpTo(lines, n) == []
  {
    if n > 0 {
      BlankLinesNoRows(lines, n - 1);
    }
  }

  /** A blank text yields no rows. */
  lemma BlankTextNoRows(text: string)
    requires Blank(text)
    ensures RowsUpTo(Split(text), |Split(text)|) == []
  {
    SplitBlank(text);
    BlankLinesNoRows(Split(text), |Split(text)|);
  }

  /** The loop of `main`: one pass over `enumerate(lines)`, appending a row
      for each line that is not blank. */
  method BuildRows(lines: seq<string>) returns (data: seq<Row>)
    ensures data == RowsUpTo(lines, |lines|)
  {
    data := [];
    for i := 0 to |lines|
      invariant data == RowsUpTo(lines, i)
    {
      var line := lines[i];
      if Strip(line) != "" {
        assert !Blank(line);
        data := data + [Row(SectionLabel(i + 1), Title(line), line)];
      }
    }
  }

  /** `main` after text extraction: no rows at all (and no CSV) for a blank
      text, and otherwise the rows of the paraphrased text's lines. */
  method ProcessText(pdfText: string, paraphrase: string -> string) returns (rows: Option<seq<Row>>)
    ensures rows.None? <==> Blank(pdfText)
    ensures rows.Some? ==> rows.value == RowsUpTo(Split(paraphrase(pdfText)), |Split(paraphrase(pdfText))|)
  {
    if Strip(pdfText) == "" {
      return None;
    }
    var lines := Split(paraphrase(pdfText));
    var data := BuildRows(lines);
    rows := Some(data);
  }
}

/** A worked input for the row builder: blank lines produce no row, and the
    row after them keeps its own line number. */
module CorpusExamples {
  import opened Corpus

  const Lines: seq<string> := ["Theft", "", "  ", "Robbery"]

  /** Three line feeds give four lines, the empty ones included. */
  lemma ExampleSplit()
    ensures Split("Theft\n\n  \nRobbery") == Lines
  {
    assert Join(Lines[3..]) == "Robbery";
    assert Join(Lines[2..]) == "  \nRobbery";
    assert Join(Lines[1..]) == "\n  \nRobbery";
    assert Join(Lines) == "Theft\n\n  \nRobbery";
    JoinSplit(Lines);
  }

  /** Lines 2 and 3 are blank: the rows are labelled 1 and 4. */
  lemma ExampleRows()
    ensures RowsUpTo(Lines, |Lines|) ==
            [Row("Section 1", "Theft", "Theft"), Row("Section 4", "Robbery", "Robbery")]
  {
    assert !Blank(Lines[0]) by { assert !IsSpace(Lines[0][0]); }
    assert !Blank(Lines[3]) by { assert !IsSpace(Lines[3][0]); }
    assert Blank(Lines[1]) && Blank(Lines[2]);
    assert SectionLabel(1) == "Section 1" by { assert Decimal(1) == "1"; }
    assert SectionLabel(4) == "Section 4" by { assert Decimal(4) == "4"; }
    assert RowsUpTo(Lines, 1) == [RowAt(Lines, 0)];
    assert RowsUpTo(Lines, 3) == [RowAt(Lines, 0)];
  }
}
