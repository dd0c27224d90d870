/**
 * parseCSV, the record parser shared (verbatim) by the three stages: a
 * java.util.regex scan of a line with the pattern
 *
 *     "([^"]*)"|(?<=,|^)([^,]*)(?=,|$)
 *
 * collecting group 1 (quoted field) or group 2 (unquoted field) of every
 * match that Matcher.find reports.
 */
module CsvScanner {
  import opened Wrappers
  import opened JavaLang

  const QUOTE := '"'
  const COMMA := ','

  /** One match: where it starts and ends in the line, and the group it captured. */
  datatype Match = Match(start: nat, end: nat, field: string)

  /**
   * The pattern tried at position i, first alternative first.
   * Alternative 1 needs a quote at i and a later quote; the greedy
   * [^"]* stops at the first later quote, so the capture is what lies
   * between the two. Alternative 2 needs i at the start of the line or
   * after a comma; the greedy [^,]* stops at the next comma or at the end
   * of the line, where the lookahead (?=,|$) holds at once.
   */
  function MatchAt(s: string, i: nat): (m: Option<Match>)
    requires i <= |s|
    ensures m.Some? ==> m.value.start == i <= m.value.end <= |s|
  {
    if i < |s| && s[i] == QUOTE && IndexOf(s, QUOTE, i + 1) < |s| then
      var j := IndexOf(s, QUOTE, i + 1);
      Some(Match(i, j + 1, s[i + 1..j]))
    else if i == 0 || s[i - 1] == COMMA then
      var k := IndexOf(s, COMMA, i);
      Some(Match(i, k, s[i..k]))
    else
      None
  }

  /** The regex engine's search: the first position at or after i where the pattern matches. */
  function Search(s: string, i: nat): (m: Option<Match>)
    requires i <= |s|
    ensures m.Some? ==> i <= m.value.start <= m.value.end <= |s|
    decreases |s| - i
  {
    var here := MatchAt(s, i);
    if here.Some? then here
    else if i == |s| then None
    else Search(s, i + 1)
  }

  /** Matcher.find from the search position `from`; it fails once `from` is past the end. */
  function Find(s: string, from: nat): (m: Option<Match>)
    ensures m.Some? ==> from <= m.value.start <= m.value.end <= |s|
    ensures from > |s| ==> m.None?
  {
    if from > |s| then None else Search(s, from)
  }

  /**
   * Where the next find() starts: the end of the previous match, or one
   * past it when the previous match was empty.
   */
  function NextFrom(m: Match): (next: nat)
    requires m.start <= m.end
    ensures m.end <= next <= m.end + 1 && m.start < next
  {
    if m.end == m.start then m.end + 1 else m.end
  }

  /** The fields collected by the find() loop when the matcher stands at `from`; none once it is past the end. */
  function FieldsFrom(s: string, from: nat): (fields: seq<string>)
    ensures from > |s| ==> fields == []
    decreases |s| + 1 - from
  {
    match Find(s, from)
    case None => []
    case Some(m) => [m.field] + FieldsFrom(s, NextFrom(m))
  }

  /**
   * Each find moves the matcher on by at least one position, so the loop
   * collects at most as many fields as there are positions left.
   */
  lemma {:induction false} FieldsFromBound(s: string, from: nat)
    requires from <= |s| + 1
    ensures |FieldsFrom(s, from)| <= |s| + 1 - from
    decreases |s| + 1 - from
  {
    match Find(s, from)
    case None =>
    case Some(m) =>
      if NextFrom(m) <= |s| + 1 {
        FieldsFromBound(s, NextFrom(m));
      }
  }

  /**
   * parseCSV(line). It never fails: at position 0 the second alternative
   * always matches, so there is always at least one field.
   */
  function Fields(s: string): (fields: seq<string>)
    ensures |fields| >= 1
  {
    FieldsFrom(s, 0)
  }

  /** BaselineMapper.parseCSV's loop: each match found is appended to the list of fields. */
  method ParseCsv(line: string) returns (fields: seq<string>)
    ensures fields == Fields(line)
  {
    fields := [];
    var from := 0;
    var m := Find(line, from);
    while m.Some?
      invariant m == Find(line, from)
      invariant fields + FieldsFrom(line, from) == Fields(line)
      decreases |line| + 1 - from
    {
      fields := fields + [m.value.field];
      from := NextFrom(m.value);
      m := Find(line, from);
    }
  }

  predicate NoQuote(s: string)
  {
    QUOTE !in s
  }

  /** Where no match starts at i, find() from i reports the same as find() from i + 1. */
  lemma SkipPosition(s: string, i: nat)
    requires i < |s|
    requires MatchAt(s, i).None?
    ensures FieldsFrom(s, i) == FieldsFrom(s, i + 1)
  {
    assert Find(s, i) == Search(s, i) == Search(s, i + 1) == Find(s, i + 1);
  }

  /** The unquoted match at a field start i (no quote at i): the text up to the next comma. */
  lemma UnquotedMatch(s: string, i: nat)
    requires i <= |s|
    requires i == 0 || s[i - 1] == COMMA
    requires i == |s| || s[i] != QUOTE
    ensures var k := IndexOf(s, COMMA, i);
      FieldsFrom(s, i) == [s[i..k]] + FieldsFrom(s, if k == i then k + 1 else k)
  {
    var k := IndexOf(s, COMMA, i);
    assert MatchAt(s, i) == Some(Match(i, k, s[i..k]));
  }

  /** Just after a non-empty unquoted field that a comma ends, the scan resumes after the comma. */
  lemma ResumeAfterComma(s: string, k: nat)
    requires 0 < k < |s| && s[k] == COMMA && s[k - 1] != COMMA
    ensures FieldsFrom(s, k) == FieldsFrom(s, k + 1)
  {
    assert MatchAt(s, k).None?;
    SkipPosition(s, k);
  }

  /** At the end of a line whose last character is not a comma, the scan stops. */
  lemma StopAtEnd(s: string)
    requires |s| > 0 && s[|s| - 1] != COMMA
    ensures FieldsFrom(s, |s|) == []
  {
    assert MatchAt(s, |s|).None?;
  }

  /**
   * One unquoted field: from a field start without a quote, the scan takes
   * the text up to the next comma and resumes just after that comma, or
   * takes the rest of the line and stops.
   */
  lemma UnquotedFieldStep(s: string, i: nat)
    requires i <= |s|
    requires i == 0 || s[i - 1] == COMMA
    requires i == |s| || s[i] != QUOTE
    ensures var k := IndexOf(s, COMMA, i);
      if k < |s| then FieldsFrom(s, i) == [s[i..k]] + FieldsFrom(s, k + 1)
      else FieldsFrom(s, i) == [s[i..]]
  {
    var k := IndexOf(s, COMMA, i);
    UnquotedMatch(s, i);
    if k > i && k < |s| {
      ResumeAfterComma(s, k);
    } else if k > i {
      StopAtEnd(s);
      assert s[i..k] == s[i..];
    } else if k == |s| {
      assert FieldsFrom(s, k + 1) == [];
      assert s[i..k] == s[i..];
    }
  }

  /** UnquotedFieldStep where the next comma, or the end of the line, is at e and the field is w. */
  lemma UnquotedFieldEndsAt(s: string, i: nat, e: nat, w: string)
    requires i <= |s|
    requires i == 0 || s[i - 1] == COMMA
    requires i == |s| || s[i] != QUOTE
    requires IndexOf(s, COMMA, i) == e && s[i..e] == w
    ensures FieldsFrom(s, i) == [w] + After(s, e)
  {
    UnquotedFieldStep(s, i);
    if e == |s| {
      assert s[i..] == s[i..e];
    }
  }

  /** How one field is written in a line: as it is, or between quotes. */
  datatype Cell = Plain(text: string) | Quoted(text: string)

  /** The characters that stand for the cell in the line. */
  function Written(c: Cell): string
  {
    match c
    case Plain(t) => t
    case Quoted(t) => [QUOTE] + t + [QUOTE]
  }

  /**
   * A cell the scanner reads back: no quote inside, and no comma inside a
   * plain one (a quoted one may hold commas).
   */
  predicate Readable(c: Cell)
  {
    NoQuote(c.text) && (c.Plain? ==> COMMA !in c.text)
  }

  function WrittenCells(cells: seq<Cell>): (ws: seq<string>)
    ensures |ws| == |cells|
  {
    if cells == [] then [] else [Written(cells[0])] + WrittenCells(cells[1..])
  }

  function Texts(cells: seq<Cell>): (ts: seq<string>)
    ensures |ts| == |cells|
  {
    if cells == [] then [] else [cells[0].text] + Texts(cells[1..])
  }

  /** A line made of cells separated by commas. */
  function Line(cells: seq<Cell>): string
  {
    Join(WrittenCells(cells), COMMA)
  }

  /** The text of s from i on is w, then the rest of the line. */
  predicate Spells(s: string, i: nat, w: string)
  {
    i + |w| <= |s| && forall j :: 0 <= j < |w| ==> s[i + j] == w[j]
  }

  /** A position where a field starts: the line start or just after a comma. */
  predicate FieldStart(s: string, i: nat)
    requires i <= |s|
  {
    i == 0 || s[i - 1] == COMMA
  }

  /** Where the scan goes on after a cell that ends at e: nowhere at the end of the line, else past the comma. */
  function After(s: string, e: nat): seq<string>
    requires e <= |s|
  {
    if e == |s| then [] else FieldsFrom(s, e + 1)
  }

  /** Where a plain cell w is spelled from i: the next comma is just past it, and no quote opens it. */
  lemma PlainCellText(s: string, i: nat, w: string)
    requires i <= |s| && Spells(s, i, w)
    requires COMMA !in w && QUOTE !in w
    requires i + |w| == |s| || s[i + |w|] == COMMA
    ensures IndexOf(s, COMMA, i) == i + |w|
    ensures s[i..i + |w|] == w
    ensures i == |s| || s[i] != QUOTE
  {
    var e := i + |w|;
    forall j | i <= j < e
      ensures s[j] == w[j - i] && s[j] != COMMA
    {
      assert s[i + (j - i)] == w[j - i];
    }
    IndexOfIsFirst(s, COMMA, i, e);
    assert s[i..e] == w;
    if w != [] {
      assert s[i + 0] == w[0];
    }
  }

  /** A plain cell at a field start, closed by a comma or the end of the line, scans as its text. */
  lemma PlainCellStep(s: string, i: nat, w: string)
    requires i <= |s| && FieldStart(s, i) && Spells(s, i, w)
    requires COMMA !in w && QUOTE !in w
    requires i + |w| == |s| || s[i + |w|] == COMMA
    ensures FieldsFrom(s, i) == [w] + After(s, i + |w|)
  {
    PlainCellText(s, i, w);
    UnquotedFieldEndsAt(s, i, i + |w|, w);
  }

  /** Where a quoted cell "b" is spelled from i: a quote at i, and the next quote closes b. */
  lemma QuotedCellText(s: string, i: nat, b: string)
    requires i <= |s| && Spells(s, i, [QUOTE] + b + [QUOTE])
    requires QUOTE !in b
    ensures i + |b| + 1 < |s| && s[i] == QUOTE
    ensures IndexOf(s, QUOTE, i + 1) == i + |b| + 1
    ensures s[i + 1..i + |b| + 1] == b
  {
    var w := [QUOTE] + b + [QUOTE];
    var j := i + |b| + 1;
    assert s[i + 0] == w[0] == QUOTE;
    assert s[i + (|b| + 1)] == w[|b| + 1] == QUOTE;
    forall n | i + 1 <= n < j
      ensures s[n] == b[n - i - 1] && s[n] != QUOTE
    {
      assert s[i + (n - i)] == w[n - i] == b[n - i - 1];
    }
    IndexOfIsFirst(s, QUOTE, i + 1, j);
    assert s[i + 1..j] == b;
  }

  /** A quoted match from i to the closing quote at j, followed by a comma or the end of the line. */
  lemma QuotedMatchStep(s: string, i: nat, j: nat)
    requires i < j < |s| && s[i] == QUOTE && IndexOf(s, QUOTE, i + 1) == j
    requires j + 1 == |s| || s[j + 1] == COMMA
    ensures FieldsFrom(s, i) == [s[i + 1..j]] + After(s, j + 1)
  {
    var e := j + 1;
    assert MatchAt(s, i) == Some(Match(i, e, s[i + 1..j]));
    assert FieldsFrom(s, i) == [s[i + 1..j]] + FieldsFrom(s, e);
    assert MatchAt(s, e).None?;
    if e < |s| {
      SkipPosition(s, e);
    }
  }

  /** A quoted cell at a field start, closed by a comma or the end of the line, scans as the text between its quotes. */
  lemma QuotedCellStep(s: string, i: nat, b: string)
    requires i <= |s| && FieldStart(s, i) && Spells(s, i, [QUOTE] + b + [QUOTE])
    requires QUOTE !in b
    requires i + |b| + 2 == |s| || s[i + |b| + 2] == COMMA
    ensures FieldsFrom(s, i) == [b] + After(s, i + |b| + 2)
  {
    QuotedCellText(s, i, b);
    QuotedMatchStep(s, i, i + |b| + 1);
  }

  /** One cell: its text, then what the rest of the line scans into. */
  lemma CellStep(s: string, i: nat, c: Cell)
    requires i <= |s| && FieldStart(s, i) && Spells(s, i, Written(c)) && Readable(c)
    requires i + |Written(c)| == |s| || s[i + |Written(c)|] == COMMA
    ensures FieldsFrom(s, i) == [c.text] + After(s, i + |Written(c)|)
  {
    if c.Plain? {
      PlainCellStep(s, i, c.text);
    } else {
      QuotedCellStep(s, i, c.text);
    }
  }

  /** A line of several cells: the first one written, a comma, then the line of the others. */
  lemma LineOfCells(cells: seq<Cell>)
    requires |cells| >= 1
    ensures |cells| == 1 ==> Line(cells) == Written(cells[0])
    ensures |cells| > 1 ==> Line(cells) == Written(cells[0]) + [COMMA] + Line(cells[1..])
  {
    assert WrittenCells(cells)[1..] == WrittenCells(cells[1..]);
  }

  /** Spelling a + [c] + b from i spells a from i, c after it and b after that. */
  lemma SpellsParts(s: string, i: nat, a: string, c: char, b: string)
    requires Spells(s, i, a + [c] + b)
    ensures Spells(s, i, a) && s[i + |a|] == c && Spells(s, i + |a| + 1, b)
  {
    var w := a + [c] + b;
    assert forall j :: 0 <= j < |a| ==> s[i + j] == w[j] == a[j];
    assert s[i + |a|] == w[|a|];
    assert forall j :: 0 <= j < |b| ==> s[i + |a| + 1 + j] == w[|a| + 1 + j] == b[j];
  }

  /** A line of one cell that fills s from i scans as that cell's text. */
  lemma FirstCellOnly(s: string, i: nat, c: Cell)
    requires Readable(c)
    requires i <= |s| && FieldStart(s, i) && Spells(s, i, Line([c])) && i + |Line([c])| == |s|
    ensures FieldsFrom(s, i) == [c.text]
  {
    LineOfCells([c]);
    CellStep(s, i, c);
  }

  /** Several cells that fill s from i: the first written, a comma, then the others filling the rest. */
  lemma FirstCellSpelling(s: string, i: nat, cells: seq<Cell>)
    requires |cells| > 1
    requires i <= |s| && Spells(s, i, Line(cells)) && i + |Line(cells)| == |s|
    ensures var e := i + |Written(cells[0])|;
      && e < |s| && s[e] == COMMA && Spells(s, i, Written(cells[0]))
      && Spells(s, e + 1, Line(cells[1..])) && e + 1 + |Line(cells[1..])| == |s|
  {
    LineOfCells(cells);
    SpellsParts(s, i, Written(cells[0]), COMMA, Line(cells[1..]));
  }

  /** The first of several cells that fill s from i: its text, then the scan past its comma. */
  lemma FirstCellOfMany(s: string, i: nat, cells: seq<Cell>)
    requires |cells| > 1 && Readable(cells[0])
    requires i <= |s| && FieldStart(s, i) && Spells(s, i, Line(cells)) && i + |Line(cells)| == |s|
    ensures var n := i + |Written(cells[0])| + 1;
      && n <= |s| && FieldStart(s, n) && Spells(s, n, Line(cells[1..])) && n + |Line(cells[1..])| == |s|
      && FieldsFrom(s, i) == [cells[0].text] + FieldsFrom(s, n)
  {
    FirstCellSpelling(s, i, cells);
    CellStep(s, i, cells[0]);
    var e := i + |Written(cells[0])|;
    assert After(s, e) == FieldsFrom(s, e + 1);
    assert FieldStart(s, e + 1);
  }

  /**
   * The first cell of a line that fills s from i: its text, then the scan
   * of the line of the other cells, which fills s from just past the comma.
   */
  lemma FirstCell(s: string, i: nat, cells: seq<Cell>)
    requires |cells| >= 1 && Readable(cells[0])
    requires i <= |s| && FieldStart(s, i) && Spells(s, i, Line(cells)) && i + |Line(cells)| == |s|
    ensures |cells| == 1 ==> FieldsFrom(s, i) == [cells[0].text]
    ensures |cells| > 1 ==>
      var n := i + |Written(cells[0])| + 1;
      && n <= |s| && FieldStart(s, n) && Spells(s, n, Line(cells[1..])) && n + |Line(cells[1..])| == |s|
      && FieldsFrom(s, i) == [cells[0].text] + FieldsFrom(s, n)
  {
    if |cells| == 1 {
      FirstCellOnly(s, i, cells[0]);
    } else {
      FirstCellOfMany(s, i, cells);
    }
  }

  /** Readable cells that fill s from a field start i scan back into their texts. */
  lemma {:induction false} ScanCells(s: string, i: nat, cells: seq<Cell>)
    requires |cells| >= 1 && forall n :: 0 <= n < |cells| ==> Readable(cells[n])
    requires i <= |s| && FieldStart(s, i) && Spells(s, i, Line(cells)) && i + |Line(cells)| == |s|
    ensures FieldsFrom(s, i) == Texts(cells)
    decreases |cells|
  {
    FirstCell(s, i, cells);
    if |cells| > 1 {
      ScanCells(s, i + |Written(cells[0])| + 1, cells[1..]);
      assert Texts(cells) == [cells[0].text] + Texts(cells[1..]);
    }
  }

  /** Texts written as plain cells. */
  function PlainCells(ts: seq<string>): (cells: seq<Cell>)
    ensures |cells| == |ts| && forall n :: 0 <= n < |ts| ==> cells[n] == Plain(ts[n])
  {
    if ts == [] then [] else [Plain(ts[0])] + PlainCells(ts[1..])
  }

  lemma {:induction false} CellsOfPlain(ts: seq<string>)
    ensures WrittenCells(PlainCells(ts)) == ts && Texts(PlainCells(ts)) == ts
    decreases |ts|
  {
    if ts != [] {
      CellsOfPlain(ts[1..]);
      assert PlainCells(ts)[1..] == PlainCells(ts[1..]);
      assert ts == [ts[0]] + ts[1..];
    }
  }

  lemma {:induction false} WrittenOfConcat(a: seq<Cell>, b: seq<Cell>)
    ensures WrittenCells(a + b) == WrittenCells(a) + WrittenCells(b)
    decreases |a|
  {
    if a == [] {
      assert a + b == b;
    } else {
      WrittenOfConcat(a[1..], b);
      assert (a + b)[1..] == a[1..] + b;
      assert WrittenCells(a + b) == [Written(a[0])] + WrittenCells(a[1..] + b);
    }
  }

  lemma {:induction false} TextsOfConcat(a: seq<Cell>, b: seq<Cell>)
    ensures Texts(a + b) == Texts(a) + Texts(b)
    decreases |a|
  {
    if a == [] {
      assert a + b == b;
    } else {
      TextsOfConcat(a[1..], b);
      assert (a + b)[1..] == a[1..] + b;
      assert Texts(a + b) == [a[0].text] + Texts(a[1..] + b);
    }
  }

  /**
   * A line whose fields are written plainly (no comma, no quote) or
   * between quotes (no quote inside, commas allowed) scans back into
   * exactly those fields, empty and trailing empty ones included.
   */
  lemma ReadsBackCells(cells: seq<Cell>)
    requires |cells| >= 1 && forall n :: 0 <= n < |cells| ==> Readable(cells[n])
    ensures Fields(Line(cells)) == Texts(cells)
  {
    ScanCells(Line(cells), 0, cells);
  }

  /** On a line without any quote, parseCSV is exactly String.split(",", -1). */
  lemma UnquotedLineIsCommaSplit(s: string)
    requires NoQuote(s)
    ensures Fields(s) == Split(s, COMMA)
  {
    var parts := Split(s, COMMA);
    SplitPiecesAvoid(s, COMMA);
    var cells := PlainCells(parts);
    CellsOfPlain(parts);
    JoinSplit(s, COMMA);
    forall n | 0 <= n < |cells|
      ensures Readable(cells[n])
    {
      assert forall j :: 0 <= j < |parts[n]| ==> parts[n][j] in s;
    }
    ReadsBackCells(cells);
  }

  /** Fields without commas or quotes. */
  predicate PlainFields(ts: seq<string>)
  {
    forall n :: 0 <= n < |ts| ==> COMMA !in ts[n] && QUOTE !in ts[n]
  }

  /** Fields without commas or quotes, joined with commas, scan back into themselves. */
  lemma PlainRowReadsBack(ts: seq<string>)
    requires |ts| >= 1 && PlainFields(ts)
    ensures Fields(Join(ts, COMMA)) == ts
  {
    var cells := PlainCells(ts);
    CellsOfPlain(ts);
    ReadsBackCells(cells);
  }

  /** Plain fields around a quoted one, as cells. */
  lemma QuotedRowCells(before: seq<string>, b: string, after: seq<string>) returns (cells: seq<Cell>)
    requires forall n :: 0 <= n < |before| ==> COMMA !in before[n] && QUOTE !in before[n]
    requires forall n :: 0 <= n < |after| ==> COMMA !in after[n] && QUOTE !in after[n]
    requires QUOTE !in b
    ensures |cells| >= 1 && forall n :: 0 <= n < |cells| ==> Readable(cells[n])
    ensures Line(cells) == Join(before + [[QUOTE] + b + [QUOTE]] + after, COMMA)
    ensures Texts(cells) == before + [b] + after
  {
    var pb, q, pa := PlainCells(before), [Quoted(b)], PlainCells(after);
    cells := pb + q + pa;
    CellsOfPlain(before);
    CellsOfPlain(after);
    WrittenOfConcat(pb, q);
    WrittenOfConcat(pb + q, pa);
    TextsOfConcat(pb, q);
    TextsOfConcat(pb + q, pa);
    assert WrittenCells(q) == [[QUOTE] + b + [QUOTE]] && Texts(q) == [b];
    forall n | 0 <= n < |cells|
      ensures Readable(cells[n])
    {
      if n < |before| {
        assert cells[n] == pb[n];
      } else if n > |before| {
        assert cells[n] == pa[n - |before| - 1];
      }
    }
  }

  /**
   * A field written as "b" (no quote in b) between plain fields comes back
   * as the one field b without its quotes, commas in b included.
   */
  lemma QuotedFieldIsOneField(before: seq<string>, b: string, after: seq<string>)
    requires forall n :: 0 <= n < |before| ==> COMMA !in before[n] && QUOTE !in before[n]
    requires forall n :: 0 <= n < |after| ==> COMMA !in after[n] && QUOTE !in after[n]
    requires QUOTE !in b
    ensures Fields(Join(before + [[QUOTE] + b + [QUOTE]] + after, COMMA)) == before + [b] + after
  {
    var cells := QuotedRowCells(before, b, after);
    ReadsBackCells(cells);
  }
}
