/**
 * The CSV parser of the upload component: the text is split on line feeds,
 * blank lines are dropped, and each remaining line is scanned character by
 * character with an "inside quotes" flag. A double quote only flips the flag,
 * a comma outside quotes closes the current cell, and every cell is trimmed.
 */
module CsvUpload {
  import opened Text
  import opened Sequences

  /** The scanner's variables after some prefix of a line: the cells closed so far, the open cell, the quote flag. */
  datatype LineState = LineState(cells: seq<string>, current: string, inQuotes: bool)

  /** One iteration of the per-line loop. */
  function Step(st: LineState, c: char): LineState {
    if c == '"' then st.(inQuotes := !st.inQuotes)
    else if c == ',' && !st.inQuotes then LineState(st.cells + [Trim(st.current)], "", st.inQuotes)
    else st.(current := st.current + [c])
  }

  /** The scanner's state after reading all of `s`, starting outside quotes with nothing collected. */
  function Scan(s: string): LineState {
    if s == [] then LineState([], "", false) else Step(Scan(s[..|s| - 1]), s[|s| - 1])
  }

  /** The row a line parses to: the closed cells and the trimmed last cell. */
  function ParsedLine(line: string): seq<string> {
    var st := Scan(line);
    st.cells + [Trim(st.current)]
  }

  /** The number of double quotes in `s`. */
  function QuoteCount(s: string): nat {
    if s == [] then 0 else QuoteCount(s[..|s| - 1]) + (if s[|s| - 1] == '"' then 1 else 0)
  }

  /** The number of commas in `s` preceded by an even number of double quotes. */
  function UnquotedCommas(s: string): nat {
    if s == [] then 0
    else
      var init := s[..|s| - 1];
      UnquotedCommas(init) + (if s[|s| - 1] == ',' && QuoteCount(init) % 2 == 0 then 1 else 0)
  }

  /** Every cell as the parser emits it: no double quote, and no whitespace at either end. */
  predicate CleanCell(cell: string) {
    '"' !in cell && Trimmed(cell)
  }

  /** What the scanner knows after any prefix: one closed cell per unquoted comma, the flag is the quote parity, nothing holds a quote. */
  lemma {:induction false} ScanShape(s: string)
    ensures |Scan(s).cells| == UnquotedCommas(s)
    ensures Scan(s).inQuotes <==> QuoteCount(s) % 2 == 1
    ensures '"' !in Scan(s).current
    ensures forall cell :: cell in Scan(s).cells ==> CleanCell(cell)
  {
    if s != [] {
      var init := s[..|s| - 1];
      ScanShape(init);
      var st := Scan(init);
      if s[|s| - 1] == ',' && !st.inQuotes {
        TrimSpec(st.current);
      }
    }
  }

  /** A row has one cell more than the line has unquoted commas, so no row is empty. */
  lemma ParsedLineCellCount(line: string)
    ensures |ParsedLine(line)| == 1 + UnquotedCommas(line)
  {
    ScanShape(line);
  }

  /** No cell contains a double quote, and every cell is already trimmed. */
  lemma ParsedLineCellsClean(line: string)
    ensures forall cell :: cell in ParsedLine(line) ==> CleanCell(cell)
  {
    ScanShape(line);
    TrimSpec(Scan(line).current);
  }

  /** Every cell equals its own trim. */
  lemma ParsedCellsAreOwnTrim(line: string)
    ensures forall cell :: cell in ParsedLine(line) ==> Trim(cell) == cell
  {
    ParsedLineCellsClean(line);
    forall cell | cell in ParsedLine(line) ensures Trim(cell) == cell {
      TrimFixesTrimmed(cell);
    }
  }

  /** Every piece of a list, trimmed. */
  function TrimAll(pieces: seq<string>): (r: seq<string>)
    ensures |r| == |pieces|
    ensures forall k :: 0 <= k < |pieces| ==> r[k] == Trim(pieces[k])
  {
    seq(|pieces|, k requires 0 <= k < |pieces| => Trim(pieces[k]))
  }

  /** Trimming all pieces is trimming all but the last and then the last. */
  lemma TrimAllSnoc(pieces: seq<string>)
    requires pieces != []
    ensures TrimAll(pieces[..|pieces| - 1]) + [Trim(pieces[|pieces| - 1])] == TrimAll(pieces)
  {
  }

  /** Before any quote, the scanner has closed every comma-separated piece but the last, which is still open. */
  lemma {:induction false} ScanWithoutQuotes(s: string)
    requires '"' !in s
    ensures var p := Split(s, ',');
            Scan(s) == LineState(TrimAll(p[..|p| - 1]), p[|p| - 1], false)
  {
    if s != [] {
      var init, c := s[..|s| - 1], s[|s| - 1];
      assert s == init + [c];
      ScanWithoutQuotes(init);
      SplitSnoc(init, c, ',');
      var q := Split(init, ',');
      var n := |q|;
      var p := Split(s, ',');
      var st := Scan(init);
      assert st == LineState(TrimAll(q[..n - 1]), q[n - 1], false);
      assert Scan(s) == Step(st, c);
      assert p == Extend(q, c, ',');
      if c == ',' {
        assert p[..|p| - 1] == q;
        assert p[|p| - 1] == "";
        TrimAllSnoc(q);
        assert Step(st, c) == LineState(TrimAll(q), "", false);
      } else {
        assert c != '"';
        assert p[..|p| - 1] == q[..n - 1];
        assert p[|p| - 1] == q[n - 1] + [c];
        assert Step(st, c) == LineState(TrimAll(q[..n - 1]), q[n - 1] + [c], false);
      }
    }
  }

  /** A line with no double quote parses to its comma-separated pieces, each trimmed. */
  lemma ParsedLineWithoutQuotes(line: string)
    requires '"' !in line
    ensures ParsedLine(line) == TrimAll(Split(line, ','))
  {
    ScanWithoutQuotes(line);
    var p := Split(line, ',');
    assert TrimAll(p[..|p| - 1]) + [Trim(p[|p| - 1])] == TrimAll(p);
  }

  /** Inside an open quote, text without quotes (commas included) only extends the open cell. */
  lemma {:induction false} ScanInsideQuotes(a: string, b: string)
    requires Scan(a).inQuotes && '"' !in b
    ensures Scan(a + b) == Scan(a).(current := Scan(a).current + b)
    decreases |b|
  {
    if b != [] {
      var b', c := b[..|b| - 1], b[|b| - 1];
      assert a + b == (a + b') + [c];
      ScanInsideQuotes(a, b');
    } else {
      assert a + b == a;
    }
  }

  /** After an odd number of quotes, later commas on the line go into the current cell. */
  lemma OddQuotesAbsorbCommas(a: string, b: string)
    requires QuoteCount(a) % 2 == 1 && '"' !in b
    ensures ParsedLine(a + b) == Scan(a).cells + [Trim(Scan(a).current + b)]
    ensures |ParsedLine(a + b)| == |ParsedLine(a)|
  {
    ScanShape(a);
    ScanInsideQuotes(a, b);
  }

  /** The per-line loop of the parser. */
  method ParseLine(line: string) returns (row: seq<string>)
    ensures row == ParsedLine(line)
    ensures |row| == 1 + UnquotedCommas(line)
    ensures forall cell :: cell in row ==> CleanCell(cell)
  {
    var result: seq<string> := [];
    var current := "";
    var inQuotes := false;
    for i := 0 to |line|
      invariant LineState(result, current, inQuotes) == Scan(line[..i])
    {
      var c := line[i];
      assert line[..i + 1][..i] == line[..i];
      if c == '"' {
        inQuotes := !inQuotes;
      } else if c == ',' && !inQuotes {
        result := result + [Trim(current)];
        current := "";
      } else {
        current := current + [c];
      }
    }
    assert line[..|line|] == line;
    row := result + [Trim(current)];
    ParsedLineCellCount(line);
    ParsedLineCellsClean(line);
  }

  /** `lines.filter(line => line.trim() !== "")` */
  function NonBlank(lines: seq<string>): seq<string> {
    if lines == [] then []
    else if IsBlank(lines[0]) then NonBlank(lines[1..])
    else [lines[0]] + NonBlank(lines[1..])
  }

  /** The filter keeps exactly the non-blank lines, in their order in the text. */
  lemma {:induction false} NonBlankMembers(lines: seq<string>)
    ensures forall l :: l in NonBlank(lines) <==> l in lines && !IsBlank(l)
    ensures IsSubsequence(NonBlank(lines), lines)
    ensures |NonBlank(lines)| <= |lines|
  {
    if lines != [] {
      NonBlankMembers(lines[1..]);
      assert lines == [lines[0]] + lines[1..];
      var rest := NonBlank(lines[1..]);
      if IsBlank(lines[0]) && rest != [] {
        assert rest[0] in rest;
        assert rest[0] != lines[0];
      }
    }
  }

  /** The filter keeps every non-blank line as often as the text has it, and no blank line. */
  lemma {:induction false} NonBlankCount(lines: seq<string>)
    ensures forall l :: multiset(NonBlank(lines))[l] == if IsBlank(l) then 0 else multiset(lines)[l]
  {
    if lines != [] {
      NonBlankCount(lines[1..]);
      assert lines == [lines[0]] + lines[1..];
    }
  }

  lemma {:induction false} NonBlankAppend(a: seq<string>, b: seq<string>)
    ensures NonBlank(a + b) == NonBlank(a) + NonBlank(b)
  {
    if a != [] {
      assert (a + b)[1..] == a[1..] + b;
      NonBlankAppend(a[1..], b);
    } else {
      assert a + b == b;
    }
  }

  /** The non-blank lines of a text, in order. */
  function Lines(text: string): seq<string> {
    NonBlank(Split(text, '\n'))
  }

  /** The grid `parseCSV` returns: one row per non-blank line, in line order. */
  function Parse(text: string): (rows: seq<seq<string>>)
    ensures |rows| == |Lines(text)|
    ensures forall i :: 0 <= i < |rows| ==> rows[i] == ParsedLine(Lines(text)[i])
  {
    var lines := Lines(text);
    seq(|lines|, i requires 0 <= i < |lines| => ParsedLine(lines[i]))
  }

  /** The quote flag does not carry across a line feed: each line is parsed on its own. */
  lemma LinesParseIndependently(a: string, b: string)
    ensures Parse(a + "\n" + b) == Parse(a) + Parse(b)
  {
    SplitAppend(a, b, '\n');
    NonBlankAppend(Split(a, '\n'), Split(b, '\n'));
  }

  /**
   * `parseCSV`: total (every text yields a grid), one row per non-blank line in
   * line order, and every row non-empty with clean cells.
   */
  method ParseCsv(csvText: string) returns (rows: seq<seq<string>>)
    ensures rows == Parse(csvText)
    ensures |rows| == |Lines(csvText)|
    ensures forall i :: 0 <= i < |rows| ==> |rows[i]| == 1 + UnquotedCommas(Lines(csvText)[i])
    ensures forall row, cell :: row in rows && cell in row ==> CleanCell(cell)
  {
    var lines := Lines(csvText);
    rows := [];
    for i := 0 to |lines|
      invariant |rows| == i
      invariant forall j :: 0 <= j < i ==> rows[j] == ParsedLine(lines[j])
      invariant forall j :: 0 <= j < i ==> |rows[j]| == 1 + UnquotedCommas(lines[j])
      invariant forall row, cell :: row in rows && cell in row ==> CleanCell(cell)
    {
      var row := ParseLine(lines[i]);
      rows := rows + [row];
    }
  }
}
