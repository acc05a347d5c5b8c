/** The CSV writer of the Python bindings and the CSV reader of the report views. */
module Csv {
  import opened Text
  import opened Documents

  // ---------------------------------------------------------------- writing

  predicate Special(c: char) { c == ',' || c == '"' || c == '\n' || c == '\r' }

  predicate NeedsQuotes(cell: string) { exists i :: 0 <= i < |cell| && Special(cell[i]) }

  function DoubleQuotes(s: string): string {
    if s == "" then "" else (if s[0] == '"' then "\"\"" else [s[0]]) + DoubleQuotes(s[1..])
  }

  /** `csv_escape` */
  function Escape(cell: string): string {
    if NeedsQuotes(cell) then "\"" + DoubleQuotes(cell) + "\"" else cell
  }

  lemma {:induction false} DoublingGrows(s: string)
    ensures |DoubleQuotes(s)| >= |s|
  {
    if s != "" {
      DoublingGrows(s[1..]);
    }
  }

  /** A cell is written as it is exactly when it has no comma, quote or line end, and between quotes else. */
  lemma QuotedExactlyWhen(cell: string)
    ensures Escape(cell) == cell <==> ',' !in cell && '"' !in cell && '\n' !in cell && '\r' !in cell
    ensures Escape(cell) != cell ==> Escape(cell) == "\"" + DoubleQuotes(cell) + "\""
  {
    hide DoubleQuotes;
    DoublingGrows(cell);
    assert NeedsQuotes(cell) ==> |Escape(cell)| > |cell|;
    if NeedsQuotes(cell) {
      var i :| 0 <= i < |cell| && Special(cell[i]);
      assert cell[i] in cell;
    }
  }

  function Escaped(row: seq<string>): (e: seq<string>)
    ensures |e| == |row| && forall i :: 0 <= i < |row| ==> e[i] == Escape(row[i])
  {
    seq(|row|, i requires 0 <= i < |row| => Escape(row[i]))
  }

  function LineOf(row: seq<string>): string { Join(Escaped(row), ',') }

  type Table = seq<seq<string>>

  function TableText(table: Table): string {
    if table == [] then "" else LineOf(table[0]) + "\n" + TableText(table[1..])
  }

  /** `csv_value`; lists and mappings are written as JSON by `toText`. */
  function CellText(v: Json, toText: Json -> string): string {
    match v
    case Null => ""
    case Str(s) => s
    case Bool(b) => if b then "true" else "false"
    case Number(text) => text
    case _ => toText(v)
  }

  /** A row that is no mapping, or lacks a column, has empty cells there. */
  function CellsOf(row: Json, columns: seq<string>, toText: Json -> string): (cells: seq<string>)
    ensures |cells| == |columns|
  {
    seq(|columns|, i requires 0 <= i < |columns| =>
      CellText(if row.Obj? && columns[i] in row.fields then row.fields[columns[i]] else Null, toText))
  }

  function TableOf(rows: seq<Json>, columns: seq<string>, toText: Json -> string): (table: Table)
    ensures |table| == |rows| + 1
  {
    [columns] + seq(|rows|, i requires 0 <= i < |rows| => CellsOf(rows[i], columns, toText))
  }

  lemma {:induction false} TextAppends(table: Table, row: seq<string>)
    ensures TableText(table + [row]) == TableText(table) + (LineOf(row) + "\n")
  {
    if table != [] {
      assert (table + [row])[1..] == table[1..] + [row];
      TextAppends(table[1..], row);
    } else {
      assert table + [row] == [row] && TableText([row][1..]) == "";
    }
  }

  /** The header line, then one line per row. */
  method WriteCsv(rows: seq<Json>, columns: seq<string>, toText: Json -> string) returns (file: string)
    ensures file == TableText(TableOf(rows, columns, toText))
  {
    hide LineOf, CellsOf, TableText;
    var table := TableOf(rows, columns, toText);
    file := LineOf(columns) + "\n";
    OneLine(columns);
    var i := 0;
    while i < |rows|
      invariant 0 <= i <= |rows|
      invariant file == TableText(table[..i + 1])
    {
      TextAppends(table[..i + 1], table[i + 1]);
      assert table[..i + 2] == table[..i + 1] + [table[i + 1]];
      file := file + (LineOf(CellsOf(rows[i], columns, toText)) + "\n");
      i := i + 1;
    }
    assert table[..i + 1] == table;
  }

  lemma OneLine(row: seq<string>)
    ensures TableText([row]) == LineOf(row) + "\n"
  {
    TextAppends([], row);
    assert [] + [row] == [row] && TableText([]) == "";
  }

  // ---------------------------------------------------------------- reading

  /** `str::lines`: a carriage return right before the line feed goes too. */
  function Lines(text: string): seq<string>
    decreases |text|
  {
    if text == "" then []
    else
      var i := IndexOf(text, '\n');
      if i == |text| then [text]
      else [if i > 0 && text[i - 1] == '\r' then text[..i - 1] else text[..i]] + Lines(text[i + 1..])
  }

  /** The reader with `cells` done, `current` begun and `line` still to read. */
  function ParseFrom(line: string, cells: seq<string>, current: string, quoted: bool): seq<string>
    decreases |line|
  {
    if line == "" then cells + [current]
    else if line[0] == '"' && quoted && |line| > 1 && line[1] == '"' then
      ParseFrom(line[2..], cells, current + ['"'], quoted)
    else if line[0] == '"' then ParseFrom(line[1..], cells, current, !quoted)
    else if line[0] == ',' && !quoted then ParseFrom(line[1..], cells + [current], "", quoted)
    else ParseFrom(line[1..], cells, current + [line[0]], quoted)
  }

  method ParseCsvLine(line: string) returns (cells: seq<string>)
    ensures cells == ParseFrom(line, [], "", false)
  {
    cells := [];
    var current := "";
    var quoted := false;
    var i := 0;
    while i < |line|
      invariant 0 <= i <= |line|
      invariant ParseFrom(line[i..], cells, current, quoted) == ParseFrom(line, [], "", false)
    {
      var ch := line[i];
      assert line[i..][1..] == line[i + 1..];
      i := i + 1;
      if ch == '"' && quoted && i < |line| && line[i] == '"' {
        current := current + ['"'];
        assert line[i - 1..][2..] == line[i + 1..];
        i := i + 1;
      } else if ch == '"' {
        quoted := !quoted;
      } else if ch == ',' && !quoted {
        cells := cells + [current];
        current := "";
      } else {
        current := current + [ch];
      }
    }
    cells := cells + [current];
  }

  function ParsedLines(lines: seq<string>): (table: Table)
    ensures |table| == |lines|
    ensures forall i :: 0 <= i < |lines| ==> table[i] == ParseFrom(lines[i], [], "", false)
  {
    seq(|lines|, i requires 0 <= i < |lines| => ParseFrom(lines[i], [], "", false))
  }

  /** `parse_csv_rows` */
  function ParseRows(text: string): Table { ParsedLines(Lines(text)) }

  // ---------------------------------------------------------------- one line comes back

  lemma {:induction false} PlainCellReads(cell: string, rest: string, cells: seq<string>, current: string)
    requires forall i :: 0 <= i < |cell| ==> cell[i] != ',' && cell[i] != '"'
    ensures ParseFrom(cell + rest, cells, current, false) == ParseFrom(rest, cells, current + cell, false)
    decreases |cell|
  {
    if cell == "" {
      assert cell + rest == rest && current + cell == current;
    } else {
      assert (cell + rest)[1..] == cell[1..] + rest;
      PlainCellReads(cell[1..], rest, cells, current + [cell[0]]);
      assert current + [cell[0]] + cell[1..] == current + cell;
    }
  }

  /** Inside quotes every character of the cell is read back up to the closing quote. */
  lemma {:induction false} QuotedCellReads(cell: string, rest: string, cells: seq<string>, current: string)
    requires rest == "" || rest[0] != '"'
    ensures ParseFrom(DoubleQuotes(cell) + "\"" + rest, cells, current, true)
         == ParseFrom(rest, cells, current + cell, false)
    decreases |cell|
  {
    var text := DoubleQuotes(cell) + "\"" + rest;
    if cell == "" {
      assert text == "\"" + rest && text[1..] == rest && current + cell == current;
    } else {
      var tail := DoubleQuotes(cell[1..]) + "\"" + rest;
      QuotedCellReads(cell[1..], rest, cells, current + [cell[0]]);
      assert current + [cell[0]] + cell[1..] == current + cell;
      if cell[0] == '"' {
        assert text == "\"\"" + tail && text[2..] == tail;
      } else {
        assert text == [cell[0]] + tail && text[1..] == tail;
      }
    }
  }

  lemma EscapedCellReads(cell: string, rest: string, cells: seq<string>)
    requires rest == "" || rest[0] == ','
    ensures ParseFrom(Escape(cell) + rest, cells, "", false) == ParseFrom(rest, cells, cell, false)
  {
    hide ParseFrom, DoubleQuotes, NeedsQuotes;
    assert "" + cell == cell;
    if NeedsQuotes(cell) {
      var text := Escape(cell) + rest;
      var body := DoubleQuotes(cell) + "\"" + rest;
      assert text == "\"" + body;
      OpenQuote(body, cells);
      QuotedCellReads(cell, rest, cells, "");
    } else {
      PlainIsPlain(cell);
      PlainCellReads(cell, rest, cells, "");
    }
  }

  lemma PlainIsPlain(cell: string)
    requires !NeedsQuotes(cell)
    ensures forall i :: 0 <= i < |cell| ==> !Special(cell[i])
  {
  }

  lemma OpenQuote(body: string, cells: seq<string>)
    ensures ParseFrom("\"" + body, cells, "", false) == ParseFrom(body, cells, "", true)
  {
    assert ("\"" + body)[1..] == body;
  }

  lemma {:induction false} LineReads(row: seq<string>, cells: seq<string>)
    requires row != []
    ensures ParseFrom(LineOf(row), cells, "", false) == cells + row
    decreases |row|
  {
    if |row| == 1 {
      EscapedCellReads(row[0], "", cells);
      assert LineOf(row) == Escape(row[0]) + "";
      assert cells + [row[0]] == cells + row;
    } else {
      var tail := "," + LineOf(row[1..]);
      assert Escaped(row)[1..] == Escaped(row[1..]);
      assert LineOf(row) == Escape(row[0]) + tail;
      EscapedCellReads(row[0], tail, cells);
      assert tail[1..] == LineOf(row[1..]);
      LineReads(row[1..], cells + [row[0]]);
      assert cells + [row[0]] + row[1..] == cells + row;
    }
  }

  // ---------------------------------------------------------------- the lines come back

  function LineFeeds(s: string): nat {
    if s == "" then 0 else (if s[0] == '\n' then 1 else 0) + LineFeeds(s[1..])
  }

  lemma {:induction false} LineFeedsAdd(a: string, b: string)
    ensures LineFeeds(a + b) == LineFeeds(a) + LineFeeds(b)
  {
    if a == "" {
      assert a + b == b;
    } else {
      assert (a + b)[1..] == a[1..] + b;
      LineFeedsAdd(a[1..], b);
    }
  }

  lemma {:induction false} LineFeedsCount(s: string)
    ensures LineFeeds(s) > 0 <==> '\n' in s
  {
    if s != "" {
      LineFeedsCount(s[1..]);
      assert s == [s[0]] + s[1..];
    }
  }

  lemma FirstFeed(text: string)
    requires IndexOf(text, '\n') < |text|
    ensures LineFeeds(text) == 1 + LineFeeds(text[IndexOf(text, '\n') + 1..])
  {
    hide IndexOf;
    var i := IndexOf(text, '\n');
    LineFeedsCount(text[..i]);
    LineFeedsAdd(text[..i], text[i..]);
    assert text == text[..i] + text[i..];
    assert text[i..][1..] == text[i + 1..];
  }

  /** A text that is empty or ends with a line feed has one line per line feed. */
  lemma {:induction false} LinesCount(text: string)
    requires text == "" || text[|text| - 1] == '\n'
    ensures |Lines(text)| == LineFeeds(text)
    decreases |text|
  {
    hide IndexOf;
    if text != "" {
      var i := IndexOf(text, '\n');
      assert text[|text| - 1] in text;
      assert i < |text|;
      FirstFeed(text);
      LinesCount(text[i + 1..]);
    }
  }

  lemma {:induction false} DoublingKeepsFeeds(s: string)
    ensures '\n' in DoubleQuotes(s) <==> '\n' in s
    ensures s == "" <==> DoubleQuotes(s) == ""
  {
    if s != "" {
      DoublingKeepsFeeds(s[1..]);
      assert s == [s[0]] + s[1..];
    }
  }

  lemma EscapeKeepsFeeds(cell: string)
    ensures '\n' in Escape(cell) <==> '\n' in cell
    ensures Escape(cell) != "" ==> Escape(cell)[|Escape(cell)| - 1] != '\r'
  {
    DoublingKeepsFeeds(cell);
    if NeedsQuotes(cell) {
      assert Escape(cell)[|Escape(cell)| - 1] == '"';
    } else {
      PlainIsPlain(cell);
    }
  }

  ghost predicate FeedFree(row: seq<string>) { forall i :: 0 <= i < |row| ==> '\n' !in row[i] }

  lemma {:induction false} LineFeedsOfLine(row: seq<string>)
    ensures '\n' in LineOf(row) <==> !FeedFree(row)
    ensures LineOf(row) != "" ==> LineOf(row)[|LineOf(row)| - 1] != '\r'
    decreases |row|
  {
    if row != [] {
      EscapeKeepsFeeds(row[0]);
      if |row| > 1 {
        LineFeedsOfLine(row[1..]);
        assert Escaped(row)[1..] == Escaped(row[1..]);
        assert LineOf(row) == Escape(row[0]) + [','] + LineOf(row[1..]);
        assert FeedFree(row) <==> '\n' !in row[0] && FeedFree(row[1..]) by {
          assert forall i :: 0 < i < |row| ==> row[i] == row[1..][i - 1];
        }
      }
    }
  }

  lemma FirstLineSplits(line: string, rest: string)
    requires '\n' !in line && (line != "" ==> line[|line| - 1] != '\r')
    ensures Lines(line + "\n" + rest) == [line] + Lines(rest)
  {
    var text := line + "\n" + rest;
    IndexOfFirst(line, '\n', rest);
    assert text[..|line|] == line && text[|line| + 1..] == rest;
  }

  lemma {:induction false} TextEnds(table: Table)
    ensures TableText(table) == "" || TableText(table)[|TableText(table)| - 1] == '\n'
    ensures LineFeeds(TableText(table)) >= |table|
    ensures (exists i :: 0 <= i < |table| && !FeedFree(table[i])) ==> LineFeeds(TableText(table)) > |table|
  {
    hide LineOf;
    if table != [] {
      TextEnds(table[1..]);
      var line := LineOf(table[0]);
      LineFeedsAdd(line + "\n", TableText(table[1..]));
      LineFeedsAdd(line, "\n");
      assert LineFeeds("\n") == 1;
      LineFeedsOfLine(table[0]);
      LineFeedsCount(line);
      if i :| 0 <= i < |table| && !FeedFree(table[i]) {
        assert i > 0 ==> table[i] == table[1..][i - 1];
      }
    }
  }

  ghost predicate Readable(table: Table) {
    forall i :: 0 <= i < |table| ==> table[i] != [] && FeedFree(table[i])
  }

  lemma {:induction false} ReadableComesBack(table: Table)
    requires Readable(table)
    ensures ParseRows(TableText(table)) == table
  {
    hide LineOf, ParseFrom;
    if table != [] {
      LineFeedsOfLine(table[0]);
      FirstLineSplits(LineOf(table[0]), TableText(table[1..]));
      LineReads(table[0], []);
      ReadableComesBack(table[1..]);
      assert Readable(table[1..]);
      assert [] + table[0] == table[0];
      assert table == [table[0]] + table[1..];
      ParsedSplits(LineOf(table[0]), Lines(TableText(table[1..])));
    }
  }

  lemma ParsedSplits(line: string, rest: seq<string>)
    ensures ParsedLines([line] + rest) == [ParseFrom(line, [], "", false)] + ParsedLines(rest)
  {
    hide ParseFrom;
  }

  lemma {:induction false} ParsedIsNonempty(line: string, cells: seq<string>, current: string, quoted: bool)
    ensures ParseFrom(line, cells, current, quoted) != []
    decreases |line|
  {
    if line != "" {
      if line[0] == '"' && quoted && |line| > 1 && line[1] == '"' {
        ParsedIsNonempty(line[2..], cells, current + ['"'], quoted);
      } else if line[0] == '"' {
        ParsedIsNonempty(line[1..], cells, current, !quoted);
      } else if line[0] == ',' && !quoted {
        ParsedIsNonempty(line[1..], cells + [current], "", quoted);
      } else {
        ParsedIsNonempty(line[1..], cells, current + [line[0]], quoted);
      }
    }
  }

  /** A written table reads back as itself exactly when no row is without cells and no cell holds a
      line feed; commas, quotes, carriage returns and empty cells are no obstacle. */
  lemma TableRoundTrip(table: Table)
    ensures ParseRows(TableText(table)) == table <==> Readable(table)
  {
    hide TableText, Lines, LineFeeds, ParseFrom, FeedFree;
    if Readable(table) {
      ReadableComesBack(table);
    } else {
      TextEnds(table);
      LinesCount(TableText(table));
      if !(exists i :: 0 <= i < |table| && !FeedFree(table[i])) {
        var i :| 0 <= i < |table| && table[i] == [];
        if ParseRows(TableText(table)) == table {
          ParsedIsNonempty(Lines(TableText(table))[i], [], "", false);
        }
      }
    }
  }

  /** A file of rows gives back header and cells exactly when there is a column and neither a column
      name nor a cell holds a line feed. */
  lemma FileRoundTrip(rows: seq<Json>, columns: seq<string>, toText: Json -> string)
    ensures ParseRows(TableText(TableOf(rows, columns, toText))) == TableOf(rows, columns, toText) <==>
            columns != [] && FeedFree(columns)
            && forall i :: 0 <= i < |rows| ==> FeedFree(CellsOf(rows[i], columns, toText))
  {
    hide TableText, ParseRows, FeedFree, CellsOf;
    var table := TableOf(rows, columns, toText);
    TableRoundTrip(table);
    assert table[0] == columns;
    assert forall i :: 0 <= i < |rows| ==> table[i + 1] == CellsOf(rows[i], columns, toText);
    if Readable(table) {
      forall i | 0 <= i < |rows| ensures FeedFree(CellsOf(rows[i], columns, toText)) {
        assert FeedFree(table[i + 1]);
      }
    }
  }

  /** What a cell of the file read back shows: text as it is, numbers and truth values as in JSON, nothing for null
      or a missing field, and lists and mappings as `toText` writes them. */
  lemma CellReadsBack(rows: seq<Json>, columns: seq<string>, toText: Json -> string, r: nat, c: nat)
    requires r < |rows| && c < |columns| && FeedFree(columns)
    requires forall i :: 0 <= i < |rows| ==> FeedFree(CellsOf(rows[i], columns, toText))
    ensures var read := ParseRows(TableText(TableOf(rows, columns, toText)));
      && |read| == |rows| + 1 && read[0] == columns && |read[r + 1]| == |columns|
      && match Get(rows[r], [columns[c]])
         case None => read[r + 1][c] == ""
         case Some(v) =>
           && (v == Null ==> read[r + 1][c] == "")
           && (forall s :: v == Str(s) ==> read[r + 1][c] == s)
           && (forall n :: v == Number(n) ==> read[r + 1][c] == n)
           && (v == Bool(true) ==> read[r + 1][c] == "true") && (v == Bool(false) ==> read[r + 1][c] == "false")
           && (v.Arr? || v.Obj? ==> read[r + 1][c] == toText(v))
  {
    hide TableText, ParseRows, FeedFree;
    FileRoundTrip(rows, columns, toText);
    GetStep(rows[r], columns[c], []);
    assert [columns[c]] + [] == [columns[c]];
    assert TableOf(rows, columns, toText)[r + 1] == CellsOf(rows[r], columns, toText);
  }
}
