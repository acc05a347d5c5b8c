/** The table-driven wildcard matcher of `run/storage.rs` and `run/query.rs`, on bytes. */
module Glob {
  import opened FileSystem

  /** UTF-8, as `str::as_bytes` sees a text. */
  function Utf8Char(c: char): (b: seq<Byte>)
    ensures 1 <= |b| <= 4
    ensures |b| == 1 <==> c as int < 0x80
  {
    var n := c as int;
    if n < 0x80 then [n as Byte]
    else if n < 0x800 then [(0xC0 + n / 64) as Byte, (0x80 + n % 64) as Byte]
    else if n < 0x10000 then [(0xE0 + n / 4096) as Byte, (0x80 + n / 64 % 64) as Byte, (0x80 + n % 64) as Byte]
    else [(0xF0 + n / 262144 % 8) as Byte, (0x80 + n / 4096 % 64) as Byte, (0x80 + n / 64 % 64) as Byte,
          (0x80 + n % 64) as Byte]
  }

  function Utf8(s: string): (b: seq<Byte>)
    ensures |b| >= |s|
    ensures |b| == |s| <==> forall i :: 0 <= i < |s| ==> s[i] as int < 0x80
  {
    if s == "" then [] else Utf8Char(s[0]) + Utf8(s[1..])
  }

  const STAR: Byte := 42
  const QUESTION: Byte := 63

  // ---------------------------------------------------------------- what a pattern means

  function Flatten(pieces: seq<seq<Byte>>): seq<Byte> {
    if pieces == [] then [] else Flatten(pieces[..|pieces| - 1]) + pieces[|pieces| - 1]
  }

  /** `*` takes any bytes, `?` one byte, every other byte itself. */
  predicate Fits(b: Byte, piece: seq<Byte>) {
    b == STAR || (|piece| == 1 && (b == QUESTION || piece[0] == b))
  }

  ghost predicate Splits(pattern: seq<Byte>, value: seq<Byte>, pieces: seq<seq<Byte>>) {
    && |pieces| == |pattern|
    && Flatten(pieces) == value
    && forall i :: 0 <= i < |pattern| ==> Fits(pattern[i], pieces[i])
  }

  /** The value splits into one piece per pattern byte, each fitting its byte. */
  ghost predicate Matches(pattern: seq<Byte>, value: seq<Byte>) {
    exists pieces :: Splits(pattern, value, pieces)
  }

  lemma EmptyPattern(value: seq<Byte>)
    ensures Matches([], value) <==> value == []
  {
    if value == [] {
      assert Splits([], value, []);
    }
  }

  lemma AppendPiece(pattern: seq<Byte>, value: seq<Byte>, b: Byte, piece: seq<Byte>)
    requires Matches(pattern, value) && Fits(b, piece)
    ensures Matches(pattern + [b], value + piece)
  {
    var pieces :| Splits(pattern, value, pieces);
    var more := pieces + [piece];
    assert more[..|more| - 1] == pieces;
    assert Splits(pattern + [b], value + piece, more);
  }

  lemma LastPiece(pattern: seq<Byte>, value: seq<Byte>, b: Byte) returns (k: nat)
    requires Matches(pattern + [b], value)
    ensures k <= |value| && Matches(pattern, value[..k]) && Fits(b, value[k..])
  {
    var pieces :| Splits(pattern + [b], value, pieces);
    var n := |pattern|;
    var front := pieces[..n];
    k := |Flatten(front)|;
    assert value == Flatten(front) + pieces[n];
    assert value[..k] == Flatten(front) && value[k..] == pieces[n];
    forall i | 0 <= i < n ensures Fits(pattern[i], front[i]) {
      assert (pattern + [b])[i] == pattern[i];
    }
    assert Splits(pattern, value[..k], front);
    assert (pattern + [b])[n] == b;
  }

  /** The table's recurrence, cell by cell. */
  lemma Recurrence(pattern: seq<Byte>, b: Byte, value: seq<Byte>)
    ensures value == [] ==> (Matches(pattern + [b], []) <==> b == STAR && Matches(pattern, []))
    ensures value != [] ==>
      var front, last := value[..|value| - 1], value[|value| - 1];
      Matches(pattern + [b], value) <==>
        if b == STAR then Matches(pattern, value) || Matches(pattern + [b], front)
        else Matches(pattern, front) && (b == QUESTION || b == last)
  {
    if Matches(pattern + [b], value) {
      var k := LastPiece(pattern, value, b);
      if value == [] {
        assert value[..k] == [];
      } else if b == STAR {
        if k == |value| {
          assert value[..k] == value;
        } else {
          var front := value[..|value| - 1];
          AppendPiece(pattern, value[..k], b, front[k..]);
          assert value[..k] + front[k..] == front;
        }
      } else {
        assert k == |value| - 1;
      }
    }
    if b == STAR && Matches(pattern, value) {
      AppendPiece(pattern, value, b, []);
      assert value + [] == value;
    }
    if value != [] {
      var front, last := value[..|value| - 1], value[|value| - 1];
      assert value == front + [last];
      if b == STAR && Matches(pattern + [b], front) {
        var k := LastPiece(pattern, front, b);
        AppendPiece(pattern, front[..k], b, front[k..] + [last]);
        assert front[..k] + (front[k..] + [last]) == value;
      }
      if b != STAR && Matches(pattern, front) && (b == QUESTION || b == last) {
        AppendPiece(pattern, front, b, [last]);
      }
    }
  }

  // ---------------------------------------------------------------- the table

  /** What cell (r, c) must hold. */
  ghost predicate Cell(pattern: seq<Byte>, value: seq<Byte>, r: nat, c: nat)
    requires r <= |pattern| && c <= |value|
  {
    Matches(pattern[..r], value[..c])
  }

  lemma CellStep(pattern: seq<Byte>, value: seq<Byte>, r: nat, c: nat)
    requires 0 < r <= |pattern| && c <= |value|
    ensures c == 0 ==> (Cell(pattern, value, r, 0) <==> pattern[r - 1] == STAR && Cell(pattern, value, r - 1, 0))
    ensures c > 0 ==> (Cell(pattern, value, r, c) <==>
      if pattern[r - 1] == STAR then Cell(pattern, value, r - 1, c) || Cell(pattern, value, r, c - 1)
      else Cell(pattern, value, r - 1, c - 1) && (pattern[r - 1] == QUESTION || pattern[r - 1] == value[c - 1]))
  {
    hide Matches;
    assert pattern[..r] == pattern[..r - 1] + [pattern[r - 1]];
    Recurrence(pattern[..r - 1], pattern[r - 1], value[..c]);
    if c == 0 {
      assert value[..0] == [];
    } else {
      assert value[..c][..c - 1] == value[..c - 1];
    }
  }

  lemma TopRow(pattern: seq<Byte>, value: seq<Byte>, c: nat)
    requires c <= |value|
    ensures Cell(pattern, value, 0, c) <==> c == 0
  {
    EmptyPattern(value[..c]);
    assert pattern[..0] == [];
  }

  ghost predicate RowFilled(table: array2<bool>, pattern: seq<Byte>, value: seq<Byte>, r: nat)
    requires table.Length0 == |pattern| + 1 && table.Length1 == |value| + 1 && r <= |pattern|
    reads table
  {
    forall c :: 0 <= c <= |value| ==> (table[r, c] <==> Cell(pattern, value, r, c))
  }

  method FillFirstColumn(table: array2<bool>, pattern: seq<Byte>, value: seq<Byte>)
    requires table.Length0 == |pattern| + 1 && table.Length1 == |value| + 1
    requires forall r, c :: 0 <= r <= |pattern| && 0 <= c <= |value| ==> (table[r, c] <==> r == 0 && c == 0)
    modifies table
    ensures forall c :: 0 <= c <= |value| ==> (table[0, c] <==> c == 0)
    ensures forall r :: 0 <= r <= |pattern| ==> (table[r, 0] <==> Cell(pattern, value, r, 0))
  {
    hide Cell;
    TopRow(pattern, value, 0);
    var row := 1;
    while row <= |pattern|
      invariant 1 <= row <= |pattern| + 1
      invariant forall r :: 0 <= r < row ==> (table[r, 0] <==> Cell(pattern, value, r, 0))
      invariant forall r :: row <= r <= |pattern| ==> !table[r, 0]
      invariant forall c :: 0 <= c <= |value| ==> (table[0, c] <==> c == 0)
    {
      CellStep(pattern, value, row, 0);
      if pattern[row - 1] == STAR {
        table[row, 0] := table[row - 1, 0];
      }
      row := row + 1;
    }
  }

  method FillRow(table: array2<bool>, pattern: seq<Byte>, value: seq<Byte>, row: nat)
    requires table.Length0 == |pattern| + 1 && table.Length1 == |value| + 1 && 0 < row <= |pattern|
    requires RowFilled(table, pattern, value, row - 1)
    requires table[row, 0] <==> Cell(pattern, value, row, 0)
    modifies table
    ensures RowFilled(table, pattern, value, row)
    ensures forall r, c :: 0 <= r <= |pattern| && r != row && 0 <= c <= |value| ==> table[r, c] == old(table[r, c])
  {
    hide Cell;
    var col := 1;
    while col <= |value|
      invariant 1 <= col <= |value| + 1
      invariant forall c :: 0 <= c < col ==> (table[row, c] <==> Cell(pattern, value, row, c))
      invariant forall r, c :: 0 <= r <= |pattern| && r != row && 0 <= c <= |value| ==> table[r, c] == old(table[r, c])
    {
      CellStep(pattern, value, row, col);
      var b := pattern[row - 1];
      assert table[row - 1, col] == old(table[row - 1, col]) && table[row - 1, col - 1] == old(table[row - 1, col - 1]);
      table[row, col] :=
        if b == STAR then table[row - 1, col] || table[row, col - 1]
        else if b == QUESTION then table[row - 1, col - 1]
        else b == value[col - 1] && table[row - 1, col - 1];
      col := col + 1;
    }
  }

  /** `glob_match` and `wildcard_match`: the filled table decides the declarative meaning. */
  method GlobMatch(patternText: string, valueText: string) returns (matched: bool)
    ensures matched <==> Matches(Utf8(patternText), Utf8(valueText))
  {
    hide Cell;
    var pattern, value := Utf8(patternText), Utf8(valueText);
    var table := new bool[|pattern| + 1, |value| + 1]((r, c) => r == 0 && c == 0);
    FillFirstColumn(table, pattern, value);
    forall c | 0 <= c <= |value| ensures table[0, c] <==> Cell(pattern, value, 0, c) { TopRow(pattern, value, c); }
    var row := 1;
    while row <= |pattern|
      invariant 1 <= row <= |pattern| + 1
      invariant forall r :: 0 <= r <= |pattern| ==> (table[r, 0] <==> Cell(pattern, value, r, 0))
      invariant RowFilled(table, pattern, value, row - 1)
    {
      FillRow(table, pattern, value, row);
      row := row + 1;
    }
    matched := table[|pattern|, |value|];
    WholeCell(pattern, value);
  }

  lemma WholeCell(pattern: seq<Byte>, value: seq<Byte>)
    ensures Cell(pattern, value, |pattern|, |value|) <==> Matches(pattern, value)
  {
    assert pattern[..|pattern|] == pattern && value[..|value|] == value;
  }

  /** The file name matches one of the patterns. */
  ghost predicate MatchesAny(globs: seq<string>, name: string) {
    exists i :: 0 <= i < |globs| && Matches(Utf8(globs[i]), Utf8(name))
  }

  lemma AnyOfThem(globs: seq<string>, name: string)
    ensures MatchesAny(globs, name) <==> exists g :: g in globs && Matches(Utf8(g), Utf8(name))
  {
    hide Matches, Utf8;
    if g :| g in globs && Matches(Utf8(g), Utf8(name)) {
      var i :| 0 <= i < |globs| && globs[i] == g;
    }
  }

  method FileNameMatchesAny(globs: seq<string>, name: string) returns (matched: bool)
    ensures matched <==> MatchesAny(globs, name)
    ensures matched <==> exists g :: g in globs && Matches(Utf8(g), Utf8(name))
  {
    hide Matches;
    AnyOfThem(globs, name);
    var i := 0;
    while i < |globs|
      invariant 0 <= i <= |globs|
      invariant forall j :: 0 <= j < i ==> !Matches(Utf8(globs[j]), Utf8(name))
    {
      var one := GlobMatch(globs[i], name);
      if one {
        return true;
      }
      i := i + 1;
    }
    matched := false;
  }

  // ---------------------------------------------------------------- what patterns are for

  /** A literal ending after a star: exactly the values that end so. */
  lemma {:induction false} StarThenLiteral(literal: seq<Byte>, value: seq<Byte>)
    requires STAR !in literal && QUESTION !in literal
    ensures Matches([STAR] + literal, value) <==>
            |literal| <= |value| && value[|value| - |literal|..] == literal
    decreases |literal|
  {
    if literal == [] {
      assert [STAR] + literal == [STAR] && value[|value|..] == literal;
      StarMatchesAll(value);
    } else {
      var front, last := literal[..|literal| - 1], literal[|literal| - 1];
      assert last in literal;
      assert forall b :: b in front ==> b in literal;
      assert [STAR] + literal == ([STAR] + front) + [last];
      Recurrence([STAR] + front, last, value);
      if value != [] {
        var shorter := value[..|value| - 1];
        StarThenLiteral(front, shorter);
        if |literal| <= |value| {
          EndsAlike(literal, value);
        }
      }
    }
  }

  lemma EndsAlike(literal: seq<Byte>, value: seq<Byte>)
    requires 0 < |literal| <= |value|
    ensures var front, shorter := literal[..|literal| - 1], value[..|value| - 1];
      value[|value| - |literal|..] == literal <==>
      (shorter[|shorter| - |front|..] == front && value[|value| - 1] == literal[|literal| - 1])
  {
    var k := |value| - |literal|;
    var shorter := value[..|value| - 1];
    assert value[k..] == shorter[k..] + [value[|value| - 1]];
    assert literal == literal[..|literal| - 1] + [literal[|literal| - 1]];
    assert value[k..][..|literal| - 1] == shorter[k..];
  }

  lemma {:induction false} StarMatchesAll(value: seq<Byte>)
    ensures Matches([STAR], value)
  {
    assert [] + [STAR] == [STAR];
    Recurrence([], STAR, value);
    EmptyPattern([]);
    if value != [] {
      StarMatchesAll(value[..|value| - 1]);
    }
  }

  /** A pattern without wildcards matches itself and nothing else. */
  lemma {:induction false} LiteralMatchesItself(pattern: seq<Byte>, value: seq<Byte>)
    requires STAR !in pattern && QUESTION !in pattern
    ensures Matches(pattern, value) <==> value == pattern
  {
    if pattern == [] {
      EmptyPattern(value);
    } else {
      var front, last := pattern[..|pattern| - 1], pattern[|pattern| - 1];
      assert pattern == front + [last] && last in pattern;
      assert forall b :: b in front ==> b in pattern;
      Recurrence(front, last, value);
      if value != [] {
        LiteralMatchesItself(front, value[..|value| - 1]);
        assert value == value[..|value| - 1] + [value[|value| - 1]];
      }
    }
  }

  /** A question mark takes one byte. */
  lemma QuestionTakesOne(pattern: seq<Byte>, value: seq<Byte>)
    ensures Matches(pattern + [QUESTION], value) <==> value != [] && Matches(pattern, value[..|value| - 1])
  {
    Recurrence(pattern, QUESTION, value);
  }
}
