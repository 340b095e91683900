/**
 The CSV reader on well-formed files. A file written from a table of plain cells gives back the column of
 serial numbers, wherever that column stands and however the file is cut on its way.
 */
module CsvTables {
  import opened Text
  import opened CsvUpload

  // ---------------------------------------------------------------- writing a table

  /** A cell without separators, and without white space at its ends. */
  predicate Plain(cell: string) {
    && ',' !in cell && '\n' !in cell && '\r' !in cell
    && (cell != "" ==> !IsSpace(cell[0]) && !IsSpace(cell[|cell| - 1]))
  }

  predicate PlainCells(row: seq<string>) {
    row != [] && forall i :: 0 <= i < |row| ==> Plain(row[i])
  }

  /** A row that is not a blank line. */
  predicate PlainRow(row: seq<string>) {
    PlainCells(row) && (|row| > 1 || row[0] != "")
  }

  predicate PlainRows(rows: seq<seq<string>>) {
    forall i :: 0 <= i < |rows| ==> PlainRow(rows[i])
  }

  function RowText(row: seq<string>): string {
    if row == [] then "" else if |row| == 1 then row[0] else row[0] + COMMA + RowText(row[1..])
  }

  /** The file: every row ends with a newline. */
  function TableText(rows: seq<seq<string>>): string {
    if rows == [] then "" else RowText(rows[0]) + NEWLINE + TableText(rows[1..])
  }

  // ---------------------------------------------------------------- what should come out

  /** The first serial heading decides; without one it is the first column. */
  predicate IsSerialColumn(headers: seq<string>, c: nat) {
    || (c < |headers| && IsSerialHeader(headers[c]) && forall i :: 0 <= i < c ==> !IsSerialHeader(headers[i]))
    || (c == 0 && forall i :: 0 <= i < |headers| ==> !IsSerialHeader(headers[i]))
  }

  /** The cells of a column from top to bottom; short rows give their first cell, empty cells nothing. */
  function Column(rows: seq<seq<string>>, c: nat): seq<string> {
    if rows == [] then []
    else
      var n := |rows| - 1;
      var cell := if c < |rows[n]| then rows[n][c] else if rows[n] != [] then rows[n][0] else "";
      Column(rows[..n], c) + if cell == "" then [] else [cell]
  }

  // ---------------------------------------------------------------- lines and cells survive

  lemma {:induction false} RowIsOneLine(row: seq<string>)
    requires PlainCells(row)
    ensures '\n' !in RowText(row) && '\r' !in RowText(row)
  {
    if |row| > 1 {
      RowIsOneLine(row[1..]);
    }
  }

  lemma {:induction false} RowEndsPlain(row: seq<string>)
    requires PlainCells(row)
    ensures RowText(row) != "" ==> !IsSpace(RowText(row)[0]) && !IsSpace(RowText(row)[|RowText(row)| - 1])
    ensures |row| > 1 ==> RowText(row) != ""
  {
    if |row| > 1 {
      var rest := RowText(row[1..]);
      RowEndsPlain(row[1..]);
      assert RowText(row)[0] == if row[0] == "" then ',' else row[0][0];
      assert RowText(row)[|RowText(row)| - 1] == if rest == "" then ',' else rest[|rest| - 1];
    }
  }

  lemma {:induction false} RowSplits(row: seq<string>)
    requires PlainCells(row)
    ensures Split(RowText(row), COMMA) == row
  {
    if |row| == 1 {
      SplitComma(row[0], "");
    } else {
      RowSplits(row[1..]);
      SplitComma(row[0], RowText(row[1..]));
      assert row == [row[0]] + row[1..];
    }
  }

  /** The reader sees the row as it was written. */
  lemma {:induction false} RowIsUnchanged(row: seq<string>)
    requires PlainRow(row)
    ensures Trim(RowText(row)) == RowText(row) != "" && Without(RowText(row), '\r') == RowText(row)
  {
    RowIsOneLine(row);
    RowEndsPlain(row);
    SameWhenTrimmed(RowText(row));
    WithoutIsIdentityIff(RowText(row));
  }

  lemma {:induction false} CellIsUnchanged(row: seq<string>, c: nat)
    requires PlainRow(row)
    ensures Cell(RowText(row), c) == if c < |row| then row[c] else row[0]
  {
    RowSplits(row);
    var cell := if c < |row| then row[c] else row[0];
    assert Plain(cell);
    if cell != "" {
      SameWhenTrimmed(cell);
    }
  }

  lemma {:induction false} SplitAfterRow(line: string, rest: string)
    requires '\n' !in line
    ensures Split(line + NEWLINE + rest, NEWLINE) == [line] + Split(rest, NEWLINE)
  {
    var s := line + NEWLINE + rest;
    forall j | 0 <= j < |line| ensures !StartsWith(s[j..], NEWLINE) {
      assert s[j..][..1] == [line[j]];
    }
    assert s[|line|..][..1] == NEWLINE;
    FindIsLeftmost(s, NEWLINE, |line|);
    SplitFound(s, NEWLINE);
    assert s[..|line|] == line && s[|line| + 1..] == rest;
  }

  function Lines(rows: seq<seq<string>>): seq<string> {
    seq(|rows|, i requires 0 <= i < |rows| => RowText(rows[i]))
  }

  lemma {:induction false} TableSplits(rows: seq<seq<string>>)
    requires PlainRows(rows)
    ensures Split(TableText(rows), NEWLINE) == Lines(rows) + [""]
  {
    if rows != [] {
      RowIsOneLine(rows[0]);
      SplitAfterRow(RowText(rows[0]), TableText(rows[1..]));
      TableSplits(rows[1..]);
      assert Lines(rows) == [RowText(rows[0])] + Lines(rows[1..]);
    }
  }

  // ---------------------------------------------------------------- the column comes back

  lemma {:induction false} HeaderFound(headers: seq<string>, c: nat)
    requires IsSerialColumn(headers, c)
    ensures SerialColumn(headers) == c
  {
    FirstHeaderIsFirst(headers);
  }

  lemma {:induction false} FirstHeaderIsFirst(headers: seq<string>)
    ensures forall i :: 0 <= i < FirstHeader(headers) ==> !IsSerialHeader(headers[i])
    ensures FirstHeader(headers) < |headers| ==> IsSerialHeader(headers[FirstHeader(headers)])
  {
    if headers != [] && !IsSerialHeader(headers[0]) {
      FirstHeaderIsFirst(headers[1..]);
      forall i | 0 <= i < FirstHeader(headers) ensures !IsSerialHeader(headers[i]) {
        assert i > 0 ==> headers[i] == headers[1..][i - 1];
      }
    }
  }

  lemma {:induction false} RowsAreRead(headers: seq<string>, rows: seq<seq<string>>, c: nat)
    requires PlainRow(headers) && IsSerialColumn(headers, c) && PlainRows(rows)
    ensures ReadLines(NewReader, Lines([headers] + rows)) == Reader(true, c, Column(rows, c))
  {
    var lines := Lines([headers] + rows);
    if rows == [] {
      HeaderIsRead(headers, c);
      assert lines == [RowText(headers)];
    } else {
      var n := |rows| - 1;
      RowsAreRead(headers, rows[..n], c);
      assert lines[..|lines| - 1] == Lines([headers] + rows[..n]);
      RowIsUnchanged(rows[n]);
      CellIsUnchanged(rows[n], c);
    }
  }

  lemma {:induction false} HeaderIsRead(headers: seq<string>, c: nat)
    requires PlainRow(headers) && IsSerialColumn(headers, c)
    ensures ReadLines(NewReader, [RowText(headers)]) == Reader(true, c, [])
  {
    var lines := [RowText(headers)];
    assert lines[..0] == [];
    assert ReadLines(NewReader, lines[..0]) == NewReader;
    RowIsUnchanged(headers);
    RowSplits(headers);
    HeaderFound(headers, c);
  }

  /** A table written as a file and uploaded in chunks of any size gives back its serial column, in order. */
  lemma {:induction false} TableRoundTrip(headers: seq<string>, rows: seq<seq<string>>, c: nat, chunks: seq<string>)
    requires PlainRow(headers) && IsSerialColumn(headers, c) && PlainRows(rows)
    requires Concat(chunks) == TableText([headers] + rows)
    ensures Upload(chunks) == Column(rows, c)
  {
    var table := [headers] + rows;
    ChunkingDoesNotMatter(chunks);
    TableSplits(table);
    assert Init(Lines(table) + [""]) == Lines(table) && Last(Lines(table) + [""]) == "";
    RowsAreRead(headers, rows, c);
  }

  lemma {:induction false} LowerCaseStays(s: string)
    requires forall i :: 0 <= i < |s| ==> !('A' <= s[i] <= 'Z')
    ensures Lower(s) == s
  {
    if s != [] {
      LowerCaseStays(s[1..]);
    }
  }

  /** A heading in lower case is a serial heading if and only if it is one of the three known ones. */
  lemma {:induction false} KnownHeadings(h: string)
    requires h != "" && !IsSpace(h[0]) && !IsSpace(h[|h| - 1]) && forall i :: 0 <= i < |h| ==> !('A' <= h[i] <= 'Z')
    ensures IsSerialHeader(h) <==> h in {"serialnumber", "serial_number", "serial"}
  {
    SameWhenTrimmed(h);
    LowerCaseStays(h);
  }

  predicate SameButCapitals(a: char, b: char) {
    || a == b
    || ('A' <= a <= 'Z' && b == a - 'A' + 'a')
    || ('A' <= b <= 'Z' && a == b - 'A' + 'a')
  }

  lemma {:induction false} LowerForgetsCapitals(g: string, h: string)
    requires |g| == |h| && forall i :: 0 <= i < |g| ==> SameButCapitals(g[i], h[i])
    ensures Lower(g) == Lower(h)
  {
    if g != [] {
      assert SameButCapitals(g[0], h[0]);
      LowerForgetsCapitals(g[1..], h[1..]);
    }
  }

  /** Capitals in a heading do not matter. */
  lemma {:induction false} HeadingInCapitals(g: string, h: string)
    requires |g| == |h| > 0 && forall i :: 0 <= i < |g| ==> SameButCapitals(g[i], h[i])
    requires !IsSpace(g[0]) && !IsSpace(g[|g| - 1]) && !IsSpace(h[0]) && !IsSpace(h[|h| - 1])
    ensures IsSerialHeader(g) <==> IsSerialHeader(h)
  {
    SameWhenTrimmed(g);
    SameWhenTrimmed(h);
    LowerForgetsCapitals(g, h);
  }
}
