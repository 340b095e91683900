/**
 The streamed CSV reader of the bulk import: it collects serial numbers line by line from chunks of text,
 taking the first non-empty line as the header.
 */
module CsvUpload {
  import opened Text
  import ChunkedDecoding
  import Utf8

  const NEWLINE := "\n"
  const COMMA := ","

  datatype Reader = Reader(headerSeen: bool, column: nat, serials: seq<string>)

  const NewReader := Reader(false, 0, [])

  function Lower(s: string): string {
    if s == [] then [] else [if 'A' <= s[0] <= 'Z' then s[0] - 'A' + 'a' else s[0]] + Lower(s[1..])
  }

  predicate IsSerialHeader(h: string) {
    var name := Lower(Trim(h));
    name == "serialnumber" || name == "serial_number" || name == "serial"
  }

  /** The first heading for serial numbers, or the number of headings if there is none. */
  function FirstHeader(headers: seq<string>): (i: nat)
    ensures i <= |headers|
  {
    if headers == [] || IsSerialHeader(headers[0]) then 0 else 1 + FirstHeader(headers[1..])
  }

  function SerialColumn(headers: seq<string>): nat {
    var i := FirstHeader(headers);
    if i < |headers| then i else 0
  }

  /** The cell of a row that holds the serial; short rows fall back to their first cell. */
  function Cell(row: string, column: nat): string {
    var cols := Split(row, COMMA);
    Trim(if column < |cols| then cols[column] else cols[0])
  }

  function Push(r: Reader, serial: string): Reader {
    if serial == "" then r else r.(serials := r.serials + [serial])
  }

  function ReadLine(r: Reader, line: string): Reader {
    var trimmed := Without(Trim(line), '\r');
    if trimmed == "" then r
    else if !r.headerSeen then r.(headerSeen := true, column := SerialColumn(Split(trimmed, COMMA)))
    else Push(r, Cell(trimmed, r.column))
  }

  function ReadLines(r: Reader, lines: seq<string>): Reader
    decreases |lines|
  {
    if lines == [] then r else ReadLine(ReadLines(r, lines[..|lines| - 1]), lines[|lines| - 1])
  }

  /** The text after the last newline counts as a row, but never as the header. */
  function Finish(r: Reader, buffer: string): Reader {
    if Trim(buffer) != "" && r.headerSeen then Push(r, Cell(Trim(buffer), r.column)) else r
  }

  /** Reading the whole text at once. */
  function SerialsOf(text: string): seq<string> {
    var lines := Split(text, NEWLINE);
    Finish(ReadLines(NewReader, Init(lines)), Last(lines)).serials
  }

  // ---------------------------------------------------------------- chunking does not matter

  function ReadChunks(r: Reader, buffer: string, chunks: seq<string>): (Reader, string)
    decreases |chunks|
  {
    if chunks == [] then (r, buffer)
    else
      var parts := Split(buffer + chunks[0], NEWLINE);
      ReadChunks(ReadLines(r, Init(parts)), Last(parts), chunks[1..])
  }

  function Upload(chunks: seq<string>): seq<string> {
    var (r, buffer) := ReadChunks(NewReader, "", chunks);
    Finish(r, buffer).serials
  }

  lemma {:induction false} ReadLinesConcat(r: Reader, a: seq<string>, b: seq<string>)
    ensures ReadLines(r, a + b) == ReadLines(ReadLines(r, a), b)
    decreases |b|
  {
    if b == [] {
      assert a + b == a;
    } else {
      var n := |b| - 1;
      assert (a + b)[..|a + b| - 1] == a + b[..n];
      ReadLinesConcat(r, a, b[..n]);
    }
  }

  lemma {:induction false} ChunksFeedLines(r: Reader, buffer: string, chunks: seq<string>)
    ensures ReadChunks(r, buffer, chunks) ==
            (ReadLines(r, Feed(buffer, chunks, NEWLINE).0), Feed(buffer, chunks, NEWLINE).1)
    decreases |chunks|
  {
    if chunks != [] {
      var parts := Split(buffer + chunks[0], NEWLINE);
      ChunksFeedLines(ReadLines(r, Init(parts)), Last(parts), chunks[1..]);
      ReadLinesConcat(r, Init(parts), Feed(Last(parts), chunks[1..], NEWLINE).0);
    }
  }

  /** However the text is cut into chunks, the reader collects the serials of the whole text. */
  lemma {:induction false} ChunkingDoesNotMatter(chunks: seq<string>)
    ensures Upload(chunks) == SerialsOf(Concat(chunks))
  {
    ChunksFeedLines(NewReader, "", chunks);
    FeedFromStart(chunks, NEWLINE);
  }

  /** On bytes: the reader decodes each chunk on its own. It always collects the serials of the text so
      decoded, which is the text of the file if and only if no chunk starts inside a character. */
  lemma {:induction false} ByteChunks(text: string, chunks: seq<seq<ChunkedDecoding.Byte>>)
    requires ChunkedDecoding.ConcatBytes(chunks) == Utf8.EncodeAll(text)
    ensures Upload(Utf8.DecodeChunks(chunks)) == SerialsOf(Concat(Utf8.DecodeChunks(chunks)))
    ensures Concat(Utf8.DecodeChunks(chunks)) == text <==> Utf8.CutBetweenCharacters(chunks)
  {
    Utf8.DecodedIffWhole(text, chunks);
    ChunkingDoesNotMatter(Utf8.DecodeChunks(chunks));
  }

  // ---------------------------------------------------------------- a trailing newline

  lemma {:induction false} TrimStartWithout(s: string)
    ensures TrimStart(Without(s, '\r')) == Without(TrimStart(s), '\r')
  {
    if s != [] && IsSpace(s[0]) {
      TrimStartWithout(s[1..]);
      if s[0] == '\r' {
        assert Without(s, '\r') == Without(s[1..], '\r');
      } else {
        assert ([s[0]] + Without(s[1..], '\r'))[1..] == Without(s[1..], '\r');
      }
    }
  }

  lemma {:induction false} WithoutConcat(a: string, b: string)
    ensures Without(a + b, '\r') == Without(a, '\r') + Without(b, '\r')
  {
    if a == [] {
      assert a + b == b;
    } else {
      assert (a + b)[1..] == a[1..] + b;
      WithoutConcat(a[1..], b);
    }
  }

  lemma {:induction false} TrimEndWithout(s: string)
    ensures TrimEnd(Without(s, '\r')) == Without(TrimEnd(s), '\r')
  {
    if s != [] {
      var n := |s| - 1;
      var front := Without(s[..n], '\r');
      assert s == s[..n] + [s[n]];
      WithoutConcat(s[..n], [s[n]]);
      assert Without([s[n]], '\r') == if s[n] == '\r' then [] else [s[n]];
      if IsSpace(s[n]) {
        TrimEndWithout(s[..n]);
        if s[n] == '\r' {
          assert Without(s, '\r') == front;
        } else {
          assert (front + [s[n]])[..|front|] == front;
        }
      }
    }
  }

  lemma {:induction false} TrimWithout(s: string)
    ensures Trim(Without(s, '\r')) == Without(Trim(s), '\r')
  {
    TrimStartWithout(s);
    TrimEndWithout(TrimStart(s));
  }

  lemma {:induction false} NoCommaWithout(s: string)
    requires ',' !in s
    ensures ',' !in Without(s, '\r')
  {
    if s != [] {
      NoCommaWithout(s[1..]);
    }
  }

  /** The leftmost comma is where the comma-free prefix ends. */
  lemma {:induction false} FindComma(head: string, rest: string)
    requires ',' !in head
    ensures Find(head + COMMA + rest, COMMA) == |head| && Find(head, COMMA) == |head|
  {
    var s := head + COMMA + rest;
    forall j | 0 <= j < |head| ensures !StartsWith(s[j..], COMMA) && !StartsWith(head[j..], COMMA) {
      assert s[j..][..1] == [head[j]] && head[j..][..1] == [head[j]];
    }
    assert s[|head|..][..1] == COMMA;
    FindIsLeftmost(s, COMMA, |head|);
    FindIsLeftmost(head, COMMA, |head|);
  }

  lemma {:induction false} SplitComma(head: string, rest: string)
    requires ',' !in head
    ensures Split(head + COMMA + rest, COMMA) == [head] + Split(rest, COMMA)
    ensures Split(head, COMMA) == [head]
  {
    var s := head + COMMA + rest;
    FindComma(head, rest);
    SplitFound(s, COMMA);
    assert s[..|head|] == head && s[|head| + 1..] == rest;
  }

  lemma {:induction false} BeforeFirstComma(s: string)
    ensures ',' !in s[..Find(s, COMMA)]
    ensures Find(s, COMMA) < |s| ==> s == s[..Find(s, COMMA)] + COMMA + s[Find(s, COMMA) + 1..]
  {
    FoundThere(s, COMMA);
    var i := Find(s, COMMA);
    forall j | 0 <= j < i ensures s[j] != ',' {
      assert s[j..][..1] == [s[j]];
    }
    if i < |s| {
      assert s[i..][..1] == COMMA && s[i..][0] == s[i];
    }
  }

  function WithoutAll(cols: seq<string>): seq<string> {
    if cols == [] then [] else [Without(cols[0], '\r')] + WithoutAll(cols[1..])
  }

  lemma {:induction false} WithoutAllAt(cols: seq<string>, i: nat)
    ensures |WithoutAll(cols)| == |cols|
    ensures i < |cols| ==> WithoutAll(cols)[i] == Without(cols[i], '\r')
  {
    if cols != [] {
      WithoutAllAt(cols[1..], if i == 0 then 0 else i - 1);
    }
  }

  /** Removing carriage returns commutes with cutting a row into cells. */
  lemma {:induction false} SplitWithout(s: string)
    ensures Split(Without(s, '\r'), COMMA) == WithoutAll(Split(s, COMMA))
    decreases |s|
  {
    var i := Find(s, COMMA);
    BeforeFirstComma(s);
    NoCommaWithout(s[..i]);
    if i == |s| {
      assert s[..i] == s;
      SplitComma(Without(s, '\r'), "");
    } else {
      var head, rest := s[..i], s[i + 1..];
      SplitWithout(rest);
      SplitComma(head, rest);
      WithoutConcat(head + COMMA, rest);
      WithoutConcat(head, COMMA);
      assert Without(COMMA, '\r') == COMMA;
      SplitComma(Without(head, '\r'), Without(rest, '\r'));
    }
  }

  lemma {:induction false} CellWithout(row: string, column: nat)
    ensures Cell(Without(row, '\r'), column) == Without(Cell(row, column), '\r')
  {
    var cols := Split(row, COMMA);
    SplitWithout(row);
    WithoutAllAt(cols, column);
    WithoutAllAt(cols, 0);
    TrimWithout(if column < |cols| then cols[column] else cols[0]);
  }

  lemma {:induction false} WithoutIsIdentityIff(s: string)
    ensures |Without(s, '\r')| <= |s|
    ensures Without(s, '\r') == s <==> '\r' !in s
  {
    if s != [] {
      WithoutIsIdentityIff(s[1..]);
      assert s == [s[0]] + s[1..];
    }
  }

  lemma {:induction false} TrimStartHead(s: string)
    ensures TrimStart(s) == "" || !IsSpace(TrimStart(s)[0])
  {
    if s != [] && IsSpace(s[0]) {
      TrimStartHead(s[1..]);
    }
  }

  lemma {:induction false} TrimEndHead(s: string)
    requires s == "" || !IsSpace(s[0])
    ensures TrimEnd(s) == "" ==> s == ""
    ensures TrimEnd(s) != "" ==> TrimEnd(s)[0] == s[0]
  {
    if s != [] && IsSpace(s[|s| - 1]) {
      TrimEndHead(s[..|s| - 1]);
    }
  }

  /** A trimmed line does not vanish when its carriage returns are removed. */
  lemma {:induction false} NonBlankStaysNonBlank(line: string)
    ensures Without(Trim(line), '\r') == "" <==> Trim(line) == ""
  {
    TrimStartHead(line);
    TrimEndHead(TrimStart(line));
  }

  lemma {:induction false} SplitNewlineAppended(text: string)
    ensures Split(text + NEWLINE, NEWLINE) == Split(text, NEWLINE) + [""]
  {
    var lines := Split(text, NEWLINE);
    SplitResumes(text, NEWLINE, NEWLINE);
    LastIsWhole(text, NEWLINE);
    var last := Last(lines);
    LastNewline(last);
    assert lines == Init(lines) + [last];
  }

  lemma {:induction false} LastNewline(last: string)
    requires Split(last, NEWLINE) == [last]
    ensures Split(last + NEWLINE, NEWLINE) == [last, ""]
  {
    var s := last + NEWLINE;
    FoundThere(last, NEWLINE);
    if Find(last, NEWLINE) < |last| {
      SplitFound(last, NEWLINE);
      assert false;
    }
    forall j | 0 <= j < |last| ensures !StartsWith(s[j..], NEWLINE) {
      assert s[j..][..1] == [last[j]] && last[j..][..1] == [last[j]];
    }
    assert s[|last|..] == NEWLINE;
    FindIsLeftmost(s, NEWLINE, |last|);
    SplitFound(s, NEWLINE);
    assert s[|last| + 1..] == "" && s[..|last|] == last;
    assert Split("", NEWLINE) == [""];
  }

  /** A newline at the end of the file is irrelevant, unless the serial in the unfinished last line has a
      carriage return inside: complete lines lose it, the last one keeps it. */
  lemma {:induction false} TrailingNewline(text: string)
    ensures var lines := Split(text, NEWLINE);
            var r := ReadLines(NewReader, Init(lines));
            SerialsOf(text + NEWLINE) == SerialsOf(text) <==>
            (r.headerSeen && Trim(Last(lines)) != "" ==> '\r' !in Cell(Trim(Last(lines)), r.column))
  {
    var lines := Split(text, NEWLINE);
    var r, last := ReadLines(NewReader, Init(lines)), Last(lines);
    SplitNewlineAppended(text);
    assert Init(lines + [""]) == lines && Last(lines + [""]) == "";
    assert ReadLines(NewReader, lines) == ReadLine(r, last);
    assert SerialsOf(text + NEWLINE) == ReadLine(r, last).serials;
    NonBlankStaysNonBlank(last);
    if r.headerSeen && Trim(last) != "" {
      var row := Trim(last);
      CellWithout(row, r.column);
      WithoutIsIdentityIff(Cell(row, r.column));
      PushDiffers(r, Cell(row, r.column), Without(Cell(row, r.column), '\r'));
    }
  }

  lemma {:induction false} PushDiffers(r: Reader, a: string, b: string)
    ensures Push(r, a).serials == Push(r, b).serials <==> a == b
  {
    assert |r.serials + [a]| == |r.serials| + 1;
    assert |r.serials + [b]| == |r.serials| + 1;
    assert (r.serials + [a])[|r.serials|] == a && (r.serials + [b])[|r.serials|] == b;
  }

  lemma {:induction false} OneLine(s: string)
    requires '\n' !in s
    ensures Split(s, NEWLINE) == [s]
  {
    forall j | 0 <= j < |s| ensures !StartsWith(s[j..], NEWLINE) {
      assert s[j..][..1] == [s[j]];
    }
    FindIsLeftmost(s, NEWLINE, |s|);
  }

  lemma {:induction false} SameWhenTrimmed(s: string)
    requires s != [] && !IsSpace(s[0]) && !IsSpace(s[|s| - 1])
    ensures Trim(s) == s
  {}

  lemma {:induction false} TwoLines(a: string, b: string)
    requires '\n' !in a && '\n' !in b
    ensures Split(a + NEWLINE + b, NEWLINE) == [a, b]
  {
    OneLine(a);
    OneLine(b);
    LastNewline(a);
    SplitResumes(a + NEWLINE, b, NEWLINE);
    assert Init([a, ""]) == [a] && Last([a, ""]) == "";
    assert "" + b == b;
  }

  /** A header and an unfinished row with one trimmed cell. */
  lemma {:induction false} UnfinishedRow(cell: string)
    requires cell != [] && !IsSpace(cell[0]) && !IsSpace(cell[|cell| - 1]) && '\n' !in cell && ',' !in cell
    ensures SerialsOf("serial" + NEWLINE + cell) == [cell]
    ensures SerialsOf("serial" + NEWLINE + cell + NEWLINE) == SerialsOf("serial" + NEWLINE + cell) <==> '\r' !in cell
  {
    var text := "serial" + NEWLINE + cell;
    TwoLines("serial", cell);
    assert Init(["serial", cell]) == ["serial"] && Last(["serial", cell]) == cell;
    HeaderLine();
    SameWhenTrimmed(cell);
    SplitComma(cell, "");
    TrailingNewline(text);
  }

  /** The condition fails: a last line with a carriage return inside gives another serial once a newline
      follows it. */
  lemma {:induction false} CarriageReturnInLastLine()
    ensures SerialsOf("serial" + NEWLINE + "a\rb") == ["a\rb"]
    ensures SerialsOf("serial" + NEWLINE + "a\rb" + NEWLINE) != ["a\rb"]
  {
    var cell := "a\rb";
    assert cell[1] == '\r';
    UnfinishedRow(cell);
  }

  lemma {:induction false} HeaderLine()
    ensures ReadLines(NewReader, ["serial"]) == Reader(true, 0, [])
  {
    SameWhenTrimmed("serial");
    WithoutIsIdentityIff("serial");
    SplitComma("serial", "");
    var lines := ["serial"];
    assert lines[..0] == [];
    assert ReadLines(NewReader, lines) == ReadLine(ReadLines(NewReader, lines[..0]), "serial");
    var headers := ["serial"];
    assert FirstHeader(headers) <= 1;
    assert SerialColumn(headers) == 0;
  }

  // ---------------------------------------------------------------- the handlers

  class CsvReader {
    var buffer: string
    var headerSeen: bool
    var serialColIndex: nat
    var lines: seq<string>

    constructor ()
      ensures View() == NewReader && buffer == ""
    {
      buffer, headerSeen, serialColIndex, lines := "", false, 0, [];
    }

    function View(): Reader
      reads this
    {
      Reader(headerSeen, serialColIndex, lines)
    }

    method FindHeader(headers: seq<string>) returns (idx: int)
      ensures idx == if FirstHeader(headers) < |headers| then FirstHeader(headers) else -1
    {
      idx := 0;
      while idx < |headers|
        invariant 0 <= idx <= |headers|
        invariant FirstHeader(headers) == idx + FirstHeader(headers[idx..])
      {
        if IsSerialHeader(headers[idx]) {
          return;
        }
        assert headers[idx..][1..] == headers[idx + 1..];
        idx := idx + 1;
      }
      idx := -1;
    }

    method OnLine(line: string)
      modifies this
      ensures View() == ReadLine(old(View()), line) && buffer == old(buffer)
    {
      var trimmed := Without(Trim(line), '\r');
      if trimmed == "" {
        return;
      }
      if !headerSeen {
        headerSeen := true;
        var idx := FindHeader(Split(trimmed, COMMA));
        serialColIndex := if idx >= 0 then idx else 0;
        return;
      }
      var serial := Cell(trimmed, serialColIndex);
      if serial != "" {
        lines := lines + [serial];
      }
    }

    /** A chunk arrives: complete lines are read, the rest waits. */
    method OnData(chunk: string)
      modifies this
      ensures View() == ReadLines(old(View()), Init(Split(old(buffer) + chunk, NEWLINE)))
      ensures buffer == Last(Split(old(buffer) + chunk, NEWLINE))
    {
      var parts := Split(buffer + chunk, NEWLINE);
      buffer := Last(parts);
      parts := Init(parts);
      var i := 0;
      while i < |parts|
        invariant 0 <= i <= |parts|
        invariant buffer == Last(Split(old(buffer) + chunk, NEWLINE))
        invariant View() == ReadLines(old(View()), parts[..i])
      {
        OnLine(parts[i]);
        assert parts[..i + 1][..i] == parts[..i];
        i := i + 1;
      }
      assert parts[..i] == parts;
    }

    method OnEnd()
      modifies this
      ensures View() == Finish(old(View()), old(buffer))
    {
      if Trim(buffer) != "" && headerSeen {
        var serial := Cell(Trim(buffer), serialColIndex);
        if serial != "" {
          lines := lines + [serial];
        }
      }
    }

    /** A whole upload, chunk after chunk. */
    method ReadAll(chunks: seq<string>)
      requires View() == NewReader && buffer == ""
      modifies this
      ensures lines == SerialsOf(Concat(chunks))
    {
      ghost var all := ReadChunks(NewReader, "", chunks);
      var i := 0;
      while i < |chunks|
        invariant 0 <= i <= |chunks|
        invariant ReadChunks(View(), buffer, chunks[i..]) == all
      {
        assert chunks[i..][1..] == chunks[i + 1..];
        OnData(chunks[i]);
        i := i + 1;
      }
      OnEnd();
      ChunkingDoesNotMatter(chunks);
    }
  }
}
