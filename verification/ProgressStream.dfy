/**
 The progress stream of the bulk import: the server frames each JSON object as one server-sent event
 (a subset of section 9.2 of the WHATWG HTML Living Standard), the dashboard splits what arrives on blank
 lines and reads the objects back.
 */
module ProgressStream {
  import opened Collections
  import opened Text
  import opened Wrappers
  import ChunkedDecoding
  import FlatJson
  import Utf8

  const PREFIX := "data: "
  const BLANK := "\n\n"

  predicate NoneEmpty(objects: seq<FlatJson.Object>) {
    forall i :: 0 <= i < |objects| ==> objects[i] != []
  }

  function Line(o: FlatJson.Object): string
    requires o != []
  {
    PREFIX + FlatJson.Stringify(o)
  }

  function Lines(objects: seq<FlatJson.Object>): (lines: seq<string>)
    requires NoneEmpty(objects)
    ensures |lines| == |objects| && forall i :: 0 <= i < |lines| ==> lines[i] == Line(objects[i])
  {
    seq(|objects|, i requires 0 <= i < |objects| && objects[i] != [] => Line(objects[i]))
  }

  /** What a sequence of writes puts on the wire: each line followed by a blank one. */
  function Frames(lines: seq<string>): string {
    if lines == [] then "" else lines[0] + BLANK + Frames(lines[1..])
  }

  function EmitAll(objects: seq<FlatJson.Object>): string
    requires NoneEmpty(objects)
  {
    Frames(Lines(objects))
  }

  // ---------------------------------------------------------------- the reader

  function StripPrefix(part: string): string {
    if StartsWith(part, PREFIX) then part[|PREFIX|..] else part
  }

  /** The object in one part; blank parts and malformed JSON are skipped. */
  function ReadPart(part: string): Option<FlatJson.Object> {
    var line := Trim(StripPrefix(part));
    if line == "" then None else FlatJson.Parse(line)
  }

  /** What is read from a stream that arrives in chunks, on top of an unfinished part. */
  function ReceiveFrom<T>(read: string -> Option<T>, buffer: string, chunks: seq<string>): seq<T> {
    Collect(read, Feed(buffer, chunks, BLANK).0)
  }

  function Receive(chunks: seq<string>): seq<FlatJson.Object> {
    ReceiveFrom(ReadPart, "", chunks)
  }

  // ---------------------------------------------------------------- the payloads survive

  predicate OneLine(line: string) {
    '\n' !in line
  }

  /** A line without newlines is the first part of what follows it. */
  lemma {:induction false} SplitAfterLine(line: string, rest: string)
    requires OneLine(line)
    ensures Split(line + BLANK + rest, BLANK) == [line] + Split(rest, BLANK)
  {
    var s := line + BLANK + rest;
    forall j | 0 <= j < |line| ensures !StartsWith(s[j..], BLANK) {
      assert s[j..][..2][0] == line[j];
    }
    assert s[|line|..][..2] == BLANK;
    FindIsLeftmost(s, BLANK, |line|);
    SplitFound(s, BLANK);
    assert s[..|line|] == line && s[|line| + 2..] == rest;
  }

  lemma {:induction false} SplitFrames(lines: seq<string>)
    requires forall i :: 0 <= i < |lines| ==> OneLine(lines[i])
    ensures Split(Frames(lines), BLANK) == lines + [""]
  {
    if lines != [] {
      SplitAfterLine(lines[0], Frames(lines[1..]));
      SplitFrames(lines[1..]);
    }
  }

  lemma {:induction false} ReadLineBack(o: FlatJson.Object)
    requires o != []
    ensures ReadPart(Line(o)) == Some(o) && OneLine(Line(o))
  {
    var text := FlatJson.Stringify(o);
    FlatJson.StringifyIsOneLine(o);
    FlatJson.StringifyParses(o);
    assert Line(o)[..|PREFIX|] == PREFIX && Line(o)[|PREFIX|..] == text;
    assert TrimStart(text) == text && TrimEnd(text) == text;
  }

  /** However the stream is cut into chunks, the dashboard reads exactly the objects the server emitted, in
      order, and nothing is left over. */
  lemma {:induction false} StreamRoundTrip(objects: seq<FlatJson.Object>, chunks: seq<string>)
    requires NoneEmpty(objects)
    requires Concat(chunks) == EmitAll(objects)
    ensures Receive(chunks) == objects && Feed("", chunks, BLANK).1 == ""
  {
    var lines := Lines(objects);
    forall i | 0 <= i < |lines| ensures ReadPart(lines[i]) == Some(objects[i]) && OneLine(lines[i]) {
      ReadLineBack(objects[i]);
    }
    SplitFrames(lines);
    assert Init(lines + [""]) == lines;
    CollectAll(ReadPart, lines, objects);
    FeedFromStart(chunks, BLANK);
  }

  /** On bytes: the dashboard's decoder streams, so the cuts may fall anywhere, inside characters too. */
  lemma {:induction false} StreamBytes(objects: seq<FlatJson.Object>, chunks: seq<seq<ChunkedDecoding.Byte>>)
    requires NoneEmpty(objects)
    requires ChunkedDecoding.ConcatBytes(chunks) == Utf8.EncodeAll(EmitAll(objects))
    ensures Receive(Utf8.StreamChunks(chunks)) == objects
  {
    Utf8.StreamDecodes(EmitAll(objects), chunks);
    assert objects != [] ==> EmitAll(objects)[0] == PREFIX[0];
    StreamRoundTrip(objects, Utf8.StreamChunks(chunks));
  }

  // ---------------------------------------------------------------- the reading loop

  lemma {:induction false} ReceiveStep<T>(read: string -> Option<T>, received: seq<T>, buffer: string, chunks: seq<string>, i: nat)
    requires i < |chunks|
    ensures var parts := Split(buffer + chunks[i], BLANK);
            received + ReceiveFrom(read, buffer, chunks[i..]) ==
            received + Collect(read, Init(parts)) + ReceiveFrom(read, Last(parts), chunks[i + 1..])
  {
    var parts := Split(buffer + chunks[i], BLANK);
    assert chunks[i..][1..] == chunks[i + 1..];
    CollectConcat(read, Init(parts), Feed(Last(parts), chunks[i + 1..], BLANK).0);
  }

  /** The loop over the response body, for any way of reading one part. */
  class StreamReader<T> {
    const read: string -> Option<T>
    var buffer: string
    var received: seq<T>

    constructor (read: string -> Option<T>)
      ensures this.read == read && buffer == "" && received == []
    {
      this.read := read;
      buffer, received := "", [];
    }

    method OnChunk(chunk: string)
      modifies this
      ensures received == old(received) + Collect(read, Init(Split(old(buffer) + chunk, BLANK)))
      ensures buffer == Last(Split(old(buffer) + chunk, BLANK))
    {
      var parts := Split(buffer + chunk, BLANK);
      buffer := Last(parts);
      parts := Init(parts);
      ghost var rest := buffer;
      var i := 0;
      while i < |parts|
        invariant 0 <= i <= |parts| && buffer == rest
        invariant received == old(received) + Collect(read, parts[..i])
      {
        assert parts[..i + 1][..i] == parts[..i];
        var event := read(parts[i]);
        if event.Some? {
          received := received + [event.value];
        }
        i := i + 1;
      }
      assert parts[..i] == parts;
    }

    method ReadAll(chunks: seq<string>)
      requires buffer == "" && received == []
      modifies this
      ensures received == ReceiveFrom(read, "", chunks)
    {
      assert chunks[0..] == chunks;
      var i := 0;
      while i < |chunks|
        invariant 0 <= i <= |chunks|
        invariant received + ReceiveFrom(read, buffer, chunks[i..]) == ReceiveFrom(read, "", chunks)
      {
        ReceiveStep(read, received, buffer, chunks, i);
        OnChunk(chunks[i]);
        i := i + 1;
      }
      assert ReceiveFrom(read, buffer, []) == [];
    }
  }
}
