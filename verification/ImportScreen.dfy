/**
 What the user sees of a bulk import. The dashboard shows each object of the progress stream as it comes;
 at the end it has stopped waiting, reports success if and only if every row was created, and lists the
 latest hundred rows, newest first.
 */
module ImportScreen {
  import opened Wrappers
  import BulkImport
  import ChunkedDecoding
  import CsvUpload
  import FlatJson
  import ProgressStream
  import Text
  import Utf8

  const LOG_LENGTH := 100
  const TICK := "✓ "
  const CROSS := "✗ "
  const DASH := " — "

  /** `counts` are the rows done, the failed ones among them and all rows, as last reported. */
  datatype Screen = Screen(importing: bool, successes: nat, log: seq<string>, counts: (nat, nat, nat))

  const Opened := Screen(true, 0, [], (0, 0, 0))

  // ---------------------------------------------------------------- showing an object

  /** The value of a property; a repeated name counts last. */
  function Get(o: FlatJson.Object, name: string): Option<FlatJson.Value> {
    if o == [] then None
    else
      var n := |o| - 1;
      if o[n].name == name then Some(o[n].value) else Get(o[..n], name)
  }

  function TextOf(v: Option<FlatJson.Value>): string {
    if v.Some? && v.value.Text? then v.value.s else ""
  }

  function NumberOf(v: Option<FlatJson.Value>): nat {
    if v.Some? && v.value.Number? then v.value.n else 0
  }

  function Counts(o: FlatJson.Object): (nat, nat, nat) {
    (NumberOf(Get(o, "done")), NumberOf(Get(o, "errors")), NumberOf(Get(o, "total")))
  }

  function Latest(log: seq<string>): seq<string> {
    if |log| <= LOG_LENGTH then log else log[..LOG_LENGTH]
  }

  /** What the dashboard reads of an object. */
  datatype Notice = Notice(current: string, status: string, message: string, error: string, finished: bool, counts: (nat, nat, nat))

  function Read(o: FlatJson.Object): Notice {
    Notice(TextOf(Get(o, "current")), TextOf(Get(o, "status")), TextOf(Get(o, "message")), TextOf(Get(o, "error")),
           Get(o, "finished") == Some(FlatJson.True), Counts(o))
  }

  function LogLine(n: Notice): string {
    if n.status == "error" then CROSS + n.current + DASH + n.message else TICK + n.current
  }

  function Show(s: Screen, n: Notice): Screen {
    Screen(
      s.importing && !n.finished && n.error == "",
      s.successes + (if n.finished && n.counts.1 == 0 then 1 else 0),
      if n.current == "" then s.log else Latest([LogLine(n)] + s.log),
      n.counts)
  }

  function ShowAll(s: Screen, objects: seq<FlatJson.Object>): Screen {
    if objects == [] then s else Show(ShowAll(s, objects[..|objects| - 1]), Read(objects[|objects| - 1]))
  }

  // ---------------------------------------------------------------- reading the properties

  lemma {:induction false} GetAt(o: FlatJson.Object, i: nat)
    requires i < |o| && forall j :: i < j < |o| ==> o[j].name != o[i].name
    ensures Get(o, o[i].name) == Some(o[i].value)
  {
    if i < |o| - 1 {
      GetAt(o[..|o| - 1], i);
    }
  }

  lemma {:induction false} GetNothing(o: FlatJson.Object, name: string)
    requires forall j :: 0 <= j < |o| ==> o[j].name != name
    ensures Get(o, name) == None
  {
    if o != [] {
      GetNothing(o[..|o| - 1], name);
    }
  }

  /** The names that the dashboard asks for are told apart. */
  lemma {:induction false} Names()
    ensures "errors" != "status" && "current" != "message" && "total" != "jobId" && "jobId" != "error" && "total" != "error"
  {
    assert "errors"[0] != "status"[0] && "current"[0] != "message"[0];
    assert "total"[0] != "jobId"[0] && "jobId"[0] != "error"[0] && "total"[0] != "error"[0];
  }

  lemma {:induction false} CountsRead(o: FlatJson.Object, total: nat, done: nat, errors: nat)
    requires |o| >= 3 && forall j :: 3 <= j < |o| ==> o[j].name !in {"total", "done", "errors"}
    requires o[0] == FlatJson.Field("total", FlatJson.Number(total)) && o[1] == FlatJson.Field("done", FlatJson.Number(done))
    requires o[2] == FlatJson.Field("errors", FlatJson.Number(errors))
    ensures Counts(o) == (done, errors, total)
  {
    GetAt(o, 0);
    GetAt(o, 1);
    GetAt(o, 2);
  }

  /** What an event means to the dashboard. */
  function Meaning(e: BulkImport.Event): Notice {
    match e
    case Row(total, done, errors, current) => Notice(current, "ok", "", "", false, (done, errors, total))
    case RowError(total, done, errors, current, message) => Notice(current, "error", message, "", false, (done, errors, total))
    case Finished(total, done, errors, _) => Notice("", "", "", "", true, (done, errors, total))
    case EmptyCsv => Notice("", "", "", "empty_csv", false, (0, 0, 0))
    case TooManyRows => Notice("", "", "", "too_many_rows", false, (0, 0, 0))
    case LimitReached(message, _, _, _) => Notice("", "", message, "device_limit_reached", false, (0, 0, 0))
  }

  lemma {:induction false} RowReads(e: BulkImport.Event)
    requires e.Row?
    ensures Read(BulkImport.ToObject(e)) == Meaning(e)
  {
    var o := BulkImport.ToObject(e);
    Names();
    CountsRead(o, e.total, e.done, e.errors);
    GetAt(o, 3);
    GetAt(o, 4);
    GetNothing(o, "message");
    GetNothing(o, "finished");
    GetNothing(o, "error");
  }

  lemma {:induction false} RowErrorReads(e: BulkImport.Event)
    requires e.RowError?
    ensures Read(BulkImport.ToObject(e)) == Meaning(e)
  {
    var o := BulkImport.ToObject(e);
    Names();
    CountsRead(o, e.total, e.done, e.errors);
    GetAt(o, 3);
    GetAt(o, 4);
    GetAt(o, 5);
    GetNothing(o, "finished");
    GetNothing(o, "error");
  }

  lemma {:induction false} FinishedReads(e: BulkImport.Event)
    requires e.Finished?
    ensures Read(BulkImport.ToObject(e)) == Meaning(e)
  {
    var o := BulkImport.ToObject(e);
    Names();
    CountsRead(o, e.total, e.done, e.errors);
    GetAt(o, 4);
    GetNothing(o, "current");
    GetNothing(o, "status");
    GetNothing(o, "message");
    GetNothing(o, "error");
  }

  lemma {:induction false} RefusalReads(e: BulkImport.Event)
    requires e.EmptyCsv? || e.TooManyRows? || e.LimitReached?
    ensures Read(BulkImport.ToObject(e)) == Meaning(e)
  {
    var o := BulkImport.ToObject(e);
    Names();
    NoCounts(o);
    GetAt(o, 0);
    if e.LimitReached? {
      GetAt(o, 1);
    } else {
      GetNothing(o, "message");
    }
    GetNothing(o, "current");
    GetNothing(o, "status");
    GetNothing(o, "finished");
  }

  lemma {:induction false} NoCounts(o: FlatJson.Object)
    requires forall j :: 0 <= j < |o| ==> o[j].name !in {"total", "done", "errors"}
    ensures Counts(o) == (0, 0, 0)
  {
    GetNothing(o, "total");
    GetNothing(o, "done");
    GetNothing(o, "errors");
  }

  /** The dashboard reads every event as it was meant. */
  lemma {:induction false} ReadsAsMeant(e: BulkImport.Event)
    ensures Read(BulkImport.ToObject(e)) == Meaning(e)
  {
    match e
    case Row(_, _, _, _) => RowReads(e);
    case RowError(_, _, _, _, _) => RowErrorReads(e);
    case Finished(_, _, _, _) => FinishedReads(e);
    case _ => RefusalReads(e);
  }

  function ShowEvents(s: Screen, events: seq<BulkImport.Event>): Screen {
    if events == [] then s else Show(ShowEvents(s, events[..|events| - 1]), Meaning(events[|events| - 1]))
  }

  lemma {:induction false} ShownAsMeant(s: Screen, events: seq<BulkImport.Event>)
    ensures ShowAll(s, BulkImport.ToObjects(events)) == ShowEvents(s, events)
  {
    if events != [] {
      var n, objects := |events| - 1, BulkImport.ToObjects(events);
      ShownAsMeant(s, events[..n]);
      assert objects[..n] == BulkImport.ToObjects(events[..n]);
      ReadsAsMeant(events[n]);
    }
  }

  // ---------------------------------------------------------------- the screen at the end

  /** The line of a row: a tick and its serial, or a cross with the reason. */
  function RowLine(serial: string, creation: BulkImport.Creation, production: bool): string {
    if BulkImport.IsSerial(serial) && creation.Created? then TICK + serial
    else
      CROSS + serial + DASH +
      if production then "device_import_failed"
      else if !BulkImport.IsSerial(serial) then "invalid_serial_format"
      else creation.message
  }

  /** The lines of the first rows, newest first. */
  function RowLines(serials: seq<string>, creations: seq<BulkImport.Creation>, production: bool, n: nat): seq<string>
    requires n <= |serials| == |creations|
  {
    if n == 0 then []
    else [RowLine(serials[n - 1], creations[n - 1], production)] + RowLines(serials, creations, production, n - 1)
  }

  lemma {:induction false} LatestOfLatest(line: string, log: seq<string>)
    ensures Latest([line] + Latest(log)) == Latest([line] + log)
  {}

  lemma {:induction false} RowsAreShown(serials: seq<string>, creations: seq<BulkImport.Creation>, production: bool, n: nat)
    requires n <= |serials| == |creations| && forall i :: 0 <= i < |serials| ==> serials[i] != ""
    ensures ShowEvents(Opened, BulkImport.RowEvents(serials, creations, production, n)) ==
              Screen(true, 0, Latest(RowLines(serials, creations, production, n)),
                     if n == 0 then (0, 0, 0) else (n, |BulkImport.FailedRows(serials, creations, n)|, |serials|))
  {
    if n > 0 {
      var before := BulkImport.RowEvents(serials, creations, production, n - 1);
      var event := BulkImport.RowEvent(serials, creations, production, n - 1);
      RowsAreShown(serials, creations, production, n - 1);
      assert (before + [event])[..|before|] == before;
      assert LogLine(Meaning(event)) == RowLine(serials[n - 1], creations[n - 1], production);
      LatestOfLatest(RowLine(serials[n - 1], creations[n - 1], production), RowLines(serials, creations, production, n - 1));
    }
  }

  /** Some rows were refused outright, or every row was tried. */
  predicate Tried(serials: seq<string>, quota: BulkImport.Quota) {
    0 < |serials| <= 1000 && !quota.Denied?
  }

  /** The screen when the report is over: it waits no longer; success is announced, once, if and only if the
      rows were tried and all of them were valid and created; the log has a line for each of the latest rows. */
  lemma {:induction false} ScreenAfterReport(serials: seq<string>, quota: BulkImport.Quota, creations: seq<BulkImport.Creation>,
                                             production: bool, jobId: string)
    requires |serials| == |creations| && forall i :: 0 <= i < |serials| ==> serials[i] != ""
    ensures var s := ShowAll(Opened, BulkImport.ToObjects(BulkImport.Report(serials, quota, creations, production, jobId)));
            && !s.importing
            && (s.successes == if Tried(serials, quota) && (forall i :: 0 <= i < |serials| ==>
                                  BulkImport.IsSerial(serials[i]) && creations[i].Created?) then 1 else 0)
            && (s.log == if Tried(serials, quota) then Latest(RowLines(serials, creations, production, |serials|)) else [])
            && (Tried(serials, quota) ==>
                  s.counts == (|serials|, |BulkImport.FailedRows(serials, creations, |serials|)|, |serials|))
  {
    ShownAsMeant(Opened, BulkImport.Report(serials, quota, creations, production, jobId));
    if Tried(serials, quota) {
      TriedScreen(serials, quota, creations, production, jobId);
      BulkImport.FailedRowsBound(serials, creations, |serials|);
    } else {
      RefusedScreen(serials, quota, creations, production, jobId);
    }
  }

  lemma {:induction false} TriedScreen(serials: seq<string>, quota: BulkImport.Quota, creations: seq<BulkImport.Creation>,
                                       production: bool, jobId: string)
    requires Tried(serials, quota) && |serials| == |creations| && forall i :: 0 <= i < |serials| ==> serials[i] != ""
    ensures var failed := |BulkImport.FailedRows(serials, creations, |serials|)|;
            ShowEvents(Opened, BulkImport.Report(serials, quota, creations, production, jobId)) ==
              Screen(false, if failed == 0 then 1 else 0, Latest(RowLines(serials, creations, production, |serials|)),
                     (|serials|, failed, |serials|))
  {
    var rows := BulkImport.RowEvents(serials, creations, production, |serials|);
    var last := BulkImport.Finished(|serials|, |serials|, |BulkImport.FailedRows(serials, creations, |serials|)|, jobId);
    RowsAreShown(serials, creations, production, |serials|);
    EventsSnoc(rows, last);
  }

  lemma {:induction false} EventsSnoc(events: seq<BulkImport.Event>, e: BulkImport.Event)
    ensures ShowEvents(Opened, events + [e]) == Show(ShowEvents(Opened, events), Meaning(e))
  {
    assert (events + [e])[..|events|] == events;
  }

  lemma {:induction false} RefusedScreen(serials: seq<string>, quota: BulkImport.Quota, creations: seq<BulkImport.Creation>,
                                         production: bool, jobId: string)
    requires !Tried(serials, quota) && |serials| == |creations|
    ensures var s := ShowEvents(Opened, BulkImport.Report(serials, quota, creations, production, jobId));
            !s.importing && s.successes == 0 && s.log == []
  {
    var report := BulkImport.Report(serials, quota, creations, production, jobId);
    assert |report| == 1 && report == [] + [report[0]];
    EventsSnoc([], report[0]);
  }

  // ---------------------------------------------------------------- from file to screen

  lemma {:induction false} LinesGiveNoEmptySerial(r: CsvUpload.Reader, lines: seq<string>)
    requires forall i :: 0 <= i < |r.serials| ==> r.serials[i] != ""
    ensures var r' := CsvUpload.ReadLines(r, lines); forall i :: 0 <= i < |r'.serials| ==> r'.serials[i] != ""
    decreases |lines|
  {
    if lines != [] {
      var n := |lines| - 1;
      LinesGiveNoEmptySerial(r, lines[..n]);
      assert CsvUpload.ReadLines(r, lines) == CsvUpload.ReadLine(CsvUpload.ReadLines(r, lines[..n]), lines[n]);
    }
  }

  lemma {:induction false} NoEmptySerial(text: string)
    ensures forall i :: 0 <= i < |CsvUpload.SerialsOf(text)| ==> CsvUpload.SerialsOf(text)[i] != ""
  {
    var lines := Text.Split(text, CsvUpload.NEWLINE);
    LinesGiveNoEmptySerial(CsvUpload.NewReader, Text.Init(lines));
    assert CsvUpload.SerialsOf(text) ==
           CsvUpload.Finish(CsvUpload.ReadLines(CsvUpload.NewReader, Text.Init(lines)), Text.Last(lines)).serials;
  }

  /** From file to screen, cut anywhere on both ways: the user sees the fate of the serials that the server
      received. */
  lemma {:induction false} WhatTheUserSees(file: string, upload: seq<seq<ChunkedDecoding.Byte>>, response: seq<seq<ChunkedDecoding.Byte>>,
                                           quota: BulkImport.Quota, creations: seq<BulkImport.Creation>, production: bool, jobId: string)
    requires ChunkedDecoding.ConcatBytes(upload) == Utf8.EncodeAll(file)
    requires |CsvUpload.SerialsOf(BulkImport.Received(upload))| == |creations|
    requires ChunkedDecoding.ConcatBytes(response) == BulkImport.ResponseTo(upload, quota, creations, production, jobId)
    ensures var s := ShowAll(Opened, ProgressStream.Receive(Utf8.StreamChunks(response)));
            var serials := CsvUpload.SerialsOf(BulkImport.Received(upload));
            && !s.importing
            && (s.successes == 1 <==> Tried(serials, quota) && forall i :: 0 <= i < |serials| ==>
                  BulkImport.IsSerial(serials[i]) && creations[i].Created?)
            && (s.log == if Tried(serials, quota) then Latest(RowLines(serials, creations, production, |serials|)) else [])
  {
    var serials := CsvUpload.SerialsOf(BulkImport.Received(upload));
    BulkImport.UploadEndToEnd(file, upload, response, quota, creations, production, jobId);
    NoEmptySerial(BulkImport.Received(upload));
    ScreenAfterReport(serials, quota, creations, production, jobId);
  }
}
