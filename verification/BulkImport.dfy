/** The bulk import: what the rows of an uploaded file become, what the server reports, and what the
    dashboard sees of it. */
module BulkImport {
  import ChunkedDecoding
  import CsvUpload
  import FlatJson
  import ProgressStream
  import Text
  import Utf8

  const MAX_ROWS := 1000

  datatype Creation = Created | Failed(message: string)

  datatype Quota = Allowed | CheckFailed | Denied(message: string, currentCount: nat, maxDevices: nat, plan: string)

  datatype Event =
    | Row(total: nat, done: nat, errors: nat, current: string)
    | RowError(total: nat, done: nat, errors: nat, current: string, message: string)
    | Finished(total: nat, done: nat, errors: nat, jobId: string)
    | EmptyCsv
    | TooManyRows
    | LimitReached(message: string, currentCount: nat, maxDevices: nat, plan: string)

  datatype Status = JobFailed | Partial | Completed

  /** The JSON object of an event, field by field. */
  function ToObject(e: Event): (o: FlatJson.Object)
    ensures o != []
  {
    match e
    case Row(total, done, errors, current) =>
      [FlatJson.Field("total", FlatJson.Number(total)), FlatJson.Field("done", FlatJson.Number(done)), FlatJson.Field("errors", FlatJson.Number(errors)),
       FlatJson.Field("current", FlatJson.Text(current)), FlatJson.Field("status", FlatJson.Text("ok"))]
    case RowError(total, done, errors, current, message) =>
      [FlatJson.Field("total", FlatJson.Number(total)), FlatJson.Field("done", FlatJson.Number(done)), FlatJson.Field("errors", FlatJson.Number(errors)),
       FlatJson.Field("current", FlatJson.Text(current)), FlatJson.Field("status", FlatJson.Text("error")), FlatJson.Field("message", FlatJson.Text(message))]
    case Finished(total, done, errors, jobId) =>
      [FlatJson.Field("total", FlatJson.Number(total)), FlatJson.Field("done", FlatJson.Number(done)), FlatJson.Field("errors", FlatJson.Number(errors)),
       FlatJson.Field("jobId", FlatJson.Text(jobId)), FlatJson.Field("finished", FlatJson.True)]
    case EmptyCsv => [FlatJson.Field("error", FlatJson.Text("empty_csv"))]
    case TooManyRows => [FlatJson.Field("error", FlatJson.Text("too_many_rows")), FlatJson.Field("max", FlatJson.Number(MAX_ROWS))]
    case LimitReached(message, currentCount, maxDevices, plan) =>
      [FlatJson.Field("error", FlatJson.Text("device_limit_reached")), FlatJson.Field("message", FlatJson.Text(message)),
       FlatJson.Field("currentCount", FlatJson.Number(currentCount)), FlatJson.Field("maxDevices", FlatJson.Number(maxDevices)),
       FlatJson.Field("plan", FlatJson.Text(plan))]
  }

  function ToObjects(events: seq<Event>): (objects: seq<FlatJson.Object>)
    ensures |objects| == |events| && forall i :: 0 <= i < |events| ==> objects[i] == ToObject(events[i])
  {
    if events == [] then [] else ToObjects(events[..|events| - 1]) + [ToObject(events[|events| - 1])]
  }

  // ---------------------------------------------------------------- the rows

  predicate IsSerialChar(c: char) {
    'A' <= c <= 'Z' || 'a' <= c <= 'z' || '0' <= c <= '9' || c == '_' || c == '-'
  }

  predicate IsSerial(s: string) {
    3 <= |s| <= 64 && forall i :: 0 <= i < |s| ==> IsSerialChar(s[i])
  }

  predicate RowFails(serial: string, creation: Creation) {
    !IsSerial(serial) || creation.Failed?
  }

  function Message(serial: string, creation: Creation, production: bool): string {
    if production then "device_import_failed"
    else if !IsSerial(serial) then "invalid_serial_format"
    else if creation.Failed? then creation.message
    else ""
  }

  function FailedRows(serials: seq<string>, creations: seq<Creation>, n: nat): set<nat>
    requires n <= |serials| == |creations|
  {
    set i: nat | i < n && RowFails(serials[i], creations[i])
  }

  function RowEvent(serials: seq<string>, creations: seq<Creation>, production: bool, i: nat): Event
    requires i < |serials| == |creations|
  {
    var errors := |FailedRows(serials, creations, i + 1)|;
    if RowFails(serials[i], creations[i])
    then RowError(|serials|, i + 1, errors, serials[i], Message(serials[i], creations[i], production))
    else Row(|serials|, i + 1, errors, serials[i])
  }

  function RowEvents(serials: seq<string>, creations: seq<Creation>, production: bool, n: nat): seq<Event>
    requires n <= |serials| == |creations|
  {
    if n == 0 then [] else RowEvents(serials, creations, production, n - 1) + [RowEvent(serials, creations, production, n - 1)]
  }

  /** Everything the server emits for the serials of one upload. */
  function Report(serials: seq<string>, quota: Quota, creations: seq<Creation>, production: bool, jobId: string): seq<Event>
    requires |serials| == |creations|
  {
    if serials == [] then [EmptyCsv]
    else if |serials| > MAX_ROWS then [TooManyRows]
    else if quota.Denied? then [LimitReached(quota.message, quota.currentCount, quota.maxDevices, quota.plan)]
    else
      RowEvents(serials, creations, production, |serials|) +
      [Finished(|serials|, |serials|, |FailedRows(serials, creations, |serials|)|, jobId)]
  }

  lemma {:induction false} FailedRowsGrow(serials: seq<string>, creations: seq<Creation>, n: nat)
    requires n < |serials| == |creations|
    ensures |FailedRows(serials, creations, n + 1)| ==
            |FailedRows(serials, creations, n)| + (if RowFails(serials[n], creations[n]) then 1 else 0)
  {
    var before := FailedRows(serials, creations, n);
    if RowFails(serials[n], creations[n]) {
      assert FailedRows(serials, creations, n + 1) == before + {n};
    } else {
      assert FailedRows(serials, creations, n + 1) == before;
    }
  }

  lemma {:induction false} FailedRowsBound(serials: seq<string>, creations: seq<Creation>, n: nat)
    requires n <= |serials| == |creations|
    ensures |FailedRows(serials, creations, n)| <= n
    ensures |FailedRows(serials, creations, n)| == n <==> forall i :: 0 <= i < n ==> RowFails(serials[i], creations[i])
    ensures |FailedRows(serials, creations, n)| == 0 <==> forall i :: 0 <= i < n ==> !RowFails(serials[i], creations[i])
  {
    if n == 0 {
      assert FailedRows(serials, creations, 0) == {};
    } else {
      FailedRowsBound(serials, creations, n - 1);
      FailedRowsGrow(serials, creations, n - 1);
    }
  }

  /** What the import loop leaves: the events, the job's final status and its two counters. */
  method Import(serials: seq<string>, creations: seq<Creation>, production: bool, jobId: string)
    returns (events: seq<Event>, status: Status, successRows: nat, failedRows: nat)
    requires |serials| == |creations| && serials != []
    ensures events == RowEvents(serials, creations, production, |serials|) + [Finished(|serials|, |serials|, failedRows, jobId)]
    ensures failedRows == |FailedRows(serials, creations, |serials|)| && successRows + failedRows == |serials|
    ensures status == JobFailed <==> forall i :: 0 <= i < |serials| ==> RowFails(serials[i], creations[i])
    ensures status == Completed <==> forall i :: 0 <= i < |serials| ==> !RowFails(serials[i], creations[i])
  {
    var done, errors := 0, 0;
    events := [];
    while done < |serials|
      invariant 0 <= done <= |serials| && errors == |FailedRows(serials, creations, done)|
      invariant events == RowEvents(serials, creations, production, done)
    {
      FailedRowsGrow(serials, creations, done);
      var serial := serials[done];
      if !IsSerial(serial) || creations[done].Failed? {
        var message := if production then "device_import_failed"
                       else if !IsSerial(serial) then "invalid_serial_format"
                       else creations[done].message;
        errors := errors + 1;
        done := done + 1;
        events := events + [RowError(|serials|, done, errors, serial, message)];
      } else {
        done := done + 1;
        events := events + [Row(|serials|, done, errors, serial)];
      }
    }
    FailedRowsBound(serials, creations, |serials|);
    status := if errors == |serials| then JobFailed else if errors > 0 then Partial else Completed;
    successRows, failedRows := done - errors, errors;
    events := events + [Finished(|serials|, |serials|, errors, jobId)];
  }

  // ---------------------------------------------------------------- end to end

  /** The text the server makes of an uploaded file: the file itself if no chunk starts inside a character. */
  function Received(upload: seq<seq<ChunkedDecoding.Byte>>): string {
    Text.Concat(Utf8.DecodeChunks(upload))
  }

  /** Wherever upload and response are cut, the dashboard sees the report on the serials of the text that the
      server received, and that text is the file if and only if no chunk starts with a continuation byte. */
  lemma {:induction false} UploadEndToEnd(file: string, upload: seq<seq<ChunkedDecoding.Byte>>, response: seq<seq<ChunkedDecoding.Byte>>,
                                          quota: Quota, creations: seq<Creation>, production: bool, jobId: string)
    requires ChunkedDecoding.ConcatBytes(upload) == Utf8.EncodeAll(file)
    requires |CsvUpload.SerialsOf(Received(upload))| == |creations|
    requires ChunkedDecoding.ConcatBytes(response) == ResponseTo(upload, quota, creations, production, jobId)
    ensures Received(upload) == file <==> Utf8.CutBetweenCharacters(upload)
    ensures ProgressStream.Receive(Utf8.StreamChunks(response)) ==
            ToObjects(Report(CsvUpload.SerialsOf(Received(upload)), quota, creations, production, jobId))
  {
    CsvUpload.ByteChunks(file, upload);
    CsvUpload.ChunkingDoesNotMatter(Utf8.DecodeChunks(upload));
    ProgressStream.StreamBytes(ToObjects(Report(CsvUpload.SerialsOf(Received(upload)), quota, creations, production, jobId)), response);
  }

  /** The bytes of the response: the events on the serials that the reader collected, framed and encoded. */
  function ResponseTo(upload: seq<seq<ChunkedDecoding.Byte>>, quota: Quota, creations: seq<Creation>, production: bool,
                      jobId: string): seq<ChunkedDecoding.Byte>
    requires |CsvUpload.SerialsOf(Received(upload))| == |creations|
  {
    CsvUpload.ChunkingDoesNotMatter(Utf8.DecodeChunks(upload));
    Utf8.EncodeAll(ProgressStream.EmitAll(ToObjects(
      Report(CsvUpload.Upload(Utf8.DecodeChunks(upload)), quota, creations, production, jobId))))
  }

  /** The report ends with the one event that stops the dashboard's spinner. */
  predicate Stops(e: Event) {
    e.Finished? || e.EmptyCsv? || e.TooManyRows? || e.LimitReached?
  }

  lemma {:induction false} RowEventsAt(serials: seq<string>, creations: seq<Creation>, production: bool, n: nat, i: nat)
    requires i < n <= |serials| == |creations|
    ensures |RowEvents(serials, creations, production, n)| == n
    ensures RowEvents(serials, creations, production, n)[i] == RowEvent(serials, creations, production, i)
  {
    if i < n - 1 {
      RowEventsAt(serials, creations, production, n - 1, i);
    } else if n > 1 {
      RowEventsAt(serials, creations, production, n - 1, 0);
    }
  }

  lemma {:induction false} ReportStopsOnce(serials: seq<string>, quota: Quota, creations: seq<Creation>, production: bool, jobId: string)
    requires |serials| == |creations|
    ensures var report := Report(serials, quota, creations, production, jobId);
            report != [] && forall i :: 0 <= i < |report| ==> (Stops(report[i]) <==> i == |report| - 1)
  {
    var report := Report(serials, quota, creations, production, jobId);
    if 0 < |serials| <= MAX_ROWS && !quota.Denied? {
      RowEventsAt(serials, creations, production, |serials|, 0);
      forall i: nat | i < |report| - 1 ensures !Stops(report[i]) {
        RowEventsAt(serials, creations, production, |serials|, i);
      }
    }
  }
}
