/**
 The telemetry read model: three tables of the read database and what one batch of events does to
 them. `processed_events` holds the claimed event ids, `device_telemetry_latest` one row per device
 with a version counter, `device_telemetry_history` every accepted event under its event id.
 */
module TelemetryModel {
  import opened Wrappers

  /** A UUID is a 128-bit number; its canonical lower-case text sorts like the number. */
  type Uuid = nat

  /** How an id was spelled: in the text the database returns, in another one its cast accepts, or in one
      that only the service's parser accepts. */
  datatype Spelling = Canonical | Variant | Uncastable

  /** A parsed event. `storable` says that the uuid columns accept the text of its tenant. */
  datatype Event = Event(
    id: Uuid, spelling: Spelling, device: Uuid, tenant: string, storable: bool,
    temperature: real, humidity: real, recordedAt: int)

  datatype Reading = Reading(tenant: string, temperature: real, humidity: real, recordedAt: int)

  datatype Row = Row(reading: Reading, version: nat)

  /** The tables. History is a bag of rows; its primary key is checked where rows are added. */
  datatype Store = Store(claimed: set<Uuid>, latest: map<Uuid, Row>, history: multiset<Event>)

  const EmptyStore := Store({}, map[], multiset{})

  function ReadingOf(e: Event): Reading {
    Reading(e.tenant, e.temperature, e.humidity, e.recordedAt)
  }

  // ---------------------------------------------------------------- the upsert rule

  /** The row that the upsert leaves for a device: a first row has version 1, a row at least as new
      as the stored one overwrites it and adds one to the version, an older one changes nothing. */
  function UpsertRow(stored: Option<Row>, e: Event): Row {
    match stored
    case None => Row(ReadingOf(e), 1)
    case Some(row) =>
      if e.recordedAt >= row.reading.recordedAt then Row(ReadingOf(e), row.version + 1) else row
  }

  function Upsert(latest: map<Uuid, Row>, e: Event): map<Uuid, Row> {
    latest[e.device := UpsertRow(Lookup(latest, e.device), e)]
  }

  /** One-at-a-time reference: the events applied in order with the upsert rule. */
  function UpsertAll(latest: map<Uuid, Row>, events: seq<Event>): map<Uuid, Row> {
    if events == [] then latest
    else Upsert(UpsertAll(latest, events[..|events| - 1]), events[|events| - 1])
  }

  // ---------------------------------------------------------------- one batch

  /** The ids of the batch that are not claimed yet: what the claim statement returns. */
  function NewIds(claimed: set<Uuid>, batch: seq<Event>): set<Uuid> {
    set e | e in batch && e.id !in claimed :: e.id
  }

  /** The events of the batch whose id text is among the given returned ids. */
  function Matching(ids: set<Uuid>, batch: seq<Event>): seq<Event> {
    if batch == [] then []
    else
      var rest := Matching(ids, batch[..|batch| - 1]);
      var e := batch[|batch| - 1];
      if e.spelling.Canonical? && e.id in ids then rest + [e] else rest
  }

  function Fresh(claimed: set<Uuid>, batch: seq<Event>): seq<Event> {
    Matching(NewIds(claimed, batch), batch)
  }

  /** The event kept per device: a later event replaces the kept one unless it is strictly older. */
  function KeepLatest(events: seq<Event>): map<Uuid, Event> {
    if events == [] then map[]
    else
      var kept := KeepLatest(events[..|events| - 1]);
      var e := events[|events| - 1];
      if e.device !in kept || e.recordedAt >= kept[e.device].recordedAt then kept[e.device := e] else kept
  }

  /** The bulk upsert: every kept event meets the row stored before the statement. */
  function BulkUpsert(latest: map<Uuid, Row>, kept: map<Uuid, Event>): map<Uuid, Row> {
    map d | d in latest.Keys + kept.Keys ::
      if d in kept then UpsertRow(Lookup(latest, d), kept[d]) else latest[d]
  }

  predicate DistinctIds(events: seq<Event>) {
    forall i, j :: 0 <= i < j < |events| ==> events[i].id != events[j].id
  }

  predicate NoHistoryClash(history: multiset<Event>, events: seq<Event>) {
    forall e, h :: e in events && h in history ==> e.id != h.id
  }

  /** What the primary key of the history table demands of the copied rows. */
  predicate PrimaryKeyAllows(history: multiset<Event>, events: seq<Event>) {
    DistinctIds(events) && NoHistoryClash(history, events)
  }

  /** The database can cast the first ids of the batch. */
  predicate CastableUpTo(batch: seq<Event>, n: nat)
    requires n <= |batch|
  {
    forall i :: 0 <= i < n ==> !batch[i].spelling.Uncastable?
  }

  predicate Castable(batch: seq<Event>) {
    CastableUpTo(batch, |batch|)
  }

  predicate Storable(events: seq<Event>) {
    forall i :: 0 <= i < |events| ==> events[i].storable
  }

  /** What the history table demands of the copied rows. */
  predicate HistoryAccepts(history: multiset<Event>, events: seq<Event>) {
    Storable(events) && PrimaryKeyAllows(history, events)
  }

  /** The tables after the transaction of one batch commits; None when it rolls back, because the claim
      statement cannot cast an id, or a tenant does not fit its column, or the copy into the history table
      violates its primary key. */
  function ApplyBatch(store: Store, batch: seq<Event>): Option<Store> {
    var accepted := Fresh(store.claimed, batch);
    if Castable(batch) && HistoryAccepts(store.history, accepted) then
      Some(Store(
        store.claimed + NewIds(store.claimed, batch),
        BulkUpsert(store.latest, KeepLatest(accepted)),
        store.history + multiset(accepted)))
    else None
  }

  // ---------------------------------------------------------------- facts about the pieces

  lemma {:induction false} MatchingMembers(ids: set<Uuid>, batch: seq<Event>, e: Event)
    ensures e in Matching(ids, batch) <==> e in batch && e.spelling.Canonical? && e.id in ids
  {
    if batch != [] {
      MatchingMembers(ids, batch[..|batch| - 1], e);
      assert batch == batch[..|batch| - 1] + [batch[|batch| - 1]];
    }
  }

  /** The filter keeps the order of the batch. */
  lemma {:induction false} MatchingInOrder(ids: set<Uuid>, batch: seq<Event>) returns (at: seq<nat>)
    ensures |at| == |Matching(ids, batch)|
    ensures forall k :: 0 <= k < |at| ==> at[k] < |batch| && batch[at[k]] == Matching(ids, batch)[k]
    ensures forall k, l :: 0 <= k < l < |at| ==> at[k] < at[l]
  {
    if batch == [] {
      at := [];
    } else {
      var n := |batch| - 1;
      at := MatchingInOrder(ids, batch[..n]);
      if batch[n].spelling.Canonical? && batch[n].id in ids {
        at := at + [n];
      }
    }
  }

  function Devices(events: seq<Event>): set<Uuid> {
    set e | e in events :: e.device
  }

  /** Position `i` holds the last of the newest events of its device. */
  predicate IsLastNewest(events: seq<Event>, i: nat) {
    i < |events| &&
    forall j :: 0 <= j < |events| && events[j].device == events[i].device ==>
      events[j].recordedAt <= events[i].recordedAt &&
      (j > i ==> events[j].recordedAt < events[i].recordedAt)
  }

  /** KeepLatest keeps an event for exactly the devices that occur in the sequence. */
  lemma {:induction false} KeepLatestDevices(events: seq<Event>)
    ensures KeepLatest(events).Keys == Devices(events)
    ensures forall d :: d in KeepLatest(events) ==> KeepLatest(events)[d].device == d
  {
    if events != [] {
      var before, e := events[..|events| - 1], events[|events| - 1];
      KeepLatestDevices(before);
      assert events == before + [e];
      assert Devices(events) == Devices(before) + {e.device};
    }
  }

  /** The kept event of a device is the last of its newest events. */
  lemma {:induction false} KeepLatestIsLastNewest(events: seq<Event>, d: Uuid) returns (i: nat)
    requires d in KeepLatest(events)
    ensures IsLastNewest(events, i) && events[i] == KeepLatest(events)[d] && events[i].device == d
  {
    var n := |events| - 1;
    var before, e := events[..n], events[n];
    KeepLatestDevices(events);
    KeepLatestDevices(before);
    if d in KeepLatest(before) {
      i := KeepLatestIsLastNewest(before, d);
      if e.device == d && e.recordedAt >= before[i].recordedAt {
        i := n;
      }
    } else {
      i := n;
      forall j | 0 <= j < n ensures events[j].device != d {
        assert before[j] == events[j];
        assert before[j].device in Devices(before);
      }
    }
  }
}
