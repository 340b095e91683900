/**
 Telemetry messages: which payloads become events, what of a message an event carries, and that the
 tables end with the values the devices sent.
 */
module TelemetryMessages {
  import opened Wrappers
  import opened Collections
  import opened TelemetryModel
  import opened BatchProjection

  /** A decoded JSON payload; absent text fields are empty. */
  datatype Message = Message(
    eventType: string, eventId: string, dataDevice: string, aggregateId: string, occurredAt: string,
    temperature: Option<real>, humidity: Option<real>, tenant: string)

  /** UUID and time parsing of the service, and what the database accepts: id texts its cast takes and tenant
      texts that fit the uuid columns. */
  datatype Codec = Codec(
    uuid: string -> Option<Uuid>, text: Uuid -> string, instant: string -> Option<int>,
    castable: string -> bool, storable: string -> bool)

  function SpellingOf(codec: Codec, id: Uuid, text: string): Spelling {
    if codec.text(id) == text then Canonical else if codec.castable(text) then Variant else Uncastable
  }

  function OrZero(v: Option<real>): real {
    if v.Some? then v.value else 0.0
  }

  /** The event in a payload; None for whatever the handler skips. */
  function Decode(codec: Codec, payload: Option<Message>): Option<Event> {
    var m :- payload;
    if m.eventType != "telemetry.recorded" || m.eventId == "" then None
    else
      var id :- codec.uuid(m.eventId);
      var deviceText := if m.dataDevice == "" then m.aggregateId else m.dataDevice;
      if deviceText == "" then None
      else
        var device :- codec.uuid(deviceText);
        var at :- codec.instant(m.occurredAt);
        if m.tenant == "" then None
        else
          var spelling := SpellingOf(codec, id, m.eventId);
          Some(Event(id, spelling, device, m.tenant, codec.storable(m.tenant), OrZero(m.temperature), OrZero(m.humidity), at))
  }

  function Decoder(codec: Codec): Option<Message> -> Option<Event> {
    payload => Decode(codec, payload)
  }

  function DecodeAll(codec: Codec, payloads: seq<Option<Message>>): seq<Event> {
    Collect(Decoder(codec), payloads)
  }

  // ---------------------------------------------------------------- what an event carries

  /** The device of a message: the one in its data, or without one the aggregate. */
  predicate IsDevice(codec: Codec, m: Message, d: Uuid) {
    if m.dataDevice != "" then codec.uuid(m.dataDevice) == Some(d)
    else m.aggregateId != "" && codec.uuid(m.aggregateId) == Some(d)
  }

  /** A measured value, or zero where none was sent. */
  predicate Measures(sent: Option<real>, value: real) {
    sent == Some(value) || (sent.None? && value == 0.0)
  }

  predicate SpelledAs(codec: Codec, text: string, id: Uuid, spelling: Spelling) {
    && (spelling.Canonical? <==> codec.text(id) == text)
    && (spelling.Uncastable? ==> !codec.castable(text))
    && (spelling.Variant? ==> codec.castable(text))
  }

  /** The message is a telemetry record with a usable id, device, time and tenant, and the event is its
      content field by field. */
  predicate Records(codec: Codec, m: Message, e: Event) {
    && m.eventType == "telemetry.recorded"
    && m.eventId != "" && codec.uuid(m.eventId) == Some(e.id) && SpelledAs(codec, m.eventId, e.id, e.spelling)
    && IsDevice(codec, m, e.device) && codec.instant(m.occurredAt) == Some(e.recordedAt)
    && m.tenant != "" && e.tenant == m.tenant && e.storable == codec.storable(m.tenant)
    && Measures(m.temperature, e.temperature) && Measures(m.humidity, e.humidity)
  }

  /** A payload is decoded to an event if and only if it is a message that records that event. */
  lemma {:induction false} DecodedIffRecorded(codec: Codec, payload: Option<Message>, e: Event)
    ensures Decode(codec, payload) == Some(e) <==> payload.Some? && Records(codec, payload.value, e)
  {}

  /** The parsed batch is the recorded events of the payloads in their order; every payload left out records
      no event. */
  lemma {:induction false} DecodedInOrder(codec: Codec, payloads: seq<Option<Message>>) returns (at: seq<nat>)
    ensures |at| == |DecodeAll(codec, payloads)|
    ensures forall k :: 0 <= k < |at| ==>
              at[k] < |payloads| && payloads[at[k]].Some? && Records(codec, payloads[at[k]].value, DecodeAll(codec, payloads)[k])
    ensures forall k, l :: 0 <= k < l < |at| ==> at[k] < at[l]
    ensures forall i: nat :: i < |payloads| && i !in at && payloads[i].Some? ==>
              forall e :: !Records(codec, payloads[i].value, e)
  {
    at := CollectInOrder(Decoder(codec), payloads);
    forall i: nat, e | i < |payloads|
      ensures Decoder(codec)(payloads[i]) == Some(e) <==> payloads[i].Some? && Records(codec, payloads[i].value, e)
    {
      DecodedIffRecorded(codec, payloads[i], e);
    }
  }

  // ---------------------------------------------------------------- what the tables keep

  /** The reading is the one of the message. */
  predicate ReadFrom(codec: Codec, m: Message, d: Uuid, r: Reading) {
    && IsDevice(codec, m, d) && codec.instant(m.occurredAt) == Some(r.recordedAt) && r.tenant == m.tenant
    && Measures(m.temperature, r.temperature) && Measures(m.humidity, r.humidity)
  }

  /** Every row is the row of before or holds what some message of the batch sent for that device. */
  ghost predicate AsSent(codec: Codec, before: map<Uuid, Row>, payloads: seq<Option<Message>>, latest: map<Uuid, Row>) {
    forall d :: d in latest ==>
      || Lookup(before, d) == Some(latest[d])
      || exists i :: 0 <= i < |payloads| && payloads[i].Some? && ReadFrom(codec, payloads[i].value, d, latest[d].reading)
  }

  lemma {:induction false} RowsAreAsSent(codec: Codec, store: Store, payloads: seq<Option<Message>>)
    requires ApplyBatch(store, DecodeAll(codec, payloads)).Some?
    ensures AsSent(codec, store.latest, payloads, ApplyBatch(store, DecodeAll(codec, payloads)).value.latest)
  {
    var latest := ApplyBatch(store, DecodeAll(codec, payloads)).value.latest;
    forall d | d in latest
      ensures || Lookup(store.latest, d) == Some(latest[d])
              || exists i :: 0 <= i < |payloads| && payloads[i].Some? && ReadFrom(codec, payloads[i].value, d, latest[d].reading)
    {
      RowIsAsSent(codec, store, payloads, d);
    }
  }

  lemma {:induction false} RowIsAsSent(codec: Codec, store: Store, payloads: seq<Option<Message>>, d: Uuid)
    requires ApplyBatch(store, DecodeAll(codec, payloads)).Some? && d in ApplyBatch(store, DecodeAll(codec, payloads)).value.latest
    ensures var row := ApplyBatch(store, DecodeAll(codec, payloads)).value.latest[d];
            || Lookup(store.latest, d) == Some(row)
            || exists i :: 0 <= i < |payloads| && payloads[i].Some? && ReadFrom(codec, payloads[i].value, d, row.reading)
  {
    var batch := DecodeAll(codec, payloads);
    var events := Fresh(store.claimed, batch);
    KeepLatestDevices(events);
    if d in KeepLatest(events) {
      var k := KeepLatestIsLastNewest(events, d);
      MatchingMembers(NewIds(store.claimed, batch), batch, events[k]);
      var l :| 0 <= l < |batch| && batch[l] == events[k];
      var at := DecodedInOrder(codec, payloads);
      assert Records(codec, payloads[at[l]].value, events[k]);
    }
  }

  /** The message records a new event in canonical spelling for that device, with a tenant that fits. */
  predicate NewMessage(codec: Codec, store: Store, m: Message, d: Uuid) {
    && m.eventType == "telemetry.recorded" && m.eventId != "" && codec.uuid(m.eventId).Some?
    && codec.text(codec.uuid(m.eventId).value) == m.eventId && codec.uuid(m.eventId).value !in store.claimed
    && IsDevice(codec, m, d) && codec.instant(m.occurredAt).Some? && m.tenant != "" && codec.storable(m.tenant)
  }

  /** One new message on its own is claimed, copied and stored with exactly its values, unless the device has
      a newer reading; a first row has version 1, an overwritten one the next version. */
  lemma {:induction false} OneMessageIsStored(codec: Codec, store: Store, m: Message, d: Uuid)
    requires HistoryIds(store.history) <= store.claimed && NewMessage(codec, store, m, d)
    ensures var after := ApplyBatch(store, DecodeAll(codec, [Some(m)]));
            && after.Some? && after.value.claimed == store.claimed + {codec.uuid(m.eventId).value}
            && (exists e :: Records(codec, m, e) && after.value.history == store.history + multiset{e})
            && d in after.value.latest
            && (d in store.latest && store.latest[d].reading.recordedAt > codec.instant(m.occurredAt).value ==>
                  after.value.latest == store.latest)
            && (d !in store.latest || store.latest[d].reading.recordedAt <= codec.instant(m.occurredAt).value ==>
                  && ReadFrom(codec, m, d, after.value.latest[d].reading)
                  && after.value.latest[d].version == if d in store.latest then store.latest[d].version + 1 else 1)
  {
    var e := MessageDecodes(codec, m);
    OneEventIsStored(store, e);
  }

  lemma {:induction false} MessageDecodes(codec: Codec, m: Message) returns (e: Event)
    requires Decode(codec, Some(m)).Some?
    ensures DecodeAll(codec, [Some(m)]) == [e] && Records(codec, m, e)
  {
    var payloads := [Some(m)];
    assert payloads[..0] == [] && Collect(Decoder(codec), payloads[..0]) == [];
    e := Decode(codec, Some(m)).value;
    DecodedIffRecorded(codec, Some(m), e);
  }

  /** The table holds exactly the values of the one message of the batch, if that is new and its device too. */
  ghost predicate OneAsSent(codec: Codec, before: Store, payloads: seq<Option<Message>>, latest: map<Uuid, Row>) {
    |payloads| == 1 && payloads[0].Some? && HistoryIds(before.history) <= before.claimed ==>
      forall d :: NewMessage(codec, before, payloads[0].value, d) && d !in before.latest ==>
        d in latest && latest[d].version == 1 && ReadFrom(codec, payloads[0].value, d, latest[d].reading)
  }

  /** What a commit of the payloads leaves, in terms of the messages. */
  lemma {:induction false} StoredAsSent(codec: Codec, store: Store, payloads: seq<Option<Message>>)
    ensures AsSent(codec, store.latest, payloads, store.latest)
    ensures var after := ApplyBatch(store, DecodeAll(codec, payloads));
            after.Some? ==> AsSent(codec, store.latest, payloads, after.value.latest) && OneAsSent(codec, store, payloads, after.value.latest)
  {
    if ApplyBatch(store, DecodeAll(codec, payloads)).Some? {
      RowsAreAsSent(codec, store, payloads);
      if |payloads| == 1 && payloads[0].Some? && HistoryIds(store.history) <= store.claimed {
        assert payloads == [Some(payloads[0].value)];
        forall d | NewMessage(codec, store, payloads[0].value, d) && d !in store.latest
          ensures var after := ApplyBatch(store, DecodeAll(codec, payloads)).value;
                  && d in after.latest && after.latest[d].version == 1
                  && ReadFrom(codec, payloads[0].value, d, after.latest[d].reading)
        {
          OneMessageIsStored(codec, store, payloads[0].value, d);
        }
      }
    }
  }

  lemma {:induction false} OneEventIsStored(store: Store, e: Event)
    requires HistoryIds(store.history) <= store.claimed
    requires e.spelling.Canonical? && e.storable && e.id !in store.claimed
    ensures ApplyBatch(store, [e]) ==
              Some(Store(store.claimed + {e.id}, store.latest[e.device := UpsertRow(Lookup(store.latest, e.device), e)],
                         store.history + multiset{e}))
  {
    OneIsFresh(store.claimed, e);
    OneIsKept(store.latest, e);
    forall h | h in store.history ensures h.id != e.id {
      assert h.id in HistoryIds(store.history);
    }
  }

  lemma {:induction false} OneIsFresh(claimed: set<Uuid>, e: Event)
    requires e.spelling.Canonical? && e.id !in claimed
    ensures NewIds(claimed, [e]) == {e.id} && Fresh(claimed, [e]) == [e]
  {
    assert e in [e];
    assert [e][..0] == [];
    assert NewIds(claimed, [e]) == {e.id};
    assert Matching({e.id}, []) == [];
  }

  lemma {:induction false} OneIsKept(latest: map<Uuid, Row>, e: Event)
    ensures BulkUpsert(latest, KeepLatest([e])) == latest[e.device := UpsertRow(Lookup(latest, e.device), e)]
  {
    assert [e][..0] == [];
    assert KeepLatest([]) == map[];
    assert KeepLatest([e]) == map[e.device := e];
  }
}
