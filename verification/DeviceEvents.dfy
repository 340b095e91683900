/**
 The wire format of device events. The create transaction writes a small JSON object into the outbox,
 the relay turns it into an envelope and into the JSON of the event topic, and the saga orchestrator
 parses that again. A byte string is a protobuf envelope, a JSON text or neither.
 */
module DeviceEvents {
  import opened Wrappers

  /** The field names that occur, spelled as on the wire. */
  datatype Key =
    | event_id | eventId | event_type | eventType | aggregate_id | aggregateId | tenant_id | tenantId
    | occurred_at_unix_ms | occurredAt | payload | device_id | deviceId | serial | serial_number | created_at
    | command_type | correlation_id | occurred_at_ms | retry | reason | plan | limit | checked_at

  datatype Json = Text(text: string) | Number(number: int) | Flag(flag: bool) | Object(fields: map<Key, Json>)

  datatype Payload =
    | NoPayload
    | DeviceCreatedV1(deviceId: string, tenantId: string, serial: string, createdAt: string)

  datatype Envelope = Envelope(
    eventId: string, eventType: string, tenantId: string, aggregateId: string, occurredAtMs: int, payload: Payload)

  datatype Bytes = Protobuf(envelope: Envelope) | JsonText(json: Json) | Garbage

  // ---------------------------------------------------------------- reading JSON objects

  /** A missing text field decodes to the empty string. */
  function TextField(j: Json, key: Key): string {
    if j.Object? && key in j.fields && j.fields[key].Text? then j.fields[key].text else ""
  }

  function NumberField(j: Json, key: Key): int {
    if j.Object? && key in j.fields && j.fields[key].Number? then j.fields[key].number else 0
  }

  function ObjectField(j: Json, key: Key): Json {
    if j.Object? && key in j.fields && j.fields[key].Object? then j.fields[key] else Object(map[])
  }

  /** A value under a known key that has the wrong type makes the whole decoding fail. */
  predicate WellTyped(j: Json, texts: set<Key>, numbers: set<Key>, objects: set<Key>) {
    && j.Object?
    && (forall k :: k in texts && k in j.fields ==> j.fields[k].Text?)
    && (forall k :: k in numbers && k in j.fields ==> j.fields[k].Number?)
    && (forall k :: k in objects && k in j.fields ==> j.fields[k].Object?)
  }

  function FirstNonEmpty(values: seq<string>): string {
    if values == [] then "" else if values[0] != "" then values[0] else FirstNonEmpty(values[1..])
  }

  // ---------------------------------------------------------------- create transaction and relay

  /** What the create transaction stores in the outbox. */
  function CreatedRecord(deviceId: string, tenantId: string, serial: string, createdAt: string): Bytes {
    JsonText(Object(map[Key.device_id := Text(deviceId), Key.tenant_id := Text(tenantId),
                        Key.serial := Text(serial), Key.created_at := Text(createdAt)]))
  }

  /** The relay's decoder for device rows: a protobuf envelope as it is, or the small JSON object. */
  function DecodeEnvelope(eventId: string, eventType: string, payload: Bytes, nowMs: int): Option<Envelope> {
    if payload.Protobuf? then Some(payload.envelope)
    else if eventType == "device_created_v1" && payload.JsonText?
            && WellTyped(payload.json, {Key.device_id, Key.tenant_id, Key.serial, Key.created_at}, {}, {}) then
      var j := payload.json;
      Some(Envelope(eventId, "device_created_v1", TextField(j, Key.tenant_id), TextField(j, Key.device_id), nowMs,
                    DeviceCreatedV1(TextField(j, Key.device_id), TextField(j, Key.tenant_id),
                                    TextField(j, Key.serial), TextField(j, Key.created_at))))
    else None
  }

  /** The JSON published on the event topic. */
  function MarshalForKafka(eventType: string, env: Envelope): Option<Json> {
    if eventType == "device_created_v1" && env.payload.DeviceCreatedV1? then
      var p := env.payload;
      Some(Object(map[
        Key.event_id := Text(env.eventId), Key.event_type := Text(env.eventType),
        Key.aggregate_id := Text(env.aggregateId), Key.tenant_id := Text(env.tenantId),
        Key.occurred_at_unix_ms := Number(env.occurredAtMs),
        Key.payload := Object(map[
          Key.device_id := Text(p.deviceId), Key.tenant_id := Text(p.tenantId), Key.serial := Text(p.serial),
          Key.serial_number := Text(p.serial), Key.created_at := Text(p.createdAt)])]))
    else None
  }

  // ---------------------------------------------------------------- orchestrator

  const EnvelopeTexts := {
    Key.event_id, Key.eventId, Key.event_type, Key.eventType, Key.aggregate_id, Key.aggregateId,
    Key.tenant_id, Key.tenantId, Key.occurredAt}
  const PayloadTexts := {Key.device_id, Key.deviceId, Key.tenant_id, Key.tenantId, Key.serial, Key.created_at}

  /** The orchestrator's decoder. `nowMs` stands for a time that the message does not carry. */
  function ParseEnvelope(b: Bytes, nowMs: int): Option<Envelope> {
    if b.Protobuf? then Some(b.envelope)
    else if b.Garbage? then None
    else if !WellTyped(b.json, EnvelopeTexts, {Key.occurred_at_unix_ms}, {Key.payload})
            || !WellTyped(ObjectField(b.json, Key.payload), PayloadTexts, {}, {}) then None
    else
      var j, p := b.json, ObjectField(b.json, Key.payload);
      var eventType := FirstNonEmpty([TextField(j, Key.event_type), TextField(j, Key.eventType)]);
      if eventType == "" then None
      else
        var aggregate := FirstNonEmpty([TextField(j, Key.aggregate_id), TextField(j, Key.aggregateId),
                                        TextField(p, Key.device_id), TextField(p, Key.deviceId)]);
        var tenant := FirstNonEmpty([TextField(j, Key.tenant_id), TextField(j, Key.tenantId),
                                     TextField(p, Key.tenant_id), TextField(p, Key.tenantId)]);
        var at := NumberField(j, Key.occurred_at_unix_ms);
        Some(Envelope(
          FirstNonEmpty([TextField(j, Key.event_id), TextField(j, Key.eventId), aggregate + ":" + eventType]),
          eventType, tenant, aggregate, if at > 0 then at else nowMs,
          if eventType == "device_created_v1" then
            DeviceCreatedV1(FirstNonEmpty([TextField(p, Key.device_id), TextField(p, Key.deviceId), aggregate]),
                            FirstNonEmpty([TextField(p, Key.tenant_id), TextField(p, Key.tenantId), tenant]),
                            TextField(p, Key.serial), TextField(p, Key.created_at))
          else NoPayload))
  }

  /** No field whose absence would let a fallback in. */
  predicate Complete(env: Envelope) {
    && env.eventType == "device_created_v1" && env.payload.DeviceCreatedV1? && env.occurredAtMs > 0
    && env.eventId != "" && env.aggregateId != "" && env.tenantId != ""
    && env.payload.deviceId != "" && env.payload.tenantId != ""
  }

  /** What the relay publishes the orchestrator reads back unchanged. */
  lemma {:induction false} TopicRoundTrip(env: Envelope, nowMs: int)
    requires Complete(env)
    ensures MarshalForKafka("device_created_v1", env).Some?
    ensures ParseEnvelope(JsonText(MarshalForKafka("device_created_v1", env).value), nowMs) == Some(env)
  {
    var j := MarshalForKafka("device_created_v1", env).value;
    var p := ObjectField(j, Key.payload);
    assert p == j.fields[Key.payload];
    assert WellTyped(p, PayloadTexts, {}, {});
    assert WellTyped(j, EnvelopeTexts, {Key.occurred_at_unix_ms}, {Key.payload});
    assert TextField(j, Key.event_type) == env.eventType && TextField(j, Key.event_id) == env.eventId;
    assert TextField(j, Key.aggregate_id) == env.aggregateId && TextField(j, Key.tenant_id) == env.tenantId;
    assert NumberField(j, Key.occurred_at_unix_ms) == env.occurredAtMs;
    assert TextField(p, Key.device_id) == env.payload.deviceId && TextField(p, Key.tenant_id) == env.payload.tenantId;
    assert TextField(p, Key.serial) == env.payload.serial && TextField(p, Key.created_at) == env.payload.createdAt;
  }

  /** From the create transaction through outbox, relay and topic to the orchestrator: the saga sees
      the device, tenant, serial and creation time of the row, with the device as correlation id. */
  lemma {:induction false} CreatedSurvivesRelay(rowId: string, deviceId: string, tenantId: string, serial: string, createdAt: string,
                             relayMs: int, parseMs: int)
    requires rowId != "" && deviceId != "" && tenantId != "" && relayMs > 0
    ensures var env := DecodeEnvelope(rowId, "device_created_v1", CreatedRecord(deviceId, tenantId, serial, createdAt), relayMs);
            env.Some? && MarshalForKafka("device_created_v1", env.value).Some? &&
            ParseEnvelope(JsonText(MarshalForKafka("device_created_v1", env.value).value), parseMs) ==
              Some(Envelope(rowId, "device_created_v1", tenantId, deviceId, relayMs,
                            DeviceCreatedV1(deviceId, tenantId, serial, createdAt)))
  {
    var env := Envelope(rowId, "device_created_v1", tenantId, deviceId, relayMs,
                        DeviceCreatedV1(deviceId, tenantId, serial, createdAt));
    assert DecodeEnvelope(rowId, "device_created_v1", CreatedRecord(deviceId, tenantId, serial, createdAt), relayMs) == Some(env);
    TopicRoundTrip(env, parseMs);
  }
}
