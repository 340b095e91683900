/**
 The messages between orchestrator, recovery worker and asset registry as they travel. Commands and
 replies are JSON; what the registry reads of a command and what the orchestrator reads of its reply is
 what was meant, so that the saga may be told over commands and events instead of bytes.
 */
module SagaMessages {
  import opened Wrappers
  import opened DeviceEvents
  import opened SagaModel

  // ---------------------------------------------------------------- commands

  function CommandType(c: Command): string {
    match c
    case Attach(_, _, _) => "tenant.attach_device"
    case Allocate(_, _, _) => "quota.allocate_device"
    case Detach(_, _, _) => "tenant.detach_device"
  }

  /** A command as the orchestrator publishes it. */
  function CommandBytes(c: Command, atMs: int): Bytes {
    JsonText(Object(map[
      Key.command_type := Text(CommandType(c)), Key.correlation_id := Text(c.corr), Key.device_id := Text(c.device),
      Key.tenant_id := Text(c.tenant), Key.occurred_at_ms := Number(atMs)]))
  }

  function RetryFields(kind: string, corr: string, device: string): map<Key, Json> {
    map[Key.command_type := Text(kind), Key.correlation_id := Text(corr), Key.device_id := Text(device),
        Key.retry := Flag(true)]
  }

  /** What the recovery worker publishes for a stuck row. Only the attach command has a tenant field. */
  function RetryBytes(corr: string, saga: Saga): Option<Bytes> {
    match saga.status
    case InProgress =>
      (match saga.step
       case TenantAttached =>
         Some(JsonText(Object(RetryFields("tenant.attach_device", corr, saga.device)[Key.tenant_id := Text(saga.tenant)])))
       case QuotaAllocated => Some(JsonText(Object(RetryFields("quota.allocate_device", corr, saga.device))))
       case DeviceCreated => None)
    case Compensating => Some(JsonText(Object(RetryFields("tenant.detach_device", corr, saga.device))))
    case _ => None
  }

  /** The registry's reader: four text fields, empty where they are missing, and the type decides. */
  function ReadCommand(b: Bytes): Option<Command> {
    if !b.JsonText? || !b.json.Object? then None
    else
      var kind, corr := TextField(b.json, Key.command_type), TextField(b.json, Key.correlation_id);
      var device, tenant := TextField(b.json, Key.device_id), TextField(b.json, Key.tenant_id);
      if kind == "tenant.attach_device" then Some(Attach(corr, device, tenant))
      else if kind == "quota.allocate_device" then Some(Allocate(corr, device, tenant))
      else if kind == "tenant.detach_device" then Some(Detach(corr, device, tenant))
      else None
  }

  lemma {:induction false} CommandArrives(c: Command, atMs: int)
    ensures ReadCommand(CommandBytes(c, atMs)) == Some(c)
  {
    var j := CommandBytes(c, atMs).json;
    assert TextField(j, Key.command_type) == CommandType(c) && TextField(j, Key.correlation_id) == c.corr;
    assert TextField(j, Key.device_id) == c.device && TextField(j, Key.tenant_id) == c.tenant;
  }

  lemma {:induction false} RetryFieldsRead(kind: string, corr: string, device: string)
    ensures var j := Object(RetryFields(kind, corr, device));
            && TextField(j, Key.command_type) == kind && TextField(j, Key.correlation_id) == corr
            && TextField(j, Key.device_id) == device && TextField(j, Key.tenant_id) == ""
  {}

  /** A retry reads as the retry command of the row; the tenant it lacks reads as the empty one. */
  lemma {:induction false} RetryArrives(corr: string, saga: Saga)
    ensures RetryBytes(corr, saga).Some? <==> RetryCommand(corr, saga).Some?
    ensures RetryBytes(corr, saga).Some? ==> ReadCommand(RetryBytes(corr, saga).value) == RetryCommand(corr, saga)
  {
    if saga.status == Compensating {
      RetryFieldsRead("tenant.detach_device", corr, saga.device);
    } else if saga.status == InProgress && saga.step == QuotaAllocated {
      RetryFieldsRead("quota.allocate_device", corr, saga.device);
    } else if saga.status == InProgress && saga.step == TenantAttached {
      RetryFieldsRead("tenant.attach_device", corr, saga.device);
      var j := RetryBytes(corr, saga).value.json;
      assert TextField(j, Key.command_type) == "tenant.attach_device" && TextField(j, Key.correlation_id) == corr;
      assert TextField(j, Key.device_id) == saga.device && TextField(j, Key.tenant_id) == saga.tenant;
    }
  }

  // ---------------------------------------------------------------- replies

  function EventType(e: Event): string {
    match e
    case Created(_, _, _) => "device_created_v1"
    case Attached(_, _) => "tenant_attached_v1"
    case Allocated(_, _) => "quota_allocated_v1"
    case QuotaFailed(_, _) => "quota_allocation_failed_v1"
    case Detached(_, _) => "tenant_detached_v1"
  }

  /** What a granted quota reports beside device and tenant. */
  datatype Grant = Grant(plan: string, limit: int, checkedAt: string)

  function ReplyPayload(e: Event, device: string, grant: Grant): map<Key, Json> {
    var fields := map[Key.device_id := Text(device), Key.tenant_id := Text(e.tenant)];
    if e.QuotaFailed? then fields[Key.reason := Text("device_quota_exceeded")]
    else if e.Allocated? then
      fields[Key.plan := Text(grant.plan)][Key.limit := Number(grant.limit)][Key.checked_at := Text(grant.checkedAt)]
    else fields
  }

  /** An event as the registry publishes it. */
  function ReplyBytes(e: Event, device: string, grant: Grant, atMs: int): Bytes {
    JsonText(Object(map[
      Key.event_id := Text(e.corr + "-" + EventType(e)), Key.event_type := Text(EventType(e)),
      Key.aggregate_id := Text(e.corr), Key.tenant_id := Text(e.tenant), Key.occurred_at_unix_ms := Number(atMs),
      Key.payload := Object(ReplyPayload(e, device, grant))]))
  }

  /** What the orchestrator makes of a message on the event topic. */
  function Heard(b: Bytes, nowMs: int): Option<Event> {
    var env :- ParseEnvelope(b, nowMs);
    Route(env)
  }

  lemma {:induction false} OneOrTheOther(a: string, b: string)
    ensures FirstNonEmpty([a, "", b, ""]) == if a != "" then a else b
  {
    assert [a, "", b, ""][1..] == ["", b, ""] && ["", b, ""][1..] == [b, ""];
    assert [b, ""][1..] == [""] && [""][1..] == [];
    assert FirstNonEmpty([]) == "" && FirstNonEmpty([""]) == "" && FirstNonEmpty([b, ""]) == b;
    assert FirstNonEmpty(["", b, ""]) == b;
  }

  lemma {:induction false} PayloadReads(e: Event, device: string, grant: Grant)
    ensures var p := Object(ReplyPayload(e, device, grant));
            && WellTyped(p, PayloadTexts, {}, {})
            && TextField(p, Key.device_id) == device && TextField(p, Key.tenant_id) == e.tenant
            && TextField(p, Key.deviceId) == "" && TextField(p, Key.tenantId) == ""
  {}

  lemma {:induction false} EnvelopeReads(e: Event, device: string, grant: Grant, atMs: int)
    ensures var j := ReplyBytes(e, device, grant, atMs).json;
            && WellTyped(j, EnvelopeTexts, {Key.occurred_at_unix_ms}, {Key.payload})
            && ObjectField(j, Key.payload) == Object(ReplyPayload(e, device, grant))
            && TextField(j, Key.event_type) == EventType(e) && TextField(j, Key.eventType) == ""
            && TextField(j, Key.aggregate_id) == e.corr && TextField(j, Key.aggregateId) == ""
            && TextField(j, Key.tenant_id) == e.tenant && TextField(j, Key.tenantId) == ""
  {}

  /** Every reply reaches its handler as the event it is; an empty correlation id falls back to the device. */
  lemma {:induction false} ReplyArrives(e: Event, device: string, grant: Grant, atMs: int, nowMs: int)
    requires !e.Created?
    ensures Heard(ReplyBytes(e, device, grant, atMs), nowMs) == Some(if e.corr != "" then e else e.(corr := device))
  {
    PayloadReads(e, device, grant);
    EnvelopeReads(e, device, grant, atMs);
    OneOrTheOther(e.corr, device);
    OneOrTheOther(e.tenant, e.tenant);
    assert FirstNonEmpty([EventType(e), ""]) == EventType(e);
  }

  // ---------------------------------------------------------------- the registry between its topics

  /** From the bytes of a command to the bytes of its reply; None for what it drops or fails on. */
  function Serve(devices: map<string, Device>, limits: map<string, int>, b: Bytes, grant: Grant, atMs: int): Option<Bytes> {
    var c :- ReadCommand(b);
    var e :- Reply(devices, limits, c);
    Some(ReplyBytes(e, c.device, grant, atMs))
  }

  /** What the orchestrator hears of a command it or the recovery worker published. */
  function Answer(devices: map<string, Device>, limits: map<string, int>, b: Bytes, grant: Grant, atMs: int, nowMs: int): Option<Event> {
    var reply :- Serve(devices, limits, b, grant, atMs);
    Heard(reply, nowMs)
  }

  /** A command without a correlation id is answered under its device. */
  function Correlated(c: Command): Command {
    if c.corr != "" then c else c.(corr := c.device)
  }

  lemma {:induction false} AnswerIsReply(devices: map<string, Device>, limits: map<string, int>, b: Bytes, c: Command,
                                         grant: Grant, atMs: int, nowMs: int)
    requires ReadCommand(b) == Some(c)
    ensures Answer(devices, limits, b, grant, atMs, nowMs) == Reply(devices, limits, Correlated(c))
  {
    var e := Reply(devices, limits, c);
    if e.Some? {
      ReplyArrives(e.value, c.device, grant, atMs, nowMs);
    }
  }

  /** Over the wire and back: the orchestrator hears exactly the reply that the registry gives to the command,
      and to the command of a stuck row, or nothing where there is no reply. */
  lemma {:induction false} WireKeepsTheExchange(devices: map<string, Device>, limits: map<string, int>, c: Command,
                                                corr: string, saga: Saga, grant: Grant, sentMs: int, atMs: int, nowMs: int)
    ensures Answer(devices, limits, CommandBytes(c, sentMs), grant, atMs, nowMs) == Reply(devices, limits, Correlated(c))
    ensures RetryBytes(corr, saga).Some? ==>
              RetryCommand(corr, saga).Some?
              && Answer(devices, limits, RetryBytes(corr, saga).value, grant, atMs, nowMs) ==
                 Reply(devices, limits, Correlated(RetryCommand(corr, saga).value))
  {
    CommandArrives(c, sentMs);
    AnswerIsReply(devices, limits, CommandBytes(c, sentMs), c, grant, atMs, nowMs);
    RetryArrives(corr, saga);
    if RetryBytes(corr, saga).Some? {
      AnswerIsReply(devices, limits, RetryBytes(corr, saga).value, RetryCommand(corr, saga).value, grant, atMs, nowMs);
    }
  }
}
