/**
 The provisioning saga: the orchestrator's event handlers call by call, the asset registry's command
 handlers, and the commands the recovery worker issues again. Every database or broker call may work,
 fail, or fail after it took effect.
 */
module SagaModel {
  import opened Wrappers
  import opened DeviceEvents

  datatype Status = Started | InProgress | Compensating | Completed | Failed
  datatype Step = DeviceCreated | TenantAttached | QuotaAllocated

  /** A row of the sagas table; device and tenant come from its stored payload. */
  datatype Saga = Saga(status: Status, step: Step, device: string, tenant: string)

  /** The table, keyed by its unique correlation id. */
  type Sagas = map<string, Saga>

  datatype Event =
    | Created(corr: string, device: string, tenant: string)
    | Attached(corr: string, tenant: string)
    | Allocated(corr: string, tenant: string)
    | QuotaFailed(corr: string, tenant: string)
    | Detached(corr: string, tenant: string)

  datatype Command =
    | Attach(corr: string, device: string, tenant: string)
    | Allocate(corr: string, device: string, tenant: string)
    | Detach(corr: string, device: string, tenant: string)

  datatype Outcome = Works | Fails | FailsAfterEffect

  /** How the orchestrator routes an envelope; None for whatever it ignores. */
  function Route(env: Envelope): Option<Event> {
    if env.payload.DeviceCreatedV1? then
      Some(Created(if env.aggregateId == "" then env.payload.deviceId else env.aggregateId,
                   env.payload.deviceId, env.payload.tenantId))
    else if env.eventType == "tenant_attached_v1" then Some(Attached(env.aggregateId, env.tenantId))
    else if env.eventType == "quota_allocated_v1" then Some(Allocated(env.aggregateId, env.tenantId))
    else if env.eventType == "quota_allocation_failed_v1" then Some(QuotaFailed(env.aggregateId, env.tenantId))
    else if env.eventType == "tenant_detached_v1" then Some(Detached(env.aggregateId, env.tenantId))
    else None
  }

  /** The row of the create transaction reaches the saga handler as the creation of that device, with
      the device id as correlation id. */
  lemma {:induction false} CreatedRowStartsSaga(rowId: string, deviceId: string, tenantId: string, serial: string, createdAt: string,
                             relayMs: int, parseMs: int)
    requires rowId != "" && deviceId != "" && tenantId != "" && relayMs > 0
    ensures var env := DecodeEnvelope(rowId, "device_created_v1", CreatedRecord(deviceId, tenantId, serial, createdAt), relayMs);
            env.Some? && MarshalForKafka("device_created_v1", env.value).Some? &&
            var got := ParseEnvelope(JsonText(MarshalForKafka("device_created_v1", env.value).value), parseMs);
            got.Some? && Route(got.value) == Some(Created(deviceId, deviceId, tenantId))
  {
    CreatedSurvivesRelay(rowId, deviceId, tenantId, serial, createdAt, relayMs, parseMs);
  }

  // ---------------------------------------------------------------- orchestrator

  /** Where the handling of one event stands: the call it is about to make. */
  datatype Work =
    | Finding(event: Event)
    | Creating(event: Event)
    | Publishing(corr: string, command: Command, status: Status, step: Step)
    | Updating(corr: string, status: Status, step: Step)
    | Failing(corr: string)
    | Finished(ok: bool)

  function SetStatus(sagas: Sagas, corr: string, status: Status, step: Step): Sagas {
    if corr in sagas then sagas[corr := sagas[corr].(status := status, step := step)] else sagas
  }

  function MarkFailed(sagas: Sagas, corr: string): Sagas {
    if corr in sagas then sagas[corr := sagas[corr].(status := Failed)] else sagas
  }

  /** What follows the lookup by correlation id. A saga that exists makes a creation a duplicate; a
      saga that is missing makes every other event an error. */
  function AfterFind(sagas: Sagas, e: Event): Work {
    match e
    case Created(c, _, _) => if c in sagas then Finished(true) else Creating(e)
    case Attached(c, t) => if c in sagas then Publishing(c, Allocate(c, c, t), InProgress, QuotaAllocated) else Finished(false)
    case Allocated(c, t) => if c in sagas then Updating(c, Completed, QuotaAllocated) else Finished(false)
    case QuotaFailed(c, t) => if c in sagas then Publishing(c, Detach(c, c, t), Compensating, TenantAttached) else Finished(false)
    case Detached(c, t) => if c in sagas then Updating(c, Failed, DeviceCreated) else Finished(false)
  }

  /** One call of the handler: what comes next, the table, and the command it put on the topic. */
  function Advance(sagas: Sagas, w: Work, o: Outcome): (Work, Sagas, Option<Command>) {
    match w
    case Finding(e) => if o.Works? then (AfterFind(sagas, e), sagas, None) else (Finished(false), sagas, None)
    case Creating(e) =>
      if e.Created? && e.corr !in sagas && !o.Fails? then
        (if o.Works? then Publishing(e.corr, Attach(e.corr, e.device, e.tenant), InProgress, TenantAttached) else Finished(false),
         sagas[e.corr := Saga(Started, DeviceCreated, e.device, e.tenant)], None)
      else (Finished(false), sagas, None)
    case Publishing(c, command, status, step) =>
      (if o.Works? then Updating(c, status, step) else Failing(c), sagas, if o.Fails? then None else Some(command))
    case Updating(c, status, step) =>
      (Finished(o.Works?), if o.Fails? then sagas else SetStatus(sagas, c, status, step), None)
    case Failing(c) => (Finished(false), if o.Fails? then sagas else MarkFailed(sagas, c), None)
    case Finished(_) => (w, sagas, None)
  }

  function CallsLeft(w: Work): nat {
    match w
    case Finding(_) => 4
    case Creating(_) => 3
    case Publishing(_, _, _, _) => 2
    case Updating(_, _, _) => 1
    case Failing(_) => 1
    case Finished(_) => 0
  }

  lemma {:induction false} AdvanceFinishesSooner(sagas: Sagas, w: Work, o: Outcome)
    requires !w.Finished?
    ensures CallsLeft(Advance(sagas, w, o).0) < CallsLeft(w)
  {}

  /** One whole attempt at an event with nobody in between: table, commands published, success. */
  function Attempt(sagas: Sagas, w: Work, os: seq<Outcome>): (Sagas, seq<Command>, bool)
    requires |os| >= CallsLeft(w)
    decreases CallsLeft(w)
  {
    if w.Finished? then (sagas, [], w.ok)
    else
      AdvanceFinishesSooner(sagas, w, os[0]);
      var (w', sagas', sent) := Advance(sagas, w, os[0]);
      var (sagas'', commands, ok) := Attempt(sagas', w', os[1..]);
      (sagas'', (if sent.Some? then [sent.value] else []) + commands, ok)
  }

  /** One attempt publishes at most one command, and only the command its event calls for. */
  predicate Answers(e: Event, c: Command) {
    match e
    case Created(corr, d, t) => c == Attach(corr, d, t)
    case Attached(corr, t) => c == Allocate(corr, corr, t)
    case QuotaFailed(corr, t) => c == Detach(corr, corr, t)
    case _ => false
  }

  /** The event meets its saga where it should: a creation none, every other event its own. */
  predicate Expected(sagas: Sagas, e: Event) {
    e.Created? <==> e.corr !in sagas
  }

  /** The call that publishes the command of the event. */
  function PublishingCall(e: Event): nat {
    if e.Created? then 2 else 1
  }

  /** One attempt publishes at most one command. It publishes a command if and only if that is the command its
      event calls for, the event meets its saga, the calls before work and the publication does not fail. */
  lemma {:induction false} PublishedIff(sagas: Sagas, e: Event, os: seq<Outcome>, c: Command)
    requires |os| >= 4
    ensures |Attempt(sagas, Finding(e), os).1| <= 1
    ensures c in Attempt(sagas, Finding(e), os).1 <==>
              && Answers(e, c) && Expected(sagas, e) && os[0].Works? && (e.Created? ==> os[1].Works?)
              && !os[PublishingCall(e)].Fails?
  {
    if os[0].Works? {
      FindingContinues(sagas, e, os);
      var w1 := AfterFind(sagas, e);
      if w1.Creating? {
        CreationPublishes(sagas, e, os[1..]);
      } else if w1.Publishing? {
        PublishingEnds(sagas, w1, os[1..]);
      } else {
        LastCallIsQuiet(sagas, w1, os[1..]);
      }
    } else {
      LookupFails(sagas, e, os);
    }
  }

  /** The (status, step) that a working attempt leaves. */
  predicate Reaches(e: Event, saga: Saga) {
    match e
    case Created(_, _, _) => saga.status == InProgress && saga.step == TenantAttached
    case Attached(_, _) => saga.status == InProgress && saga.step == QuotaAllocated
    case Allocated(_, _) => saga.status == Completed && saga.step == QuotaAllocated
    case QuotaFailed(_, _) => saga.status == Compensating && saga.step == TenantAttached
    case Detached(_, _) => saga.status == Failed && saga.step == DeviceCreated
  }

  predicate AllWork(os: seq<Outcome>) {
    forall i :: 0 <= i < |os| ==> os[i].Works?
  }

  /** An attempt whose calls all work brings the saga of its event to the next step, keeps its device and
      tenant (a creation records those of the event), and leaves all other sagas alone. A repeated creation
      changes nothing and succeeds; an event without its saga changes nothing and fails. */
  lemma {:induction false} WorkingAttempt(sagas: Sagas, e: Event, os: seq<Outcome>)
    requires |os| >= 4 && AllWork(os)
    ensures var (sagas', sent, ok) := Attempt(sagas, Finding(e), os);
            if Expected(sagas, e) then
              && ok && e.corr in sagas' && Reaches(e, sagas'[e.corr]) && sagas' == sagas[e.corr := sagas'[e.corr]]
              && (if e.Created? then sagas'[e.corr].device == e.device && sagas'[e.corr].tenant == e.tenant
                  else sagas'[e.corr].device == sagas[e.corr].device && sagas'[e.corr].tenant == sagas[e.corr].tenant)
            else sagas' == sagas && sent == [] && ok == e.Created?
  {
    FindingContinues(sagas, e, os);
    var w1 := AfterFind(sagas, e);
    if w1.Creating? {
      CreationWorks(sagas, e, os[1..]);
    } else if w1.Publishing? {
      PublishingEnds(sagas, w1, os[1..]);
    } else if w1.Updating? {
      UpdatingEnds(sagas, w1, os[1..]);
    }
  }

  lemma {:induction false} LookupFails(sagas: Sagas, e: Event, os: seq<Outcome>)
    requires |os| >= 4 && !os[0].Works?
    ensures Attempt(sagas, Finding(e), os) == (sagas, [], false)
  {
    var none: seq<Command> := [];
    assert Advance(sagas, Finding(e), os[0]) == (Finished(false), sagas, None);
    assert Attempt(sagas, Finished(false), os[1..]) == (sagas, none, false);
    assert none + none == none;
  }

  lemma {:induction false} FindingContinues(sagas: Sagas, e: Event, os: seq<Outcome>)
    requires |os| >= 4 && os[0].Works?
    ensures Attempt(sagas, Finding(e), os) == Attempt(sagas, AfterFind(sagas, e), os[1..])
  {
    assert [] + Attempt(sagas, AfterFind(sagas, e), os[1..]).1 == Attempt(sagas, AfterFind(sagas, e), os[1..]).1;
  }

  lemma {:induction false} UpdatingEnds(sagas: Sagas, w: Work, os: seq<Outcome>)
    requires w.Updating? && |os| >= 1
    ensures Attempt(sagas, w, os) ==
              (if os[0].Fails? then sagas else SetStatus(sagas, w.corr, w.status, w.step), [], os[0].Works?)
  {
    var (w', sagas', _) := Advance(sagas, w, os[0]);
    assert Attempt(sagas', w', os[1..]) == (sagas', [], os[0].Works?);
    assert [] + Attempt(sagas', w', os[1..]).1 == [];
  }

  lemma {:induction false} LastCallIsQuiet(sagas: Sagas, w: Work, os: seq<Outcome>)
    requires CallsLeft(w) <= 1 <= |os|
    ensures Attempt(sagas, w, os).1 == []
  {}

  lemma {:induction false} LastCall(sagas: Sagas, w: Work, os: seq<Outcome>)
    requires (w.Updating? || w.Failing?) && |os| >= 1
    ensures Attempt(sagas, w, os) == (Advance(sagas, w, os[0]).1, [], w.Updating? && os[0].Works?)
  {
    var (w', sagas', _) := Advance(sagas, w, os[0]);
    assert Attempt(sagas', w', os[1..]) == (sagas', [], w'.ok);
    assert [] + Attempt(sagas', w', os[1..]).1 == [];
  }

  /** The end of an attempt, written out: publish, then update the row or mark it failed. */
  lemma {:induction false} PublishingEnds(sagas: Sagas, w: Work, os: seq<Outcome>)
    requires w.Publishing? && |os| >= 2
    ensures Attempt(sagas, w, os).0 ==
              if os[1].Fails? then sagas
              else if os[0].Works? then SetStatus(sagas, w.corr, w.status, w.step) else MarkFailed(sagas, w.corr)
    ensures Attempt(sagas, w, os).1 == if os[0].Fails? then [] else [w.command]
    ensures Attempt(sagas, w, os).2 <==> os[0].Works? && os[1].Works?
  {
    var (w', sagas', sent) := Advance(sagas, w, os[0]);
    LastCall(sagas', w', os[1..]);
    assert os[1..][0] == os[1];
  }

  lemma {:induction false} CreationPublishes(sagas: Sagas, e: Event, os: seq<Outcome>)
    requires e.Created? && |os| >= 3
    ensures Attempt(sagas, Creating(e), os).1 ==
              if e.corr !in sagas && os[0].Works? && !os[1].Fails? then [Attach(e.corr, e.device, e.tenant)] else []
  {
    var (w', sagas', _) := Advance(sagas, Creating(e), os[0]);
    if w'.Publishing? {
      PublishingEnds(sagas', w', os[1..]);
      assert os[1..][0] == os[1];
    } else {
      assert Attempt(sagas', w', os[1..]) == (sagas', [], false);
    }
  }

  lemma {:induction false} CreationWorks(sagas: Sagas, e: Event, os: seq<Outcome>)
    requires e.Created? && e.corr !in sagas && |os| >= 3 && AllWork(os)
    ensures Attempt(sagas, Creating(e), os).0 == sagas[e.corr := Saga(InProgress, TenantAttached, e.device, e.tenant)]
    ensures Attempt(sagas, Creating(e), os).2
  {
    var (w', sagas', _) := Advance(sagas, Creating(e), os[0]);
    PublishingEnds(sagas', w', os[1..]);
    assert os[1..][0] == os[1] && os[1..][1] == os[2];
  }

  // ---------------------------------------------------------------- asset registry

  datatype Device = Device(tenant: string, serial: string)

  function DevicesOf(devices: map<string, Device>, tenant: string): set<string> {
    set d | d in devices && devices[d].tenant == tenant
  }

  const UNLIMITED := -1

  /** The event the registry publishes for a command; None when handling ends in an error. The tenant
      of an attach is the stored one; a quota check counts all devices of the tenant. */
  function Reply(devices: map<string, Device>, limits: map<string, int>, c: Command): Option<Event> {
    match c
    case Attach(corr, d, _) => if d in devices then Some(Attached(corr, devices[d].tenant)) else None
    case Allocate(corr, _, t) =>
      if t == "" || t !in limits then None
      else if limits[t] != UNLIMITED && |DevicesOf(devices, t)| > limits[t] then Some(QuotaFailed(corr, t))
      else Some(Allocated(corr, t))
    case Detach(corr, _, t) => if t == "" then None else Some(Detached(corr, t))
  }

  /** A detach deletes the device if the command names its tenant; an empty tenant is a query error. */
  function DevicesAfter(devices: map<string, Device>, c: Command): map<string, Device> {
    if c.Detach? && c.tenant != "" && c.device in devices && devices[c.device].tenant == c.tenant
    then devices - {c.device} else devices
  }

  // ---------------------------------------------------------------- recovery

  /** The command issued again for a stuck saga. Only the attach command carries the tenant. */
  function RetryCommand(corr: string, saga: Saga): Option<Command> {
    match saga.status
    case InProgress =>
      (match saga.step
       case TenantAttached => Some(Attach(corr, saga.device, saga.tenant))
       case QuotaAllocated => Some(Allocate(corr, saga.device, ""))
       case DeviceCreated => None)
    case Compensating => Some(Detach(corr, saga.device, ""))
    case _ => None
  }

  /** A retry is answered if and only if the row stands at the attach step and its device exists, and it
      never touches a device: the retries of the later steps carry no tenant and are rejected. */
  lemma {:induction false} RetryAnsweredIff(devices: map<string, Device>, limits: map<string, int>, corr: string, saga: Saga)
    ensures var c := RetryCommand(corr, saga);
            && (c.Some? ==> DevicesAfter(devices, c.value) == devices)
            && (c.Some? && Reply(devices, limits, c.value).Some? <==>
                saga.status == InProgress && saga.step == TenantAttached && saga.device in devices)
  {}
}
