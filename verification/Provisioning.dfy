/**
 Device provisioning as one closed system: create transactions with their outbox rows, the relay,
 any number of orchestrator workers handling events call by call, the asset registry, the recovery
 worker, deletions and plan changes. A topic is the set of messages ever published on it, and any of
 them may be delivered at any time, so messages are lost, repeated and reordered at will.
 */
module Provisioning {
  import opened SagaModel
  import opened Collections

  datatype OutboxRow = OutboxRow(device: string, tenant: string)

  /** `born` remembers every device id ever created with its tenant, `passed` every device and tenant
      whose quota check succeeded, `replies` what the registry decided and has not published yet,
      `stuck` what recovery has read and not yet retried. */
  datatype State = State(
    devices: map<string, Device>,
    born: map<string, string>,
    outbox: set<OutboxRow>,
    events: set<Event>,
    commands: set<Command>,
    sagas: Sagas,
    workers: map<nat, Work>,
    replies: set<Event>,
    passed: set<(string, string)>,
    stuck: set<(string, Saga)>,
    limits: map<string, int>)

  const Empty := State(map[], map[], {}, {}, {}, map[], map[], {}, {}, {}, map[])

  datatype Action =
    | CreateDevice(id: string, tenant: string, serial: string)
    | DeleteDevice(id: string)
    | Relay(row: OutboxRow)
    | Take(worker: nat, event: Event)
    | Call(worker: nat, outcome: Outcome)
    | Crash(worker: nat)
    | HandleCommand(command: Command)
    | PublishReply(event: Event)
    | Scan(corr: string)
    | Retry(corr: string, saga: Saga)
    | SetLimit(tenant: string, limit: int)

  predicate SerialTaken(s: State, tenant: string, serial: string) {
    exists d :: d in s.devices && s.devices[d] == Device(tenant, serial)
  }

  /** The create transaction uses a fresh id, or on a serial conflict the id of the existing device. */
  predicate Enabled(s: State, a: Action) {
    match a
    case CreateDevice(id, tenant, serial) =>
      tenant != "" && id != "" &&
      if SerialTaken(s, tenant, serial) then id in s.devices && s.devices[id] == Device(tenant, serial)
      else id !in s.born
    case DeleteDevice(id) => true
    case Relay(row) => row in s.outbox
    case Take(w, e) => w !in s.workers && e in s.events
    case Call(w, _) => w in s.workers
    case Crash(w) => w in s.workers
    case HandleCommand(c) => c in s.commands
    case PublishReply(e) => e in s.replies
    case Scan(corr) => corr in s.sagas
    case Retry(corr, saga) => (corr, saga) in s.stuck
    case SetLimit(t, limit) => t != ""
  }

  function Apply(s: State, a: Action): State
    requires Enabled(s, a)
  {
    match a
    case CreateDevice(id, tenant, serial) =>
      s.(devices := s.devices[id := Device(tenant, serial)], born := s.born[id := tenant],
         outbox := s.outbox + {OutboxRow(id, tenant)})
    case DeleteDevice(id) => s.(devices := s.devices - {id})
    case Relay(row) => s.(events := s.events + {Created(row.device, row.device, row.tenant)})
    case Take(w, e) => s.(workers := s.workers[w := Finding(e)])
    case Call(w, o) =>
      var (work, sagas, sent) := Advance(s.sagas, s.workers[w], o);
      s.(workers := s.workers[w := work], sagas := sagas,
         commands := if sent.Some? then s.commands + {sent.value} else s.commands)
    case Crash(w) => s.(workers := s.workers - {w})
    case HandleCommand(c) =>
      var reply := Reply(s.devices, s.limits, c);
      s.(devices := DevicesAfter(s.devices, c),
         replies := if reply.Some? then s.replies + {reply.value} else s.replies,
         passed := if reply.Some? && reply.value.Allocated? then s.passed + {(c.device, c.tenant)} else s.passed)
    case PublishReply(e) => s.(events := s.events + {e})
    case Scan(corr) => s.(stuck := s.stuck + {(corr, s.sagas[corr])})
    case Retry(corr, saga) =>
      var c := RetryCommand(corr, saga);
      s.(commands := if c.Some? then s.commands + {c.value} else s.commands)
    case SetLimit(t, limit) => s.(limits := s.limits[t := limit])
  }

  // ---------------------------------------------------------------- causes

  ghost predicate AttachIssued(s: State, corr: string) {
    exists t :: Attach(corr, corr, t) in s.commands
  }

  ghost predicate AllocateIssued(s: State, corr: string) {
    exists t :: t != "" && Allocate(corr, corr, t) in s.commands
  }

  ghost predicate DetachIssued(s: State, corr: string) {
    exists t :: t != "" && Detach(corr, corr, t) in s.commands
  }

  ghost predicate WasGranted(s: State, corr: string) {
    exists t :: Allocated(corr, t) in s.events
  }

  /** What must have happened before a command could be published. */
  ghost predicate CommandCaused(s: State, c: Command) {
    c.corr == c.device &&
    match c
    case Attach(corr, _, t) => Created(corr, corr, t) in s.events
    case Allocate(corr, _, t) => if t == "" then AllocateIssued(s, corr) else Attached(corr, t) in s.events
    case Detach(corr, _, t) => if t == "" then DetachIssued(s, corr) else QuotaFailed(corr, t) in s.events
  }

  ghost predicate EventCaused(s: State, e: Event) {
    match e
    case Created(corr, d, t) => corr == d && d in s.born && s.born[d] == t && OutboxRow(d, t) in s.outbox
    case Attached(corr, t) => AttachIssued(s, corr) && corr in s.born && s.born[corr] == t
    case Allocated(corr, t) => t != "" && Allocate(corr, corr, t) in s.commands && (corr, t) in s.passed
    case QuotaFailed(corr, t) => t != "" && Allocate(corr, corr, t) in s.commands
    case Detached(corr, t) => t != "" && Detach(corr, corr, t) in s.commands && corr !in s.devices
  }

  /** The (status, step) pairs that occur, and what each of them presupposes. */
  ghost predicate StatusCaused(s: State, corr: string, status: Status, step: Step) {
    match (status, step)
    case (Started, DeviceCreated) => true
    case (InProgress, TenantAttached) => AttachIssued(s, corr)
    case (InProgress, QuotaAllocated) => AllocateIssued(s, corr)
    case (Compensating, TenantAttached) => DetachIssued(s, corr)
    case (Completed, QuotaAllocated) => WasGranted(s, corr)
    case (Failed, _) => true
    case _ => false
  }

  ghost predicate SagaCaused(s: State, corr: string, saga: Saga) {
    && StatusCaused(s, corr, saga.status, saga.step)
    && saga.device == corr && Created(corr, corr, saga.tenant) in s.events
  }

  ghost predicate WorkCaused(s: State, w: Work) {
    match w
    case Finding(e) => e in s.events
    case Creating(e) => e.Created? && e in s.events
    case Publishing(corr, c, status, step) =>
      && corr in s.sagas && c.corr == corr && c.tenant != "" && CommandCaused(s, c)
      && (match c
          case Attach(_, _, _) => status == InProgress && step == TenantAttached
          case Allocate(_, _, _) => status == InProgress && step == QuotaAllocated
          case Detach(_, _, _) => status == Compensating && step == TenantAttached)
    case Updating(corr, status, step) => corr in s.sagas && StatusCaused(s, corr, status, step)
    case Failing(corr) => corr in s.sagas
    case Finished(_) => true
  }

  predicate DevicesBorn(s: State) {
    && (forall d :: d in s.devices ==> d in s.born && s.born[d] == s.devices[d].tenant)
    && (forall d :: d in s.born ==> s.born[d] != "")
    && (forall row :: row in s.outbox ==> row.device in s.born && s.born[row.device] == row.tenant)
    && (forall p :: p in s.passed ==> p.0 in s.born && s.born[p.0] == p.1)
  }

  ghost predicate Causal(s: State) {
    && DevicesBorn(s)
    && (forall e :: e in s.events ==> EventCaused(s, e))
    && (forall e :: e in s.replies ==> EventCaused(s, e))
    && (forall c :: c in s.commands ==> CommandCaused(s, c))
    && (forall corr :: corr in s.sagas ==> SagaCaused(s, corr, s.sagas[corr]))
    && (forall w :: w in s.workers ==> WorkCaused(s, s.workers[w]))
    && (forall p :: p in s.stuck ==> SagaCaused(s, p.0, p.1))
  }

  /** Nothing that counts as a cause ever goes away, and a dead device stays dead. */
  predicate Grows(s: State, s': State) {
    && s.outbox <= s'.outbox && s.events <= s'.events && s.commands <= s'.commands && s.passed <= s'.passed
    && s.sagas.Keys <= s'.sagas.Keys
    && (forall d :: d in s.born ==> d in s'.born && s'.born[d] == s.born[d])
    && (forall d :: d in s.born && d !in s.devices ==> d !in s'.devices)
  }

  lemma {:induction false} AdvanceKeepsSagas(sagas: Sagas, w: Work, o: Outcome)
    ensures sagas.Keys <= Advance(sagas, w, o).1.Keys
  {}

  lemma {:induction false} ActionGrows(s: State, a: Action)
    requires Causal(s) && Enabled(s, a)
    ensures Grows(s, Apply(s, a))
  {
    match a
    case Call(w, o) => AdvanceKeepsSagas(s.sagas, s.workers[w], o);
    case CreateDevice(_, _, _) => assert DevicesBorn(s);
    case _ =>
  }

  lemma {:induction false} IssuedGrow(s: State, s': State, corr: string)
    requires Grows(s, s')
    ensures AttachIssued(s, corr) ==> AttachIssued(s', corr)
    ensures AllocateIssued(s, corr) ==> AllocateIssued(s', corr)
    ensures DetachIssued(s, corr) ==> DetachIssued(s', corr)
    ensures WasGranted(s, corr) ==> WasGranted(s', corr)
  {}

  lemma {:induction false} CommandGrows(s: State, s': State, c: Command)
    requires Grows(s, s') && CommandCaused(s, c)
    ensures CommandCaused(s', c)
  {
    IssuedGrow(s, s', c.corr);
  }

  lemma {:induction false} EventGrows(s: State, s': State, e: Event)
    requires Grows(s, s') && Causal(s) && EventCaused(s, e)
    ensures EventCaused(s', e)
  {
    IssuedGrow(s, s', e.corr);
    if e.Detached? {
      CommandBorn(s, Detach(e.corr, e.corr, e.tenant));
    }
  }

  /** Behind every command stands the creation of its device. */
  lemma {:induction false} CommandBorn(s: State, c: Command)
    requires Causal(s) && c in s.commands
    ensures c.corr == c.device && c.corr in s.born
  {
    assert CommandCaused(s, c);
    match c
    case Attach(corr, _, t) => assert EventCaused(s, Created(corr, corr, t));
    case Allocate(corr, _, t) => AllocateBorn(s, corr);
    case Detach(corr, _, t) => DetachBorn(s, corr);
  }

  lemma {:induction false} AllocateBorn(s: State, corr: string)
    requires Causal(s) && exists t :: Allocate(corr, corr, t) in s.commands
    ensures corr in s.born
  {
    var t :| Allocate(corr, corr, t) in s.commands;
    assert CommandCaused(s, Allocate(corr, corr, t));
    var t' :| t' != "" && Allocate(corr, corr, t') in s.commands;
    AllocateTenant(s, corr, t');
  }

  /** A quota command with a tenant names the tenant its device was created with. */
  lemma {:induction false} AllocateTenant(s: State, corr: string, t: string)
    requires Causal(s) && t != "" && Allocate(corr, corr, t) in s.commands
    ensures corr in s.born && s.born[corr] == t && Attached(corr, t) in s.events
  {
    assert CommandCaused(s, Allocate(corr, corr, t));
    assert EventCaused(s, Attached(corr, t));
  }

  lemma {:induction false} DetachBorn(s: State, corr: string)
    requires Causal(s) && exists t :: Detach(corr, corr, t) in s.commands
    ensures corr in s.born
  {
    var t :| Detach(corr, corr, t) in s.commands;
    assert CommandCaused(s, Detach(corr, corr, t));
    var t' :| t' != "" && Detach(corr, corr, t') in s.commands;
    DetachTenant(s, corr, t');
  }

  lemma {:induction false} DetachTenant(s: State, corr: string, t: string)
    requires Causal(s) && t != "" && Detach(corr, corr, t) in s.commands
    ensures corr in s.born && s.born[corr] == t
  {
    assert CommandCaused(s, Detach(corr, corr, t));
    assert EventCaused(s, QuotaFailed(corr, t));
    AllocateTenant(s, corr, t);
  }

  lemma {:induction false} SagaGrows(s: State, s': State, corr: string, saga: Saga)
    requires Grows(s, s') && SagaCaused(s, corr, saga)
    ensures SagaCaused(s', corr, saga)
  {
    IssuedGrow(s, s', corr);
  }

  lemma {:induction false} WorkGrows(s: State, s': State, w: Work)
    requires Grows(s, s') && WorkCaused(s, w)
    ensures WorkCaused(s', w)
  {
    match w
    case Publishing(corr, c, _, _) => CommandGrows(s, s', c);
    case Updating(corr, _, _) => IssuedGrow(s, s', corr);
    case _ =>
  }

  /** What an action has to show: the devices are in order and everything it added has its cause. */
  ghost predicate NewCaused(s: State, s': State) {
    && DevicesBorn(s')
    && (forall e :: e in s'.events && e !in s.events ==> EventCaused(s', e))
    && (forall e :: e in s'.replies && e !in s.replies ==> EventCaused(s', e))
    && (forall c :: c in s'.commands && c !in s.commands ==> CommandCaused(s', c))
    && (forall corr :: corr in s'.sagas && (corr !in s.sagas || s'.sagas[corr] != s.sagas[corr]) ==>
          SagaCaused(s', corr, s'.sagas[corr]))
    && (forall w :: w in s'.workers && (w !in s.workers || s'.workers[w] != s.workers[w]) ==> WorkCaused(s', s'.workers[w]))
    && (forall p :: p in s'.stuck && p !in s.stuck ==> SagaCaused(s', p.0, p.1))
  }

  /** All old causes carry over to the next state. */
  lemma {:induction false} Assemble(s: State, s': State)
    requires Causal(s) && Grows(s, s') && NewCaused(s, s')
    ensures Causal(s')
  {
    forall e | e in s'.events + s'.replies ensures EventCaused(s', e) {
      if e in s.events + s.replies {
        EventGrows(s, s', e);
      }
    }
    forall c | c in s'.commands ensures CommandCaused(s', c) {
      if c in s.commands {
        CommandGrows(s, s', c);
      }
    }
    forall corr | corr in s'.sagas ensures SagaCaused(s', corr, s'.sagas[corr]) {
      if corr in s.sagas && s'.sagas[corr] == s.sagas[corr] {
        SagaGrows(s, s', corr, s.sagas[corr]);
      }
    }
    forall w | w in s'.workers ensures WorkCaused(s', s'.workers[w]) {
      if w in s.workers && s'.workers[w] == s.workers[w] {
        WorkGrows(s, s', s.workers[w]);
      }
    }
    forall p | p in s'.stuck ensures SagaCaused(s', p.0, p.1) {
      if p in s.stuck {
        SagaGrows(s, s', p.0, p.1);
      }
    }
  }

  lemma {:induction false} PublishedCauses(s: State, corr: string, c: Command, status: Status, step: Step)
    requires c in s.commands && WorkCaused(s, Publishing(corr, c, status, step))
    ensures StatusCaused(s, corr, status, step)
  {}

  lemma {:induction false} FoundIsCaused(s: State, e: Event)
    requires Causal(s) && e in s.events
    ensures WorkCaused(s, AfterFind(s.sagas, e))
  {
    assert EventCaused(s, e);
  }

  /** The work left after a call has its cause. */
  lemma {:induction false} CallWorkCaused(s: State, w: nat, o: Outcome)
    requires Causal(s) && Enabled(s, Call(w, o)) && Grows(s, Apply(s, Call(w, o)))
    ensures WorkCaused(Apply(s, Call(w, o)), Advance(s.sagas, s.workers[w], o).0)
  {
    var s', work := Apply(s, Call(w, o)), s.workers[w];
    assert WorkCaused(s, work);
    WorkGrows(s, s', work);
    match work
    case Finding(e) =>
      FoundIsCaused(s, e);
      WorkGrows(s, s', AfterFind(s.sagas, e));
    case Creating(e) => assert EventCaused(s, e);
    case Publishing(corr, c, status, step) =>
      if !o.Fails? {
        PublishedCauses(s', corr, c, status, step);
      }
    case _ =>
  }

  /** So does the row a call writes. */
  lemma {:induction false} CallSagasCaused(s: State, w: nat, o: Outcome, corr: string)
    requires Causal(s) && Enabled(s, Call(w, o)) && Grows(s, Apply(s, Call(w, o)))
    requires corr in Apply(s, Call(w, o)).sagas
    ensures SagaCaused(Apply(s, Call(w, o)), corr, Apply(s, Call(w, o)).sagas[corr])
  {
    var s', work := Apply(s, Call(w, o)), s.workers[w];
    assert WorkCaused(s, work);
    WorkGrows(s, s', work);
    if corr in s.sagas {
      SagaGrows(s, s', corr, s.sagas[corr]);
    } else {
      assert EventCaused(s, work.event);
    }
  }

  lemma {:induction false} CallKeepsCausal(s: State, w: nat, o: Outcome)
    requires Causal(s) && Enabled(s, Call(w, o))
    ensures Causal(Apply(s, Call(w, o)))
  {
    var s' := Apply(s, Call(w, o));
    ActionGrows(s, Call(w, o));
    CallWorkCaused(s, w, o);
    forall corr | corr in s'.sagas ensures SagaCaused(s', corr, s'.sagas[corr]) {
      CallSagasCaused(s, w, o, corr);
    }
    assert WorkCaused(s, s.workers[w]);
    WorkGrows(s, s', s.workers[w]);
    Assemble(s, s');
  }

  lemma {:induction false} ReplyIsCaused(s: State, c: Command)
    requires Causal(s) && Enabled(s, HandleCommand(c)) && Reply(s.devices, s.limits, c).Some?
    ensures EventCaused(Apply(s, HandleCommand(c)), Reply(s.devices, s.limits, c).value)
  {
    CommandBorn(s, c);
    assert CommandCaused(s, c);
    match c
    case Attach(corr, _, t) => assert AttachIssued(Apply(s, HandleCommand(c)), corr);
    case Allocate(corr, _, t) => AllocateTenant(s, corr, t);
    case Detach(corr, _, t) => DetachTenant(s, corr, t);
  }

  lemma {:induction false} HandleKeepsCausal(s: State, c: Command)
    requires Causal(s) && Enabled(s, HandleCommand(c))
    ensures Causal(Apply(s, HandleCommand(c)))
  {
    var s' := Apply(s, HandleCommand(c));
    ActionGrows(s, HandleCommand(c));
    if Reply(s.devices, s.limits, c).Some? {
      ReplyIsCaused(s, c);
      CommandBorn(s, c);
      if c.Allocate? {
        AllocateTenant(s, c.corr, c.tenant);
      }
    }
    Assemble(s, s');
  }

  lemma {:induction false} RetryIsCaused(s: State, corr: string, saga: Saga)
    requires SagaCaused(s, corr, saga) && RetryCommand(corr, saga).Some?
    ensures CommandCaused(s, RetryCommand(corr, saga).value)
  {}

  lemma {:induction false} RetryKeepsCausal(s: State, corr: string, saga: Saga)
    requires Causal(s) && Enabled(s, Retry(corr, saga))
    ensures Causal(Apply(s, Retry(corr, saga)))
  {
    var s' := Apply(s, Retry(corr, saga));
    ActionGrows(s, Retry(corr, saga));
    assert SagaCaused(s, corr, saga);
    if RetryCommand(corr, saga).Some? {
      RetryIsCaused(s, corr, saga);
      CommandGrows(s, s', RetryCommand(corr, saga).value);
    }
    Assemble(s, s');
  }

  lemma {:induction false} PublishReplyKeepsCausal(s: State, e: Event)
    requires Causal(s) && Enabled(s, PublishReply(e))
    ensures Causal(Apply(s, PublishReply(e)))
  {
    var s' := Apply(s, PublishReply(e));
    ActionGrows(s, PublishReply(e));
    EventGrows(s, s', e);
    Assemble(s, s');
  }

  lemma {:induction false} ScanKeepsCausal(s: State, corr: string)
    requires Causal(s) && Enabled(s, Scan(corr))
    ensures Causal(Apply(s, Scan(corr)))
  {
    var s' := Apply(s, Scan(corr));
    ActionGrows(s, Scan(corr));
    SagaGrows(s, s', corr, s.sagas[corr]);
    Assemble(s, s');
  }

  lemma {:induction false} CreateKeepsCausal(s: State, a: Action)
    requires Causal(s) && Enabled(s, a) && (a.CreateDevice? || a.DeleteDevice?)
    ensures Causal(Apply(s, a))
  {
    ActionGrows(s, a);
    assert DevicesBorn(Apply(s, a));
    Assemble(s, Apply(s, a));
  }

  lemma {:induction false} RelayKeepsCausal(s: State, a: Action)
    requires Causal(s) && Enabled(s, a) && (a.Relay? || a.Take?)
    ensures Causal(Apply(s, a))
  {
    ActionGrows(s, a);
    assert DevicesBorn(Apply(s, a));
    Assemble(s, Apply(s, a));
  }

  lemma {:induction false} CrashOrLimitKeepsCausal(s: State, a: Action)
    requires Causal(s) && Enabled(s, a) && (a.Crash? || a.SetLimit?)
    ensures Causal(Apply(s, a))
  {
    ActionGrows(s, a);
    assert DevicesBorn(Apply(s, a));
    Assemble(s, Apply(s, a));
  }

  /** Every action keeps every cause in place. */
  lemma {:induction false} ActionKeepsCausal(s: State, a: Action)
    requires Causal(s) && Enabled(s, a)
    ensures Causal(Apply(s, a))
  {
    match a
    case CreateDevice(_, _, _) => CreateKeepsCausal(s, a);
    case DeleteDevice(_) => CreateKeepsCausal(s, a);
    case Relay(_) => RelayKeepsCausal(s, a);
    case Take(_, _) => RelayKeepsCausal(s, a);
    case Call(w, o) => CallKeepsCausal(s, w, o);
    case Crash(_) => CrashOrLimitKeepsCausal(s, a);
    case HandleCommand(c) => HandleKeepsCausal(s, c);
    case PublishReply(e) => PublishReplyKeepsCausal(s, e);
    case Scan(corr) => ScanKeepsCausal(s, corr);
    case Retry(corr, saga) => RetryKeepsCausal(s, corr, saga);
    case SetLimit(_, _) => CrashOrLimitKeepsCausal(s, a);
  }

  // ---------------------------------------------------------------- runs

  predicate Follows(run: seq<State>, i: nat, a: Action)
    requires i + 1 < |run|
  {
    Enabled(run[i], a) && run[i + 1] == Apply(run[i], a)
  }

  ghost predicate IsRun(run: seq<State>, actions: seq<Action>) {
    |run| == |actions| + 1 && run[0] == Empty &&
    forall i :: 0 <= i < |actions| ==> Follows(run, i, actions[i])
  }

  lemma {:induction false} RunsAreCausal(run: seq<State>, actions: seq<Action>, n: nat)
    requires IsRun(run, actions) && n < |run|
    ensures Causal(run[n])
  {
    if n > 0 {
      RunsAreCausal(run, actions, n - 1);
      assert Follows(run, n - 1, actions[n - 1]);
      ActionKeepsCausal(run[n - 1], actions[n - 1]);
    }
  }

  lemma {:induction false} RunExtends(run: seq<State>, actions: seq<Action>, a: Action)
    requires IsRun(run, actions) && Enabled(run[|actions|], a)
    ensures IsRun(run + [Apply(run[|actions|], a)], actions + [a])
  {
    var run', actions' := run + [Apply(run[|actions|], a)], actions + [a];
    forall i | 0 <= i < |actions'| ensures Follows(run', i, actions'[i]) {
      if i < |actions| {
        assert Follows(run, i, actions[i]);
      }
    }
  }

  /** The actions lead from one state to the other. */
  ghost predicate Leads(s: State, actions: seq<Action>, s': State)
    decreases |actions|
  {
    if actions == [] then s == s' else Enabled(s, actions[0]) && Leads(Apply(s, actions[0]), actions[1..], s')
  }

  lemma {:induction false} LeadsConcat(s: State, a: seq<Action>, s': State, b: seq<Action>, s'': State)
    requires Leads(s, a, s') && Leads(s', b, s'')
    ensures Leads(s, a + b, s'')
    decreases |a|
  {
    if a == [] {
      assert a + b == b;
    } else {
      assert (a + b)[1..] == a[1..] + b;
      LeadsConcat(Apply(s, a[0]), a[1..], s', b, s'');
    }
  }

  lemma {:induction false} LeadsOn(s: State, actions: seq<Action>, s': State, a: Action, s'': State)
    requires Leads(s, actions, s') && Enabled(s', a) && Apply(s', a) == s''
    ensures Leads(s, actions + [a], s'')
  {
    assert [a][1..] == [];
    assert Leads(Apply(s', a), [a][1..], s'');
    LeadsConcat(s, actions, s', [a], s'');
  }

  lemma {:induction false} LeadsIsRun(run: seq<State>, done: seq<Action>, actions: seq<Action>, s': State) returns (all: seq<State>)
    requires IsRun(run, done) && Leads(run[|done|], actions, s')
    ensures IsRun(all, done + actions) && all[|all| - 1] == s'
    decreases |actions|
  {
    if actions == [] {
      all := run;
      assert done + actions == done;
    } else {
      RunExtends(run, done, actions[0]);
      all := LeadsIsRun(run + [Apply(run[|done|], actions[0])], done + [actions[0]], actions[1..], s');
      assert done + [actions[0]] + actions[1..] == done + actions;
    }
  }

  /** The eight pairs. */
  predicate KnownPair(status: Status, step: Step) {
    match status
    case Started => step == DeviceCreated
    case InProgress => step == TenantAttached || step == QuotaAllocated
    case Compensating => step == TenantAttached
    case Completed => step == QuotaAllocated
    case Failed => true
  }

  /** Saga causality: in every reachable state each saga has one of eight (status, step) pairs, a live
      status implies that the matching command was published, and completion implies a grant. */
  lemma {:induction false} SagaCausality(run: seq<State>, actions: seq<Action>, n: nat, corr: string)
    requires IsRun(run, actions) && n < |run| && corr in run[n].sagas
    ensures var saga := run[n].sagas[corr];
            && KnownPair(saga.status, saga.step)
            && (saga.status == InProgress && saga.step == TenantAttached ==> AttachIssued(run[n], corr))
            && (saga.status == InProgress && saga.step == QuotaAllocated ==> AllocateIssued(run[n], corr))
            && (saga.status == Compensating ==> DetachIssued(run[n], corr))
            && (saga.status == Completed ==> WasGranted(run[n], corr))
  {
    RunsAreCausal(run, actions, n);
    assert SagaCaused(run[n], corr, run[n].sagas[corr]);
  }

  /** The whole chain behind a completed saga, back to the create transaction. */
  lemma {:induction false} CompletionHasItsChain(run: seq<State>, actions: seq<Action>, n: nat, corr: string) returns (tenant: string)
    requires IsRun(run, actions) && n < |run| && corr in run[n].sagas && run[n].sagas[corr].status == Completed
    ensures Allocated(corr, tenant) in run[n].events && Allocate(corr, corr, tenant) in run[n].commands
    ensures Attached(corr, tenant) in run[n].events && AttachIssued(run[n], corr)
    ensures Created(corr, corr, tenant) in run[n].events && OutboxRow(corr, tenant) in run[n].outbox
    ensures corr in run[n].born && run[n].born[corr] == tenant && (corr, tenant) in run[n].passed
  {
    var s := run[n];
    RunsAreCausal(run, actions, n);
    assert SagaCaused(s, corr, s.sagas[corr]);
    tenant :| Allocated(corr, tenant) in s.events;
    assert EventCaused(s, Allocated(corr, tenant));
    AllocateTenant(s, corr, tenant);
    assert EventCaused(s, Attached(corr, tenant));
    assert EventCaused(s, Created(corr, corr, s.sagas[corr].tenant));
  }

  predicate SameKind(c: Command, c': Command) {
    c.corr == c'.corr && (c.Attach? <==> c'.Attach?) && (c.Allocate? <==> c'.Allocate?)
  }

  /** Recovery invents nothing: whatever a tick publishes, a command of that kind was already published
      for that correlation id. */
  lemma {:induction false} RecoveryOnlyRepeats(run: seq<State>, actions: seq<Action>, n: nat, corr: string, saga: Saga)
    requires IsRun(run, actions) && n < |actions| && actions[n] == Retry(corr, saga)
    requires RetryCommand(corr, saga).Some?
    ensures exists c :: c in run[n].commands && SameKind(c, RetryCommand(corr, saga).value)
  {
    var s := run[n];
    RunsAreCausal(run, actions, n);
    assert Follows(run, n, actions[n]);
    assert SagaCaused(s, corr, saga);
    match saga.status
    case InProgress =>
      if saga.step == TenantAttached {
        var t :| Attach(corr, corr, t) in s.commands;
        assert SameKind(Attach(corr, corr, t), RetryCommand(corr, saga).value);
      } else {
        var t :| t != "" && Allocate(corr, corr, t) in s.commands;
        assert SameKind(Allocate(corr, corr, t), RetryCommand(corr, saga).value);
      }
    case Compensating =>
      var t :| t != "" && Detach(corr, corr, t) in s.commands;
      assert SameKind(Detach(corr, corr, t), RetryCommand(corr, saga).value);
    case _ =>
  }

  /** Compensation is final: once a detach was reported the device is gone and never comes back. */
  lemma {:induction false} DetachedIsGone(run: seq<State>, actions: seq<Action>, n: nat, corr: string, tenant: string)
    requires IsRun(run, actions) && n < |run| && Detached(corr, tenant) in run[n].events
    ensures corr !in run[n].devices
  {
    RunsAreCausal(run, actions, n);
    assert EventCaused(run[n], Detached(corr, tenant));
  }

  // ---------------------------------------------------------------- quota

  /** Devices of the tenant that exist and were granted their quota. */
  function Granted(s: State, tenant: string): set<string> {
    set d | d in s.devices && s.devices[d].tenant == tenant && Allocated(d, tenant) in s.events
  }

  /** Devices of the tenant that exist and passed a quota check, published or not. */
  function Passed(s: State, tenant: string): set<string> {
    set d | d in s.devices && s.devices[d].tenant == tenant && (d, tenant) in s.passed
  }

  predicate Within(s: State, tenant: string, bound: nat) {
    tenant in s.limits ==> 0 <= s.limits[tenant] <= bound
  }

  lemma {:induction false} CheckKeepsQuota(s: State, c: Command, tenant: string, bound: nat)
    requires Causal(s) && Enabled(s, HandleCommand(c)) && Within(s, tenant, bound)
    requires Apply(s, HandleCommand(c)).passed != s.passed && c.tenant == tenant
    ensures |Passed(Apply(s, HandleCommand(c)), tenant)| <= bound
  {
    var s' := Apply(s, HandleCommand(c));
    assert Passed(s', tenant) <= DevicesOf(s.devices, tenant);
    SubsetSize(Passed(s', tenant), DevicesOf(s.devices, tenant));
  }

  lemma {:induction false} ActionKeepsQuota(s: State, a: Action, tenant: string, bound: nat)
    requires Causal(s) && Enabled(s, a) && Within(s, tenant, bound) && |Passed(s, tenant)| <= bound
    ensures |Passed(Apply(s, a), tenant)| <= bound
  {
    var s' := Apply(s, a);
    if a.HandleCommand? && s'.passed != s.passed && a.command.tenant == tenant {
      CheckKeepsQuota(s, a.command, tenant, bound);
    } else {
      assert Passed(s', tenant) <= Passed(s, tenant);
      SubsetSize(Passed(s', tenant), Passed(s, tenant));
    }
  }

  lemma {:induction false} PassedStayWithin(run: seq<State>, actions: seq<Action>, n: nat, tenant: string, bound: nat)
    requires IsRun(run, actions) && n < |run|
    requires forall i :: 0 <= i < |run| ==> Within(run[i], tenant, bound)
    ensures |Passed(run[n], tenant)| <= bound
  {
    if n > 0 {
      PassedStayWithin(run, actions, n - 1, tenant, bound);
      RunsAreCausal(run, actions, n - 1);
      assert Follows(run, n - 1, actions[n - 1]);
      ActionKeepsQuota(run[n - 1], actions[n - 1], tenant, bound);
    }
  }

  /** Quota safety: as long as the tenant's limit never exceeds a bound (and is never unlimited), the
      granted devices that still exist never number more than the bound, however creations, checks,
      detaches, deletions, repeated and reordered messages interleave. */
  lemma {:induction false} QuotaSafety(run: seq<State>, actions: seq<Action>, n: nat, tenant: string, bound: nat)
    requires IsRun(run, actions) && n < |run|
    requires forall i :: 0 <= i < |run| ==> Within(run[i], tenant, bound)
    ensures |Granted(run[n], tenant)| <= bound
  {
    var s := run[n];
    PassedStayWithin(run, actions, n, tenant, bound);
    RunsAreCausal(run, actions, n);
    forall d | d in Granted(s, tenant) ensures d in Passed(s, tenant) {
      assert EventCaused(s, Allocated(d, tenant));
    }
    SubsetSize(Granted(s, tenant), Passed(s, tenant));
  }
}
