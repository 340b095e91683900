/**
 What the recovery worker achieves. Its retries of the quota and the detach step carry no tenant, and the
 registry rejects a command without one, so recovery alone moves a saga exactly at the attach step. Past
 it, only another delivery of the original command does.
 */
module Recovery {
  import opened Wrappers
  import opened SagaModel
  import opened Provisioning

  /** Recovery ticks for one saga and the handling of the commands they issue, nothing else: rows retried
      were read in this stretch, commands handled were issued in it. */
  ghost predicate OnlyRecovery(s: State, corr: string, scanned: set<Saga>, issued: set<Command>, actions: seq<Action>)
    decreases |actions|
  {
    if actions == [] then true
    else if !Enabled(s, actions[0]) then false
    else
      var s', rest := Apply(s, actions[0]), actions[1..];
      match actions[0]
      case Scan(c) => c == corr && OnlyRecovery(s', corr, scanned + {s.sagas[c]}, issued, rest)
      case Retry(c, saga) => c == corr && saga in scanned && OnlyRecovery(s', corr, scanned, issued + Issues(corr, saga), rest)
      case HandleCommand(c) => c in issued && OnlyRecovery(s', corr, scanned, issued, rest)
      case _ => false
  }

  function Issues(corr: string, saga: Saga): set<Command> {
    var c := RetryCommand(corr, saga);
    if c.Some? then {c.value} else {}
  }

  function After(s: State, actions: seq<Action>): State
    decreases |actions|
  {
    if actions == [] || !Enabled(s, actions[0]) then s else After(Apply(s, actions[0]), actions[1..])
  }

  /** The commands that retries put on the topic. */
  function IssuedBy(actions: seq<Action>): set<Command>
    decreases |actions|
  {
    if actions == [] then {}
    else (if actions[0].Retry? then Issues(actions[0].corr, actions[0].saga) else {}) + IssuedBy(actions[1..])
  }

  /** Everything but the commands, what recovery has read and the registry's replies. */
  predicate SameButReplies(s: State, s': State) {
    && s'.devices == s.devices && s'.born == s.born && s'.outbox == s.outbox && s'.events == s.events
    && s'.sagas == s.sagas && s'.workers == s.workers && s'.passed == s.passed && s'.limits == s.limits
  }

  predicate AtAttach(saga: Saga) {
    saga.status == InProgress && saga.step == TenantAttached
  }

  lemma {:induction false} RetryHandled(s: State, corr: string, saga: Saga, c: Command)
    requires c in Issues(corr, saga) && c in s.commands
    ensures SameButReplies(s, Apply(s, HandleCommand(c)))
    ensures !(AtAttach(saga) && saga.device in s.devices) ==> Apply(s, HandleCommand(c)).replies == s.replies
  {
    RetryAnsweredIff(s.devices, s.limits, corr, saga);
  }

  /** However often recovery ticks and its commands are handled, devices, rows, events and grants stay as
      they are; and unless the saga stands at the attach step with its device alive, so do the replies. */
  lemma {:induction false} RecoveryAloneKeeps(s: State, corr: string, scanned: set<Saga>, issued: set<Command>, actions: seq<Action>)
    requires corr in s.sagas && scanned <= {s.sagas[corr]} && issued <= Issues(corr, s.sagas[corr])
    requires OnlyRecovery(s, corr, scanned, issued, actions)
    ensures SameButReplies(s, After(s, actions)) && IssuedBy(actions) <= Issues(corr, s.sagas[corr])
    ensures !(AtAttach(s.sagas[corr]) && s.sagas[corr].device in s.devices) ==> After(s, actions).replies == s.replies
    decreases |actions|
  {
    if actions != [] {
      var a, saga := actions[0], s.sagas[corr];
      var s' := Apply(s, a);
      match a
      case Scan(_) => RecoveryAloneKeeps(s', corr, scanned + {saga}, issued, actions[1..]);
      case Retry(_, _) => RecoveryAloneKeeps(s', corr, scanned, issued + Issues(corr, saga), actions[1..]);
      case HandleCommand(c) =>
        RetryHandled(s, corr, saga, c);
        RecoveryAloneKeeps(s', corr, scanned, issued, actions[1..]);
    }
  }

  /** Some stretch of recovery makes the registry answer. */
  ghost predicate CanHelp(s: State, corr: string) {
    exists actions, c :: OnlyRecovery(s, corr, {}, {}, actions) && c in IssuedBy(actions)
                         && Reply(After(s, actions).devices, After(s, actions).limits, c).Some?
  }

  /** Recovery helps a saga if and only if the saga stands at the attach step and its device exists. */
  lemma {:induction false} RecoveryHelpsIff(s: State, corr: string)
    requires corr in s.sagas
    ensures CanHelp(s, corr) <==> AtAttach(s.sagas[corr]) && s.sagas[corr].device in s.devices
  {
    var saga := s.sagas[corr];
    forall actions, c | OnlyRecovery(s, corr, {}, {}, actions) && c in IssuedBy(actions)
                        && Reply(After(s, actions).devices, After(s, actions).limits, c).Some?
      ensures AtAttach(saga) && saga.device in s.devices
    {
      RecoveryAloneKeeps(s, corr, {}, {}, actions);
      RetryAnsweredIff(s.devices, s.limits, corr, saga);
    }
    if AtAttach(saga) && saga.device in s.devices {
      OneTickHelps(s, corr);
    }
  }

  lemma {:induction false} OneTickHelps(s: State, corr: string)
    requires corr in s.sagas && AtAttach(s.sagas[corr]) && s.sagas[corr].device in s.devices
    ensures CanHelp(s, corr)
  {
    var saga := s.sagas[corr];
    var tick := [Scan(corr), Retry(corr, saga)];
    var s1 := Apply(s, Scan(corr));
    var s2 := Apply(s1, Retry(corr, saga));
    assert tick[1..] == [Retry(corr, saga)] && tick[1..][1..] == [];
    assert OnlyRecovery(s2, corr, {saga}, Issues(corr, saga), []);
    assert OnlyRecovery(s1, corr, {saga}, {}, [Retry(corr, saga)]);
    assert OnlyRecovery(s, corr, {}, {}, tick);
    assert After(s2, []) == s2;
    assert After(s1, tick[1..]) == After(s2, tick[1..][1..]);
    assert After(s, tick) == After(s1, tick[1..]);
    assert IssuedBy([]) == {} && IssuedBy([Retry(corr, saga)]) == Issues(corr, saga);
    var c := RetryCommand(corr, saga).value;
    assert c in IssuedBy(tick);
    RetryAnsweredIff(s.devices, s.limits, corr, saga);
  }

  // ---------------------------------------------------------------- a saga that stays stuck

  const Born := OutboxRow("d", "t")
  const NewDevice := Created("d", "d", "t")
  const AttachIt := Attach("d", "d", "t")
  const ItIsAttached := Attached("d", "t")
  const AllocateIt := Allocate("d", "d", "t")

  /** The device is created and its event published. */
  const Begun := State(
    map["d" := Device("t", "s")], map["d" := "t"], {Born}, {NewDevice}, {}, map[], map[], {}, {}, {}, map[])

  /** Its saga has asked for the attachment. */
  const Attaching := Begun.(
    commands := {AttachIt}, sagas := map["d" := Saga(InProgress, TenantAttached, "d", "t")], workers := map[0 := Finished(true)])

  const HasAttached := Attaching.(events := {NewDevice, ItIsAttached}, replies := {ItIsAttached})

  /** A worker is about to ask for quota. */
  const Asking := HasAttached.(
    workers := map[0 := Finished(true), 1 := Publishing("d", AllocateIt, InProgress, QuotaAllocated)])

  /** It has asked for quota when the registry did not find the tenant's plan. The plan is there now. */
  const Stuck := HasAttached.(
    commands := {AttachIt, AllocateIt}, sagas := map["d" := Saga(InProgress, QuotaAllocated, "d", "t")],
    workers := map[0 := Finished(true), 1 := Finished(true)], limits := map["t" := 5])

  lemma {:induction false} Begins() returns (actions: seq<Action>)
    ensures Leads(Empty, actions, Begun)
  {
    var create := CreateDevice("d", "t", "s");
    var s1 := Apply(Empty, create);
    assert !SerialTaken(Empty, "t", "s");
    assert Leads(Empty, [], Empty);
    LeadsOn(Empty, [], Empty, create, s1);
    LeadsOn(Empty, [] + [create], s1, Relay(Born), Begun);
    actions := [] + [create] + [Relay(Born)];
  }

  lemma {:induction false} AsksForAttachment() returns (actions: seq<Action>)
    ensures Leads(Begun, actions, Attaching)
  {
    var call := Call(0, Works);
    var saga := Saga(Started, DeviceCreated, "d", "t");
    var s1 := Begun.(workers := map[0 := Finding(NewDevice)]);
    var s2 := Begun.(workers := map[0 := Creating(NewDevice)]);
    var s3 := Begun.(workers := map[0 := Publishing("d", AttachIt, InProgress, TenantAttached)], sagas := map["d" := saga]);
    var s4 := s3.(workers := map[0 := Updating("d", InProgress, TenantAttached)], commands := {AttachIt});
    assert Leads(Begun, [], Begun);
    LeadsOn(Begun, [], Begun, Take(0, NewDevice), s1);
    actions := [] + [Take(0, NewDevice)];
    LeadsOn(Begun, actions, s1, call, s2);
    actions := actions + [call];
    LeadsOn(Begun, actions, s2, call, s3);
    actions := actions + [call];
    LeadsOn(Begun, actions, s3, call, s4);
    actions := actions + [call];
    LeadsOn(Begun, actions, s4, call, Attaching);
    actions := actions + [call];
  }

  lemma {:induction false} GetsAttached() returns (actions: seq<Action>)
    ensures Leads(Attaching, actions, HasAttached)
  {
    var s1 := Attaching.(replies := {ItIsAttached});
    assert Leads(Attaching, [], Attaching);
    LeadsOn(Attaching, [], Attaching, HandleCommand(AttachIt), s1);
    LeadsOn(Attaching, [] + [HandleCommand(AttachIt)], s1, PublishReply(ItIsAttached), HasAttached);
    actions := [] + [HandleCommand(AttachIt)] + [PublishReply(ItIsAttached)];
  }

  lemma {:induction false} AsksForQuota() returns (actions: seq<Action>)
    ensures Leads(HasAttached, actions, Asking)
  {
    var s0 := HasAttached;
    var s1 := s0.(workers := map[0 := Finished(true), 1 := Finding(ItIsAttached)]);
    assert Leads(s0, [], s0);
    LeadsOn(s0, [], s0, Take(1, ItIsAttached), s1);
    LeadsOn(s0, [] + [Take(1, ItIsAttached)], s1, Call(1, Works), Asking);
    actions := [] + [Take(1, ItIsAttached)] + [Call(1, Works)];
  }

  lemma {:induction false} RecordsTheStep() returns (actions: seq<Action>)
    ensures Leads(Asking, actions, Stuck.(limits := map[]))
  {
    var s0, call := Asking, Call(1, Works);
    var s1 := s0.(workers := map[0 := Finished(true), 1 := Updating("d", InProgress, QuotaAllocated)], commands := {AttachIt, AllocateIt});
    assert Leads(s0, [], s0);
    LeadsOn(s0, [], s0, call, s1);
    LeadsOn(s0, [] + [call], s1, call, Stuck.(limits := map[]));
    actions := [] + [call] + [call];
  }

  lemma {:induction false} IsDropped() returns (actions: seq<Action>)
    ensures Leads(Stuck.(limits := map[]), actions, Stuck)
  {
    var s := Stuck.(limits := map[]);
    assert Leads(s, [], s);
    LeadsOn(s, [], s, HandleCommand(AllocateIt), s);
    LeadsOn(s, [] + [HandleCommand(AllocateIt)], s, SetLimit("t", 5), Stuck);
    actions := [] + [HandleCommand(AllocateIt)] + [SetLimit("t", 5)];
  }

  const ItIsGranted := Allocated("d", "t")
  const Unstuck := Stuck.(
    events := {NewDevice, ItIsAttached, ItIsGranted}, replies := {ItIsAttached, ItIsGranted}, passed := {("d", "t")},
    sagas := map["d" := Saga(Completed, QuotaAllocated, "d", "t")],
    workers := map[0 := Finished(true), 1 := Finished(true), 2 := Finished(true)])

  lemma {:induction false} QuotaIsGranted()
    ensures Reply(Stuck.devices, Stuck.limits, AllocateIt) == Some(ItIsGranted)
  {
    assert DevicesOf(Stuck.devices, "t") == {"d"};
  }

  const HasQuota := Stuck.(
    events := {NewDevice, ItIsAttached, ItIsGranted}, replies := {ItIsAttached, ItIsGranted}, passed := {("d", "t")})

  lemma {:induction false} GetsQuota()
    ensures Leads(Stuck, [] + [HandleCommand(AllocateIt)] + [PublishReply(ItIsGranted)], HasQuota)
  {
    var s1 := Stuck.(replies := {ItIsAttached, ItIsGranted}, passed := {("d", "t")});
    QuotaIsGranted();
    assert Leads(Stuck, [], Stuck);
    LeadsOn(Stuck, [], Stuck, HandleCommand(AllocateIt), s1);
    LeadsOn(Stuck, [] + [HandleCommand(AllocateIt)], s1, PublishReply(ItIsGranted), HasQuota);
  }

  lemma {:induction false} RecordsTheGrant() returns (actions: seq<Action>)
    ensures Leads(HasQuota, actions, Unstuck)
  {
    var s0, call := HasQuota, Call(2, Works);
    var s1 := HasQuota.(workers := map[0 := Finished(true), 1 := Finished(true), 2 := Finding(ItIsGranted)]);
    var s2 := HasQuota.(workers := map[0 := Finished(true), 1 := Finished(true), 2 := Updating("d", Completed, QuotaAllocated)]);
    assert Apply(s0, Take(2, ItIsGranted)) == s1 by {
      assert s1.workers == s0.workers[2 := Finding(ItIsGranted)];
    }
    assert Apply(s1, call) == s2 by {
      assert s2.workers == s1.workers[2 := Updating("d", Completed, QuotaAllocated)];
    }
    assert Leads(s0, [], s0);
    LeadsOn(s0, [], s0, Take(2, ItIsGranted), s1);
    LeadsOn(s0, [] + [Take(2, ItIsGranted)], s1, call, s2);
    actions := [] + [Take(2, ItIsGranted)] + [call];
    LeadsOn(s0, actions, s2, call, Unstuck);
    actions := actions + [call];
  }

  /** The broker delivers the original quota command once more, and the saga completes. */
  lemma {:induction false} RedeliveryCompletes() returns (actions: seq<Action>)
    ensures actions != [] && actions[0] == HandleCommand(AllocateIt) && Leads(Stuck, actions, Unstuck)
    ensures Unstuck.sagas["d"].status == Completed
  {
    GetsQuota();
    var rest := RecordsTheGrant();
    actions := [] + [HandleCommand(AllocateIt)] + [PublishReply(ItIsGranted)];
    LeadsConcat(Stuck, actions, HasQuota, rest, Unstuck);
    actions := actions + rest;
  }

  /** What recovery cannot do a redelivery can: in every run a saga past the attach step has its original
      command on the topic, with the tenant. A detach is always answered, a quota command if and only if
      the tenant's plan is found. */
  lemma {:induction false} OriginalIsAnsweredIff(run: seq<State>, actions: seq<Action>, n: nat, corr: string) returns (c: Command)
    requires IsRun(run, actions) && n < |run| && corr in run[n].sagas
    requires run[n].sagas[corr].status == Compensating
             || (run[n].sagas[corr].status == InProgress && run[n].sagas[corr].step == QuotaAllocated)
    ensures corr in run[n].born && c in run[n].commands && Enabled(run[n], HandleCommand(c))
    ensures c == if run[n].sagas[corr].status == Compensating then Detach(corr, corr, run[n].born[corr])
                 else Allocate(corr, corr, run[n].born[corr])
    ensures Reply(run[n].devices, run[n].limits, c).Some? <==> c.Detach? || run[n].born[corr] in run[n].limits
  {
    var s := run[n];
    RunsAreCausal(run, actions, n);
    assert SagaCaused(s, corr, s.sagas[corr]);
    if s.sagas[corr].status == Compensating {
      var t :| t != "" && Detach(corr, corr, t) in s.commands;
      DetachTenant(s, corr, t);
      c := Detach(corr, corr, t);
    } else {
      var t :| t != "" && Allocate(corr, corr, t) in s.commands;
      AllocateTenant(s, corr, t);
      c := Allocate(corr, corr, t);
    }
  }

  /** A run that ends in a saga waiting for its quota, with its device alive and its tenant's plan in place,
      which no amount of recovery will ever get an answer for. */
  lemma {:induction false} AStuckSaga() returns (run: seq<State>, actions: seq<Action>)
    ensures IsRun(run, actions) && run[|run| - 1] == Stuck
    ensures "d" in Stuck.devices && "t" in Stuck.limits && Stuck.sagas["d"] == Saga(InProgress, QuotaAllocated, "d", "t")
    ensures !CanHelp(Stuck, "d")
  {
    var first := Begins();
    var second := AsksForAttachment();
    var third := GetsAttached();
    var fourth := AsksForQuota();
    var fifth := RecordsTheStep();
    var sixth := IsDropped();
    LeadsConcat(Empty, first, Begun, second, Attaching);
    LeadsConcat(Empty, first + second, Attaching, third, HasAttached);
    LeadsConcat(Empty, first + second + third, HasAttached, fourth, Asking);
    LeadsConcat(Empty, first + second + third + fourth, Asking, fifth, Stuck.(limits := map[]));
    LeadsConcat(Empty, first + second + third + fourth + fifth, Stuck.(limits := map[]), sixth, Stuck);
    actions := first + second + third + fourth + fifth + sixth;
    run := LeadsIsRun([Empty], [], actions, Stuck);
    assert [] + actions == actions;
    RecoveryHelpsIff(Stuck, "d");
  }
}
