/**
 What provisioning can bring about. From every reachable state a device that the gateway admits can be
 taken to a completed saga with its quota granted, and one that it would refuse is detached again; the
 quota can be used up to the last device. The continuations are runs of the closed system.
 */
module Completion {
  import opened Wrappers
  import opened SagaModel
  import opened Provisioning
  import Plans

  // ---------------------------------------------------------------- the registry's verdict

  /** The limit that the registry computes for the tenant from this row. */
  predicate LimitIs(limits: map<string, int>, t: string, row: Plans.TenantRow, now: int) {
    t != "" && t in limits && limits[t] == Plans.RegistryLimit(row.plan, row.status, row.periodEnd, now)
  }

  /** The registry grants quota if and only if the devices of the tenant, the new one included, are within
      the limit; otherwise it reports the failure. */
  lemma {:induction false} GrantedIffWithin(devices: map<string, Device>, limits: map<string, int>, corr: string, d: string, t: string,
                                            row: Plans.TenantRow, now: int)
    requires LimitIs(limits, t, row, now)
    ensures Reply(devices, limits, Allocate(corr, d, t)) ==
              Some(if limits[t] == -1 || |DevicesOf(devices, t)| <= limits[t] then Allocated(corr, t) else QuotaFailed(corr, t))
    ensures Reply(devices, limits, Allocate(corr, d, t)) == Some(Allocated(corr, t)) <==>
              Plans.RegistryGrants(row, |DevicesOf(devices, t)|, now)
  {}

  lemma {:induction false} OneMoreDevice(devices: map<string, Device>, d: string, t: string, serial: string)
    requires d !in devices
    ensures |DevicesOf(devices[d := Device(t, serial)], t)| == |DevicesOf(devices, t)| + 1
  {
    assert DevicesOf(devices[d := Device(t, serial)], t) == DevicesOf(devices, t) + {d};
  }

  /** Gateway and registry: a new device is granted its quota if and only if the gateway admitted it. */
  lemma {:induction false} AdmittedIffGranted(devices: map<string, Device>, limits: map<string, int>, d: string, t: string, serial: string,
                                              row: Plans.TenantRow, now: int)
    requires LimitIs(limits, t, row, now) && d !in devices
    ensures var admitted := Plans.CheckDeviceQuota(Some(row), |DevicesOf(devices, t)|, now).allowed;
            Reply(devices[d := Device(t, serial)], limits, Allocate(d, d, t)) ==
              Some(if admitted then Allocated(d, t) else QuotaFailed(d, t))
  {
    var devices' := devices[d := Device(t, serial)];
    OneMoreDevice(devices, d, t, serial);
    GrantedIffWithin(devices', limits, d, d, t, row, now);
    Plans.AdmissionMatchesAllocation(row, |DevicesOf(devices, t)|, now);
  }

  /** The registry reports the tenant it has stored for the device, whatever tenant the command names. */
  lemma {:induction false} AttachReportsTheStoredTenant(devices: map<string, Device>, limits: map<string, int>, c: Command, e: Event)
    requires c.Attach?
    ensures Reply(devices, limits, c) == Some(e) <==>
              c.device in devices && e.Attached? && e.corr == c.corr && e.tenant == devices[c.device].tenant
  {}

  /** A detach takes away the named device of the named tenant and nothing else; no other command touches a
      device. */
  lemma {:induction false} DetachTakesOnlyItsDevice(devices: map<string, Device>, c: Command, d: string)
    ensures d in DevicesAfter(devices, c) <==>
              d in devices && !(c.Detach? && c.device == d && c.tenant != "" && devices[d].tenant == c.tenant)
    ensures d in DevicesAfter(devices, c) ==> DevicesAfter(devices, c)[d] == devices[d]
  {}

  // ---------------------------------------------------------------- stretches of a run

  /** No plan is changed on the way. */
  predicate KeepsPlans(actions: seq<Action>) {
    forall i :: 0 <= i < |actions| ==> !actions[i].SetLimit?
  }

  function AfterAttempt(s: State, w: nat, r: (Sagas, seq<Command>, bool)): State {
    s.(workers := s.workers[w := Finished(r.2)], sagas := r.0, commands := s.commands + set c | c in r.1)
  }

  /** The calls of one worker with nobody in between are one attempt. */
  lemma {:induction false} CallsAreAttempt(s: State, w: nat, os: seq<Outcome>) returns (actions: seq<Action>)
    requires w in s.workers && |os| >= CallsLeft(s.workers[w])
    ensures Leads(s, actions, AfterAttempt(s, w, Attempt(s.sagas, s.workers[w], os))) && KeepsPlans(actions)
    decreases CallsLeft(s.workers[w])
  {
    var work := s.workers[w];
    if work.Finished? {
      actions := [];
      assert s == AfterAttempt(s, w, (s.sagas, [], work.ok));
    } else {
      AdvanceFinishesSooner(s.sagas, work, os[0]);
      var s' := Apply(s, Call(w, os[0]));
      var rest := CallsAreAttempt(s', w, os[1..]);
      OneCall(s, w, os);
      actions := [Call(w, os[0])] + rest;
      assert actions[1..] == rest;
    }
  }

  lemma {:induction false} OneCall(s: State, w: nat, os: seq<Outcome>)
    requires w in s.workers && !s.workers[w].Finished? && |os| >= CallsLeft(s.workers[w])
    requires CallsLeft(Advance(s.sagas, s.workers[w], os[0]).0) < CallsLeft(s.workers[w])
    ensures var s' := Apply(s, Call(w, os[0]));
            AfterAttempt(s', w, Attempt(s'.sagas, s'.workers[w], os[1..])) == AfterAttempt(s, w, Attempt(s.sagas, s.workers[w], os))
  {
    var (work, sagas, sent) := Advance(s.sagas, s.workers[w], os[0]);
    var s' := Apply(s, Call(w, os[0]));
    var rest := Attempt(sagas, work, os[1..]);
    var all := Attempt(s.sagas, s.workers[w], os);
    assert all == (rest.0, (if sent.Some? then [sent.value] else []) + rest.1, rest.2);
    assert s'.commands + (set c | c in rest.1) == s.commands + (set c | c in all.1);
    assert s'.workers[w := Finished(rest.2)] == s.workers[w := Finished(all.2)];
  }

  lemma {:induction false} UnusedWorker(workers: set<nat>) returns (w: nat)
    ensures w !in workers && forall v :: v in workers ==> v < w
  {
    w := 0;
    if workers != {} {
      var v :| v in workers;
      var u := UnusedWorker(workers - {v});
      w := if u <= v then v + 1 else u;
      assert workers == (workers - {v}) + {v};
    }
  }

  const Fine := [Works, Works, Works, Works]

  /** Some worker takes the event and all its calls work. */
  lemma {:induction false} EventIsHandled(s: State, e: Event) returns (actions: seq<Action>, s': State)
    requires e in s.events && Expected(s.sagas, e)
    ensures Leads(s, actions, s') && KeepsPlans(actions)
    ensures s' == s.(workers := s'.workers, sagas := s'.sagas, commands := s'.commands)
    ensures e.corr in s'.sagas && Reaches(e, s'.sagas[e.corr]) && s'.sagas == s.sagas[e.corr := s'.sagas[e.corr]]
    ensures forall c :: c in s'.commands <==> c in s.commands || Answers(e, c)
  {
    var w := UnusedWorker(s.workers.Keys);
    var s1 := Apply(s, Take(w, e));
    var calls := CallsAreAttempt(s1, w, Fine);
    var r := Attempt(s.sagas, Finding(e), Fine);
    WorkingAttempt(s.sagas, e, Fine);
    forall c ensures c in r.1 <==> Answers(e, c) {
      PublishedIff(s.sagas, e, Fine, c);
    }
    s' := AfterAttempt(s1, w, r);
    actions := [Take(w, e)] + calls;
    assert actions[1..] == calls;
  }

  /** The registry handles the command and publishes its reply. */
  lemma {:induction false} CommandIsAnswered(s: State, c: Command) returns (actions: seq<Action>, s': State)
    requires c in s.commands && Reply(s.devices, s.limits, c).Some?
    ensures Leads(s, actions, s') && KeepsPlans(actions)
    ensures s' == s.(devices := DevicesAfter(s.devices, c), events := s'.events, replies := s'.replies, passed := s'.passed)
    ensures s'.events == s.events + {Reply(s.devices, s.limits, c).value}
  {
    var e := Reply(s.devices, s.limits, c).value;
    var s1 := Apply(s, HandleCommand(c));
    s' := Apply(s1, PublishReply(e));
    actions := [HandleCommand(c), PublishReply(e)];
    assert actions[1..] == [PublishReply(e)] && actions[1..][1..] == [];
    assert Leads(s', [], s');
    assert Leads(s1, [PublishReply(e)], s');
  }

  lemma {:induction false} Joined(s: State, a: seq<Action>, s': State, b: seq<Action>, s'': State)
    requires Leads(s, a, s') && Leads(s', b, s'') && KeepsPlans(a) && KeepsPlans(b)
    ensures Leads(s, a + b, s'') && KeepsPlans(a + b)
  {
    LeadsConcat(s, a, s', b, s'');
  }

  // ---------------------------------------------------------------- compensation

  /** From a failed quota the compensation can always be finished: the device is detached and the saga failed. */
  lemma {:induction false} Compensates(s: State, corr: string, t: string) returns (actions: seq<Action>, s': State)
    requires Causal(s) && QuotaFailed(corr, t) in s.events && corr in s.sagas
    ensures Leads(s, actions, s') && KeepsPlans(actions)
    ensures s'.devices == s.devices - {corr} && s'.limits == s.limits
    ensures corr in s'.sagas && s'.sagas[corr].status == Failed && s'.sagas[corr].step == DeviceCreated
  {
    assert EventCaused(s, QuotaFailed(corr, t));
    AllocateTenant(s, corr, t);
    var first, s1 := EventIsHandled(s, QuotaFailed(corr, t));
    assert Answers(QuotaFailed(corr, t), Detach(corr, corr, t));
    var second, s2 := CommandIsAnswered(s1, Detach(corr, corr, t));
    assert DevicesBorn(s);
    assert s2.devices == s.devices - {corr};
    var third, s3 := EventIsHandled(s2, Detached(corr, t));
    Joined(s, first, s1, second, s2);
    Joined(s, first + second, s2, third, s3);
    actions, s' := first + second + third, s3;
  }

  /** The same over runs: in every reachable state with a failed quota and its saga, some continuation removes
      the device and leaves the saga failed. */
  lemma {:induction false} FailedQuotaIsCompensated(run: seq<State>, actions: seq<Action>, n: nat, corr: string, t: string)
    returns (more: seq<Action>, s': State)
    requires IsRun(run, actions) && n < |run| && QuotaFailed(corr, t) in run[n].events && corr in run[n].sagas
    ensures Leads(run[n], more, s') && s'.devices == run[n].devices - {corr}
    ensures corr in s'.sagas && s'.sagas[corr].status == Failed && s'.sagas[corr].step == DeviceCreated
  {
    RunsAreCausal(run, actions, n);
    more, s' := Compensates(run[n], corr, t);
  }

  // ---------------------------------------------------------------- completion

  /** The create transaction can add this device. */
  predicate IsNew(s: State, d: string, t: string, serial: string) {
    d != "" && t != "" && d !in s.born && !SerialTaken(s, t, serial)
  }

  /** The device is created and its event is on the topic. */
  lemma {:induction false} IsAnnounced(s: State, d: string, t: string, serial: string) returns (actions: seq<Action>, s': State)
    requires IsNew(s, d, t, serial)
    ensures Leads(s, actions, s') && KeepsPlans(actions)
    ensures s' == s.(devices := s.devices[d := Device(t, serial)], born := s.born[d := t], outbox := s'.outbox, events := s'.events)
    ensures s'.events == s.events + {Created(d, d, t)}
  {
    var s1 := Apply(s, CreateDevice(d, t, serial));
    s' := Apply(s1, Relay(OutboxRow(d, t)));
    actions := [CreateDevice(d, t, serial), Relay(OutboxRow(d, t))];
    assert actions[1..] == [Relay(OutboxRow(d, t))] && actions[1..][1..] == [];
    assert Leads(s', [], s');
    assert Leads(s1, [Relay(OutboxRow(d, t))], s');
  }

  lemma {:induction false} SagaIsBorn(s: State, d: string)
    requires Causal(s) && d in s.sagas
    ensures d in s.born
  {
    assert SagaCaused(s, d, s.sagas[d]);
    assert EventCaused(s, Created(d, d, s.sagas[d].tenant));
  }

  /** A new device comes as far as its quota command. */
  lemma {:induction false} AsksForQuota(s: State, d: string, t: string, serial: string) returns (actions: seq<Action>, s': State)
    requires Causal(s) && IsNew(s, d, t, serial)
    ensures Leads(s, actions, s') && KeepsPlans(actions)
    ensures s'.devices == s.devices[d := Device(t, serial)] && s'.limits == s.limits && s'.born == s.born[d := t]
    ensures s.events <= s'.events && d in s'.sagas && Allocate(d, d, t) in s'.commands
  {
    forall d' | d' in s.sagas ensures d' in s.born {
      SagaIsBorn(s, d');
    }
    var first, s1 := IsAnnounced(s, d, t, serial);
    var second, s2 := EventIsHandled(s1, Created(d, d, t));
    var third, s3 := IsAttached(s2, d, t);
    Joined(s, first, s1, second, s2);
    Joined(s, first + second, s2, third, s3);
    actions, s' := first + second + third, s3;
  }

  lemma {:induction false} IsAttached(s: State, d: string, t: string) returns (actions: seq<Action>, s': State)
    requires Attach(d, d, t) in s.commands && d in s.devices && s.devices[d].tenant == t && d in s.sagas
    ensures Leads(s, actions, s') && KeepsPlans(actions)
    ensures s'.devices == s.devices && s'.limits == s.limits && s'.born == s.born
    ensures s.events <= s'.events && d in s'.sagas && Allocate(d, d, t) in s'.commands
  {
    var first, s1 := CommandIsAnswered(s, Attach(d, d, t));
    var second, s2 := EventIsHandled(s1, Attached(d, t));
    assert Answers(Attached(d, t), Allocate(d, d, t));
    Joined(s, first, s1, second, s2);
    actions, s' := first + second, s2;
  }

  /** A new device gets the answer of the registry to its quota command. */
  lemma {:induction false} HearsAboutQuota(s: State, d: string, t: string, serial: string, e: Event) returns (actions: seq<Action>, s': State)
    requires Causal(s) && IsNew(s, d, t, serial)
    requires Reply(s.devices[d := Device(t, serial)], s.limits, Allocate(d, d, t)) == Some(e)
    ensures Leads(s, actions, s') && KeepsPlans(actions) && Causal(s')
    ensures s'.devices == s.devices[d := Device(t, serial)] && s'.limits == s.limits && s'.born == s.born[d := t]
    ensures s.events + {e} <= s'.events && d in s'.sagas
  {
    var first, s1 := AsksForQuota(s, d, t, serial);
    var second, s2 := CommandIsAnswered(s1, Allocate(d, d, t));
    Joined(s, first, s1, second, s2);
    LeadsKeepsCausal(s, first + second, s2);
    actions, s' := first + second, s2;
  }

  /** A granted device comes to a completed saga. */
  lemma {:induction false} Completes(s: State, d: string, t: string, serial: string) returns (actions: seq<Action>, s': State)
    requires Causal(s) && IsNew(s, d, t, serial)
    requires Reply(s.devices[d := Device(t, serial)], s.limits, Allocate(d, d, t)) == Some(Allocated(d, t))
    ensures Leads(s, actions, s') && KeepsPlans(actions)
    ensures s'.devices == s.devices[d := Device(t, serial)] && s'.limits == s.limits && s'.born == s.born[d := t]
    ensures s.events + {Allocated(d, t)} <= s'.events && d in s'.sagas && s'.sagas[d].status == Completed
  {
    var first, s1 := HearsAboutQuota(s, d, t, serial, Allocated(d, t));
    var second, s2 := EventIsHandled(s1, Allocated(d, t));
    Joined(s, first, s1, second, s2);
    actions, s' := first + second, s2;
  }

  /** From every reachable state a new device that the gateway admits can be provisioned: it stays, its quota is
      granted and its saga completed. One that the gateway would refuse can be created behind its back, but
      then it is detached again and its saga failed. */
  lemma {:induction false} NewDeviceEnds(run: seq<State>, actions: seq<Action>, n: nat, d: string, t: string, serial: string,
                                         row: Plans.TenantRow, now: int) returns (more: seq<Action>, s': State)
    requires IsRun(run, actions) && n < |run| && IsNew(run[n], d, t, serial) && LimitIs(run[n].limits, t, row, now)
    ensures Leads(run[n], more, s') && d in s'.sagas
    ensures if Plans.CheckDeviceQuota(Some(row), |DevicesOf(run[n].devices, t)|, now).allowed then
              && s'.devices == run[n].devices[d := Device(t, serial)]
              && Allocated(d, t) in s'.events && s'.sagas[d].status == Completed
            else s'.devices == run[n].devices && s'.sagas[d].status == Failed
  {
    var s := run[n];
    RunsAreCausal(run, actions, n);
    assert d !in s.devices by {
      assert DevicesBorn(s);
    }
    AdmittedIffGranted(s.devices, s.limits, d, t, serial, row, now);
    if Plans.CheckDeviceQuota(Some(row), |DevicesOf(s.devices, t)|, now).allowed {
      more, s' := Completes(s, d, t, serial);
    } else {
      more, s' := ComesAndGoes(s, d, t, serial);
    }
  }

  lemma {:induction false} LeadsKeepsCausal(s: State, actions: seq<Action>, s': State)
    requires Causal(s) && Leads(s, actions, s')
    ensures Causal(s')
    decreases |actions|
  {
    if actions != [] {
      ActionKeepsCausal(s, actions[0]);
      LeadsKeepsCausal(Apply(s, actions[0]), actions[1..], s');
    }
  }

  lemma {:induction false} ComesAndGoes(s: State, d: string, t: string, serial: string) returns (actions: seq<Action>, s': State)
    requires Causal(s) && IsNew(s, d, t, serial) && d !in s.devices
    requires Reply(s.devices[d := Device(t, serial)], s.limits, Allocate(d, d, t)) == Some(QuotaFailed(d, t))
    ensures Leads(s, actions, s') && s'.devices == s.devices && d in s'.sagas && s'.sagas[d].status == Failed
  {
    var first, s1 := HearsAboutQuota(s, d, t, serial, QuotaFailed(d, t));
    var second, s2 := Compensates(s1, d, t);
    Joined(s, first, s1, second, s2);
    actions, s' := first + second, s2;
    AddedAndRemoved(s.devices, d, Device(t, serial));
  }

  lemma {:induction false} AddedAndRemoved(devices: map<string, Device>, d: string, device: Device)
    requires d !in devices
    ensures devices[d := device] - {d} == devices
  {}

  // ---------------------------------------------------------------- the quota can be used up

  /** The k-th device and its serial. */
  function Name(k: nat): string {
    seq(k + 1, _ => 'd')
  }

  function Names(k: nat): set<string> {
    set i: nat | i < k :: Name(i)
  }

  lemma {:induction false} NamesAreDistinct(k: nat)
    ensures |Names(k)| == k && Name(k) !in Names(k)
  {
    if k == 0 {
      assert Names(0) == {};
    } else {
      NamesAreDistinct(k - 1);
      assert Names(k) == Names(k - 1) + {Name(k - 1)};
      assert forall i: nat :: i < k ==> |Name(i)| != |Name(k)|;
    }
  }

  /** The tenant's first k devices are there and granted. */
  predicate Provisioned(s: State, t: string, limit: nat, k: nat) {
    && s.devices.Keys == Names(k) && s.born.Keys == Names(k) && s.limits == map[t := limit]
    && forall i: nat :: i < k ==> s.devices[Name(i)] == Device(t, Name(i)) && Allocated(Name(i), t) in s.events
  }

  lemma {:induction false} ProvisionedMany(s: State, t: string, limit: nat, k: nat) returns (actions: seq<Action>, s': State)
    requires Causal(s) && Provisioned(s, t, limit, 0) && t != "" && k <= limit
    ensures Leads(s, actions, s') && KeepsPlans(actions) && Provisioned(s', t, limit, k)
  {
    if k == 0 {
      actions, s' := [], s;
    } else {
      var most, s1 := ProvisionedMany(s, t, limit, k - 1);
      LeadsKeepsCausal(s, most, s1);
      NamesAreDistinct(k - 1);
      NextIsNew(s1, t, limit, k - 1);
      NextIsGranted(s1, t, limit, k - 1);
      var last, s2 := Completes(s1, Name(k - 1), t, Name(k - 1));
      Joined(s, most, s1, last, s2);
      actions, s' := most + last, s2;
      OneMoreProvisioned(s1, s2, t, limit, k - 1);
    }
  }

  lemma {:induction false} NextIsNew(s: State, t: string, limit: nat, k: nat)
    requires Provisioned(s, t, limit, k) && t != "" && Name(k) !in Names(k)
    ensures IsNew(s, Name(k), t, Name(k))
  {
    forall d | d in s.devices ensures s.devices[d] != Device(t, Name(k)) {
      assert d in Names(k);
    }
  }

  lemma {:induction false} NextIsGranted(s: State, t: string, limit: nat, k: nat)
    requires Provisioned(s, t, limit, k) && t != "" && k < limit
    ensures Reply(s.devices[Name(k) := Device(t, Name(k))], s.limits, Allocate(Name(k), Name(k), t)) == Some(Allocated(Name(k), t))
  {
    NamesAreDistinct(k);
    assert DevicesOf(s.devices, t) == Names(k);
    OneMoreDevice(s.devices, Name(k), t, Name(k));
  }

  lemma {:induction false} OneMoreProvisioned(s: State, s': State, t: string, limit: nat, k: nat)
    requires Provisioned(s, t, limit, k) && s'.limits == s.limits
    requires s'.devices == s.devices[Name(k) := Device(t, Name(k))] && s'.born == s.born[Name(k) := t]
    requires s.events + {Allocated(Name(k), t)} <= s'.events
    ensures Provisioned(s', t, limit, k + 1)
  {
    assert Names(k + 1) == Names(k) + {Name(k)};
    assert forall i: nat :: i < k ==> |Name(i)| != |Name(k)|;
  }

  lemma {:induction false} LimitStays(run: seq<State>, actions: seq<Action>, t: string, limit: nat, n: nat)
    requires IsRun(run, actions) && n < |run| && actions != [] && actions[0] == SetLimit(t, limit) && KeepsPlans(actions[1..])
    ensures Within(run[n], t, limit) && (n > 0 ==> run[n].limits == map[t := limit])
  {
    if n > 0 {
      LimitStays(run, actions, t, limit, n - 1);
      assert Follows(run, n - 1, actions[n - 1]);
      if n > 1 {
        assert actions[1..][n - 2] == actions[n - 1];
      }
    }
  }

  /** The bound of quota safety is met: for every limit there is a run that keeps the tenant's limit at it
      and ends with exactly that many granted devices. */
  lemma {:induction false} QuotaCanBeUsedUp(t: string, limit: nat) returns (run: seq<State>, actions: seq<Action>)
    requires t != ""
    ensures IsRun(run, actions) && forall i :: 0 <= i < |run| ==> Within(run[i], t, limit)
    ensures |Granted(run[|run| - 1], t)| == limit
  {
    var s := Apply(Empty, SetLimit(t, limit));
    assert Names(0) == {};
    ActionKeepsCausal(Empty, SetLimit(t, limit));
    var rest, s' := ProvisionedMany(s, t, limit, limit);
    actions := [SetLimit(t, limit)] + rest;
    assert actions[1..] == rest;
    assert Leads(Empty, actions, s');
    run := LeadsIsRun([Empty], [], actions, s');
    assert [] + actions == actions;
    forall i | 0 <= i < |run| ensures Within(run[i], t, limit) {
      LimitStays(run, actions, t, limit, i);
    }
    assert Granted(s', t) == Names(limit);
    NamesAreDistinct(limit);
  }
}
