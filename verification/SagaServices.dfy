/**
 The services of the saga as they run: the orchestrator's handlers and its three-attempt consumer
 loop, the registry's command loop and the recovery tick.
 */
module SagaServices {
  import opened Wrappers
  import opened SagaModel

  // ---------------------------------------------------------------- orchestrator

  const MAX_ATTEMPTS := 3

  /** The consumer's attempts at one event: the first success ends them. */
  function Attempts(sagas: Sagas, e: Event, tries: seq<seq<Outcome>>): (Sagas, seq<Command>, bool)
    requires forall os :: os in tries ==> |os| >= 4
    decreases |tries|
  {
    if tries == [] then (sagas, [], false)
    else
      var (sagas', sent, ok) := Attempt(sagas, Finding(e), tries[0]);
      if ok then (sagas', sent, true)
      else
        var (sagas'', more, done) := Attempts(sagas', e, tries[1..]);
        (sagas'', sent + more, done)
  }

  /** The loop has made `attempt` attempts; success ends it, otherwise the remaining ones are to come. */
  ghost predicate Resumes(before: Sagas, e: Event, tries: seq<seq<Outcome>>, sagas: Sagas, sent: seq<Command>, attempt: nat, ok: bool)
    requires forall os :: os in tries ==> |os| >= 4
    requires attempt <= |tries|
  {
    var all := Attempts(before, e, tries);
    if ok then all == (sagas, sent, true)
    else
      var rest := Attempts(sagas, e, tries[attempt..]);
      all == (rest.0, sent + rest.1, rest.2)
  }

  lemma {:induction false} ResumesAfter(before: Sagas, e: Event, tries: seq<seq<Outcome>>, sagas: Sagas, sent: seq<Command>, attempt: nat)
    requires forall os :: os in tries ==> |os| >= 4
    requires attempt < |tries| && Resumes(before, e, tries, sagas, sent, attempt, false)
    ensures tries[attempt] in tries
    ensures var r := Attempt(sagas, Finding(e), tries[attempt]);
            Resumes(before, e, tries, r.0, sent + r.1, attempt + 1, r.2)
  {
    assert tries[attempt] in tries;
    assert tries[attempt..][1..] == tries[attempt + 1..];
    var r := Attempt(sagas, Finding(e), tries[attempt]);
    if !r.2 {
      var rest := Attempts(r.0, e, tries[attempt + 1..]);
      assert (sent + r.1) + rest.1 == sent + (r.1 + rest.1);
    }
  }

  lemma {:induction false} HandlingDoes(sagas: Sagas, e: Event, os: seq<Outcome>)
    requires |os| >= 4
    ensures var r := Attempt(sagas, Finding(e), os);
            AllWork(os) && Expected(sagas, e) ==>
              r.2 && e.corr in r.0 && Reaches(e, r.0[e.corr]) && forall c :: Answers(e, c) <==> c in r.1
  {
    if AllWork(os) && Expected(sagas, e) {
      WorkingAttempt(sagas, e, os);
      forall c ensures Answers(e, c) <==> c in Attempt(sagas, Finding(e), os).1 {
        PublishedIff(sagas, e, os, c);
      }
    }
  }

  /** The lookups of the first attempts fail, and then all calls of one attempt work. */
  predicate WorksAt(sagas: Sagas, e: Event, tries: seq<seq<Outcome>>, k: nat)
    requires k < |tries| && forall os :: os in tries ==> |os| >= 4
  {
    Expected(sagas, e) && AllWork(tries[k]) && forall i :: 0 <= i < k ==> tries[i] in tries && !tries[i][0].Works?
  }

  predicate NeverFound(tries: seq<seq<Outcome>>)
    requires forall os :: os in tries ==> |os| >= 4
  {
    forall i :: 0 <= i < |tries| ==> tries[i] in tries && !tries[i][0].Works?
  }

  lemma {:induction false} HandledInTheEnd(sagas: Sagas, e: Event, tries: seq<seq<Outcome>>, k: nat)
    requires k < |tries| && (forall os :: os in tries ==> |os| >= 4) && WorksAt(sagas, e, tries, k)
    ensures var r := Attempts(sagas, e, tries); r.2 && e.corr in r.0 && Reaches(e, r.0[e.corr])
    decreases k
  {
    assert tries[0] in tries;
    if k == 0 {
      HandlingDoes(sagas, e, tries[0]);
    } else {
      LookupFails(sagas, e, tries[0]);
      assert forall i :: 0 <= i < |tries[1..]| ==> tries[1..][i] == tries[i + 1];
      HandledInTheEnd(sagas, e, tries[1..], k - 1);
    }
  }

  lemma {:induction false} GivenUp(sagas: Sagas, e: Event, tries: seq<seq<Outcome>>)
    requires (forall os :: os in tries ==> |os| >= 4) && NeverFound(tries)
    ensures Attempts(sagas, e, tries) == (sagas, [], false)
    decreases |tries|
  {
    if tries != [] {
      assert tries[0] in tries;
      LookupFails(sagas, e, tries[0]);
      assert forall i :: 0 <= i < |tries[1..]| ==> tries[1..][i] == tries[i + 1];
      GivenUp(sagas, e, tries[1..]);
    }
  }

  /** Once an attempt works after failed lookups the event is handled; if every lookup fails nothing changes. */
  ghost predicate EndsAs(before: Sagas, e: Event, tries: seq<seq<Outcome>>, sagas: Sagas, handled: bool)
    requires forall os :: os in tries ==> |os| >= 4
  {
    && (forall k :: 0 <= k < |tries| && WorksAt(before, e, tries, k) ==> handled && e.corr in sagas && Reaches(e, sagas[e.corr]))
    && (NeverFound(tries) ==> !handled && sagas == before)
  }

  lemma {:induction false} EndsAsItShould(sagas: Sagas, e: Event, tries: seq<seq<Outcome>>)
    requires forall os :: os in tries ==> |os| >= 4
    ensures EndsAs(sagas, e, tries, Attempts(sagas, e, tries).0, Attempts(sagas, e, tries).2)
  {
    forall k | 0 <= k < |tries| && WorksAt(sagas, e, tries, k)
      ensures var r := Attempts(sagas, e, tries); r.2 && e.corr in r.0 && Reaches(e, r.0[e.corr])
    {
      HandledInTheEnd(sagas, e, tries, k);
    }
    if NeverFound(tries) {
      GivenUp(sagas, e, tries);
    }
  }

  class Orchestrator {
    var sagas: Sagas
    var commands: seq<Command>
    var deadLetters: seq<Event>

    constructor ()
      ensures sagas == map[] && commands == [] && deadLetters == []
    {
      sagas, commands, deadLetters := map[], [], [];
    }

    /** Publish a command, then record the step it starts; a publication error fails the saga. */
    method PublishAndUpdate(corr: string, command: Command, status: Status, step: Step, os: seq<Outcome>) returns (ok: bool)
      requires |os| >= 2
      modifies this
      ensures var r := Attempt(old(sagas), Publishing(corr, command, status, step), os);
              sagas == r.0 && commands == old(commands) + r.1 && ok == r.2
      ensures deadLetters == old(deadLetters)
    {
      PublishingEnds(sagas, Publishing(corr, command, status, step), os);
      if !os[0].Fails? {
        commands := commands + [command];
      }
      if os[0].Works? {
        ok := UpdateStepStatus(corr, status, step, os[1]);
      } else {
        if !os[1].Fails? {
          sagas := MarkFailed(sagas, corr);
        }
        ok := false;
      }
    }

    method UpdateStepStatus(corr: string, status: Status, step: Step, o: Outcome) returns (ok: bool)
      modifies this
      ensures sagas == (if o.Fails? then old(sagas) else SetStatus(old(sagas), corr, status, step))
      ensures ok == o.Works? && commands == old(commands) && deadLetters == old(deadLetters)
    {
      if !o.Fails? && corr in sagas {
        sagas := sagas[corr := sagas[corr].(status := status, step := step)];
      }
      ok := o.Works?;
    }

    /** One attempt at an event; `os` are the outcomes of the calls it makes, in order. */
    method HandleEvent(e: Event, os: seq<Outcome>) returns (ok: bool)
      requires |os| >= 4
      modifies this
      ensures var r := Attempt(old(sagas), Finding(e), os);
              sagas == r.0 && commands == old(commands) + r.1 && ok == r.2
      ensures AllWork(os) && Expected(old(sagas), e) ==>
                ok && e.corr in sagas && Reaches(e, sagas[e.corr])
                && forall c :: Answers(e, c) <==> c in commands[|old(commands)|..]
      ensures deadLetters == old(deadLetters)
    {
      HandlingDoes(sagas, e, os);
      if !os[0].Works? {
        return false;
      }
      FindingContinues(sagas, e, os);
      var found := e.corr in sagas;
      match e {
        case Created(corr, device, tenant) =>
          if found {
            return true;
          }
          if !os[1].Fails? {
            sagas := sagas[corr := Saga(Started, DeviceCreated, device, tenant)];
          }
          if !os[1].Works? {
            assert Attempt(old(sagas), Creating(e), os[1..]) == (sagas, [], false);
            return false;
          }
          assert os[1..][1..] == os[2..];
          ghost var end := Attempt(sagas, Publishing(corr, Attach(corr, device, tenant), InProgress, TenantAttached), os[2..]);
          assert [] + end.1 == end.1;
          assert Attempt(old(sagas), Creating(e), os[1..]) == end;
          ok := PublishAndUpdate(corr, Attach(corr, device, tenant), InProgress, TenantAttached, os[2..]);
        case Attached(corr, tenant) =>
          if !found {
            return false;
          }
          ok := PublishAndUpdate(corr, Allocate(corr, corr, tenant), InProgress, QuotaAllocated, os[1..]);
        case Allocated(corr, tenant) =>
          if !found {
            return false;
          }
          UpdatingEnds(sagas, Updating(corr, Completed, QuotaAllocated), os[1..]);
          ok := UpdateStepStatus(corr, Completed, QuotaAllocated, os[1]);
        case QuotaFailed(corr, tenant) =>
          if !found {
            return false;
          }
          ok := PublishAndUpdate(corr, Detach(corr, corr, tenant), Compensating, TenantAttached, os[1..]);
        case Detached(corr, tenant) =>
          if !found {
            return false;
          }
          UpdatingEnds(sagas, Updating(corr, Failed, DeviceCreated), os[1..]);
          ok := UpdateStepStatus(corr, Failed, DeviceCreated, os[1]);
      }
    }

    /** The consumer loop body: up to three attempts, then the dead-letter topic. */
    method Consume(e: Event, tries: seq<seq<Outcome>>)
      requires |tries| == 3 && forall os :: os in tries ==> |os| >= 4
      modifies this
      ensures var r := Attempts(old(sagas), e, tries);
              sagas == r.0 && commands == old(commands) + r.1
              && deadLetters == old(deadLetters) + (if r.2 then [] else [e])
      ensures EndsAs(old(sagas), e, tries, sagas, deadLetters == old(deadLetters))
    {
      EndsAsItShould(sagas, e, tries);
      var ok := false;
      var attempt := 0;
      ghost var sent: seq<Command> := [];
      assert tries[0..] == tries;
      assert sent + Attempts(sagas, e, tries).1 == Attempts(sagas, e, tries).1;
      while attempt < MAX_ATTEMPTS && !ok
        invariant 0 <= attempt <= MAX_ATTEMPTS
        invariant deadLetters == old(deadLetters)
        invariant commands == old(commands) + sent
        invariant Resumes(old(sagas), e, tries, sagas, sent, attempt, ok)
      {
        ResumesAfter(old(sagas), e, tries, sagas, sent, attempt);
        sent := sent + Attempt(sagas, Finding(e), tries[attempt]).1;
        ok := HandleEvent(e, tries[attempt]);
        attempt := attempt + 1;
      }
      if !ok {
        assert tries[attempt..] == [];
        deadLetters := deadLetters + [e];
      }
    }
  }

  // ---------------------------------------------------------------- registry and recovery

  class AssetRegistry {
    var devices: map<string, Device>
    var limits: map<string, int>
    var events: seq<Event>

    constructor (limits: map<string, int>)
      ensures devices == map[] && events == [] && this.limits == limits
    {
      devices, events, this.limits := map[], [], limits;
    }

    method CountDevices(tenant: string) returns (count: nat)
      ensures count == |DevicesOf(devices, tenant)|
    {
      count := 0;
      var todo := devices.Keys;
      ghost var seen: set<string> := {};
      while todo != {}
        invariant todo <= devices.Keys
        invariant seen == set d | d in devices && d !in todo && devices[d].tenant == tenant
        invariant count == |seen|
        decreases |todo|
      {
        var d :| d in todo;
        todo := todo - {d};
        if devices[d].tenant == tenant {
          count := count + 1;
          seen := seen + {d};
        }
      }
      assert seen == DevicesOf(devices, tenant);
    }

    /** One command, one attempt; an error is logged and the command is committed all the same. */
    method Handle(c: Command, o: Outcome)
      modifies this
      ensures devices == DevicesAfter(old(devices), c) && limits == old(limits)
      ensures var reply := Reply(old(devices), limits, c);
              events == old(events) + if reply.Some? && !o.Fails? then [reply.value] else []
      ensures c.Allocate? && c.tenant != "" && c.tenant in limits && !o.Fails? ==>
                events == old(events) + [if limits[c.tenant] == -1 || |DevicesOf(old(devices), c.tenant)| <= limits[c.tenant]
                                         then Allocated(c.corr, c.tenant) else QuotaFailed(c.corr, c.tenant)]
    {
      var reply: Option<Event> := None;
      match c {
        case Attach(corr, device, tenant) =>
          if device in devices {
            reply := Some(Attached(corr, devices[device].tenant));
          }
        case Allocate(corr, device, tenant) =>
          if tenant != "" && tenant in limits {
            var count := CountDevices(tenant);
            if limits[tenant] != UNLIMITED && count > limits[tenant] {
              reply := Some(QuotaFailed(corr, tenant));
            } else {
              reply := Some(Allocated(corr, tenant));
            }
          }
        case Detach(corr, device, tenant) =>
          if tenant != "" {
            if device in devices && devices[device].tenant == tenant {
              devices := devices - {device};
            }
            reply := Some(Detached(corr, tenant));
          }
      }
      if reply.Some? && !o.Fails? {
        events := events + [reply.value];
      }
    }
  }

  datatype SagaRow = SagaRow(corr: string, saga: Saga, updatedAt: int)

  const STUCK_AFTER := 5 * 60

  predicate IsStuck(row: SagaRow, now: int) {
    (row.saga.status == InProgress || row.saga.status == Compensating) && row.updatedAt < now - STUCK_AFTER
  }

  /** The recovery tick: select the stuck sagas, then issue for each the command of its step. */
  method Recover(rows: seq<SagaRow>, now: int, publishes: seq<bool>) returns (commands: seq<Command>)
    requires |publishes| == |rows|
    ensures forall c :: c in commands <==>
              exists i :: 0 <= i < |rows| && publishes[i] && rows[i].updatedAt < now - 300
                          && (rows[i].saga.status == InProgress || rows[i].saga.status == Compensating)
                          && RetryCommand(rows[i].corr, rows[i].saga) == Some(c)
  {
    commands := [];
    for k := 0 to |rows|
      invariant forall c :: c in commands <==>
                  exists i :: 0 <= i < k && publishes[i] && IsStuck(rows[i], now)
                              && RetryCommand(rows[i].corr, rows[i].saga) == Some(c)
    {
      if IsStuck(rows[k], now) && publishes[k] {
        var c := RetryCommand(rows[k].corr, rows[k].saga);
        if c.Some? {
          commands := commands + [c.value];
        }
      }
    }
  }
}
