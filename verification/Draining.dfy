/**
 Orchestrator and registry come to rest. Any number of workers take events and make their calls one by one,
 interleaved at will, up to three attempts an event; the registry handles commands. Without recovery ticks
 and redelivery every run ends, because every step uses up weight.
 */
module Draining {
  import opened Collections
  import opened SagaModel
  import opened SagaServices

  datatype Message = Ev(event: Event) | Cmd(command: Command)

  /** An event in the hands of a worker: attempts left after this one, and the call it is about to make. */
  datatype Job = Job(event: Event, left: nat, work: Work)

  datatype World = World(bag: seq<Message>, jobs: seq<Job>, sagas: Sagas)

  /** What the registry finds in its tables and how every call ends is left open. */
  datatype Step =
    | Take(at: nat)
    | Call(job: nat, outcome: Outcome)
    | Settle(job: nat)
    | Crash(job: nat)
    | Handle(at: nat, devices: map<string, Device>, limits: map<string, int>, outcome: Outcome)

  predicate Enabled(w: World, s: Step) {
    match s
    case Take(at) => at < |w.bag| && w.bag[at].Ev?
    case Call(j, _) => j < |w.jobs| && !w.jobs[j].work.Finished?
    case Settle(j) => j < |w.jobs| && w.jobs[j].work.Finished?
    case Crash(j) => j < |w.jobs|
    case Handle(at, _, _, _) => at < |w.bag| && w.bag[at].Cmd?
  }

  /** A finished attempt ends the job if it succeeded or was the last one. */
  function Apply(w: World, s: Step): World
    requires Enabled(w, s)
  {
    match s
    case Take(at) =>
      var e := w.bag[at].event;
      w.(bag := Without(w.bag, at), jobs := w.jobs + [Job(e, MAX_ATTEMPTS - 1, Finding(e))])
    case Call(j, o) =>
      var (work, sagas, sent) := Advance(w.sagas, w.jobs[j].work, o);
      World(if sent.Some? then w.bag + [Cmd(sent.value)] else w.bag, w.jobs[j := w.jobs[j].(work := work)], sagas)
    case Settle(j) =>
      var job := w.jobs[j];
      if job.work.ok || job.left == 0 then w.(jobs := Without(w.jobs, j))
      else w.(jobs := w.jobs[j := Job(job.event, job.left - 1, Finding(job.event))])
    case Crash(j) => w.(jobs := Without(w.jobs, j))
    case Handle(at, devices, limits, o) =>
      var reply := Reply(devices, limits, w.bag[at].command);
      var rest := Without(w.bag, at);
      w.(bag := if reply.Some? && !o.Fails? then rest + [Ev(reply.value)] else rest)
  }

  // ---------------------------------------------------------------- weights

  /** The weight of the command that answers an event. */
  function AnswerWeight(e: Event): nat {
    match e
    case Created(_, _, _) => 247
    case Attached(_, _) => 76
    case QuotaFailed(_, _) => 19
    case _ => 0
  }

  /** An event outweighs three attempts of four calls and a command each; a command outweighs its reply. */
  function Weight(m: Message): nat {
    match m
    case Ev(e) => 3 * AnswerWeight(e) + 18
    case Cmd(Attach(_, _, _)) => 247
    case Cmd(Allocate(_, _, _)) => 76
    case Cmd(Detach(_, _, _)) => 19
  }

  function WorkWeight(e: Event, w: Work): nat {
    CallsLeft(w) + 1 + if w.Finding? || w.Creating? || w.Publishing? then AnswerWeight(e) else 0
  }

  function JobWeight(job: Job): nat {
    job.left * (AnswerWeight(job.event) + 6) + WorkWeight(job.event, job.work)
  }

  function Total(w: World): nat {
    Sum(Weight, w.bag) + Sum(JobWeight, w.jobs)
  }

  /** The work belongs to the event. */
  predicate Fits(job: Job) {
    match job.work
    case Finding(e) => e == job.event
    case Creating(e) => e == job.event
    case Publishing(_, c, _, _) => Answers(job.event, c)
    case _ => true
  }

  predicate AllFit(jobs: seq<Job>) {
    forall i :: 0 <= i < |jobs| ==> Fits(jobs[i])
  }

  lemma {:induction false} StepKeepsFit(w: World, s: Step)
    requires AllFit(w.jobs) && Enabled(w, s)
    ensures AllFit(Apply(w, s).jobs)
  {
    if s.Call? {
      assert Fits(w.jobs[s.job]);
    }
  }

  // ---------------------------------------------------------------- every step uses up weight

  lemma {:induction false} CallUsesWeight(sagas: Sagas, job: Job, o: Outcome)
    requires Fits(job) && !job.work.Finished?
    ensures var (work, _, sent) := Advance(sagas, job.work, o);
            JobWeight(job.(work := work)) + (if sent.Some? then Weight(Cmd(sent.value)) else 0) < JobWeight(job)
  {
    AdvanceFinishesSooner(sagas, job.work, o);
  }

  lemma {:induction false} RetryUsesWeight(job: Job)
    requires job.work.Finished? && job.left > 0
    ensures JobWeight(Job(job.event, job.left - 1, Finding(job.event))) < JobWeight(job)
  {
    OneMore(job.left - 1, AnswerWeight(job.event) + 6);
  }

  lemma {:induction false} CallDrains(w: World, j: nat, o: Outcome)
    requires AllFit(w.jobs) && Enabled(w, Call(j, o))
    ensures Total(Apply(w, Call(j, o))) < Total(w)
  {
    var job := w.jobs[j];
    var (work, _, sent) := Advance(w.sagas, job.work, o);
    assert Fits(job);
    CallUsesWeight(w.sagas, job, o);
    SumUpdated(JobWeight, w.jobs, j, job.(work := work));
    if sent.Some? {
      SumAdded(Weight, w.bag, Cmd(sent.value));
    }
  }

  lemma {:induction false} SettleDrains(w: World, j: nat)
    requires Enabled(w, Settle(j))
    ensures Total(Apply(w, Settle(j))) < Total(w)
  {
    var job := w.jobs[j];
    SumWithout(JobWeight, w.jobs, j);
    if !job.work.ok && job.left > 0 {
      RetryUsesWeight(job);
      SumUpdated(JobWeight, w.jobs, j, Job(job.event, job.left - 1, Finding(job.event)));
    }
  }

  lemma {:induction false} ReplyIsLight(devices: map<string, Device>, limits: map<string, int>, c: Command)
    ensures Reply(devices, limits, c).Some? ==> Weight(Ev(Reply(devices, limits, c).value)) < Weight(Cmd(c))
  {}

  lemma {:induction false} HandleDrains(w: World, s: Step)
    requires s.Handle? && Enabled(w, s)
    ensures Total(Apply(w, s)) < Total(w)
  {
    var reply := Reply(s.devices, s.limits, w.bag[s.at].command);
    ReplyIsLight(s.devices, s.limits, w.bag[s.at].command);
    SumWithout(Weight, w.bag, s.at);
    if reply.Some? {
      SumAdded(Weight, Without(w.bag, s.at), Ev(reply.value));
    }
  }

  lemma {:induction false} TakeDrains(w: World, at: nat)
    requires Enabled(w, Take(at))
    ensures Total(Apply(w, Take(at))) < Total(w)
  {
    var e := w.bag[at].event;
    SumWithout(Weight, w.bag, at);
    SumAdded(JobWeight, w.jobs, Job(e, MAX_ATTEMPTS - 1, Finding(e)));
  }

  /** Every step of any worker, of any attempt and of the registry makes the weighted sum smaller. */
  lemma {:induction false} StepDrains(w: World, s: Step)
    requires AllFit(w.jobs) && Enabled(w, s)
    ensures Total(Apply(w, s)) < Total(w)
  {
    match s
    case Take(at) => TakeDrains(w, at);
    case Call(j, o) => CallDrains(w, j, o);
    case Settle(j) => SettleDrains(w, j);
    case Crash(j) => SumWithout(JobWeight, w.jobs, j);
    case Handle(_, _, _, _) => HandleDrains(w, s);
  }

  ghost predicate ValidRun(w: World, steps: seq<Step>)
    decreases |steps|
  {
    steps == [] || (Enabled(w, steps[0]) && ValidRun(Apply(w, steps[0]), steps[1..]))
  }

  /** However the workers' calls interleave, a run is no longer than the weight it starts with. */
  lemma {:induction false} RunsDrain(w: World, steps: seq<Step>)
    requires AllFit(w.jobs) && ValidRun(w, steps)
    ensures |steps| <= Total(w)
    decreases |steps|
  {
    if steps != [] {
      StepDrains(w, steps[0]);
      StepKeepsFit(w, steps[0]);
      RunsDrain(Apply(w, steps[0]), steps[1..]);
    }
  }
}
