/**
 The reserve, confirm and cancel protocol of the change-data consumer, for any number of workers and
 publishers. An offset is named by its dedupe key. A write that reports failure wrote nothing.
 */
module Dedupe {

  datatype Mark = Reserved | Done

  /** Redis keys; the jobs in each stage; the two topics; and, for the books, every reservation made and
      every job given up. */
  datatype State = State(
    keys: map<string, Mark>,
    transforming: multiset<string>,
    queued: multiset<string>,
    writing: multiset<string>,
    deadLettering: multiset<string>,
    output: multiset<string>,
    deadLetters: multiset<string>,
    reserved: multiset<string>,
    givenUp: multiset<string>)

  const Empty := State(map[], multiset{}, multiset{}, multiset{}, multiset{}, multiset{}, multiset{}, multiset{}, multiset{})

  datatype Stage = Transforming | Queued | Writing | DeadLettering

  function JobsIn(s: State, stage: Stage): multiset<string> {
    match stage
    case Transforming => s.transforming
    case Queued => s.queued
    case Writing => s.writing
    case DeadLettering => s.deadLettering
  }

  /** A process that stops or crashes drops its jobs one by one, at whatever stage they are. */
  datatype Action =
    | Reserve(key: string)
    | LoseReservation(key: string)
    | Skip(key: string)
    | Enqueue(key: string)
    | CancelTransform(key: string, deleted: bool)
    | Take(key: string)
    | Drop(key: string, stage: Stage)
    | Write(key: string)
    | ExhaustRetries(key: string)
    | DeadLetter(key: string)
    | CancelPublish(key: string, deleted: bool)
    | Confirm(key: string)

  function Release(keys: map<string, Mark>, key: string, deleted: bool): map<string, Mark> {
    if deleted then keys - {key} else keys
  }

  /** A confirmation is sent only after one of the two writes; jobs leave a stage only if they are in it. */
  predicate Enabled(s: State, a: Action) {
    match a
    case Reserve(_) => true
    case LoseReservation(_) => true
    case Skip(k) => k in s.transforming
    case Enqueue(k) => k in s.transforming
    case CancelTransform(k, _) => k in s.transforming
    case Take(k) => k in s.queued
    case Drop(k, stage) => k in JobsIn(s, stage)
    case Write(k) => k in s.writing
    case ExhaustRetries(k) => k in s.writing
    case DeadLetter(k) => k in s.deadLettering
    case CancelPublish(k, _) => k in s.deadLettering
    case Confirm(k) => HandedOver(s, k) > 0
  }

  function Apply(s: State, a: Action): State {
    match a
    case Reserve(k) =>
      if k in s.keys then s
      else s.(keys := s.keys[k := Reserved], transforming := s.transforming + multiset{k}, reserved := s.reserved + multiset{k})
    case LoseReservation(k) =>
      if k in s.keys then s
      else s.(keys := s.keys[k := Reserved], reserved := s.reserved + multiset{k}, givenUp := s.givenUp + multiset{k})
    case Skip(k) => s.(transforming := s.transforming - multiset{k}, givenUp := s.givenUp + multiset{k})
    case Enqueue(k) => s.(transforming := s.transforming - multiset{k}, queued := s.queued + multiset{k})
    case CancelTransform(k, deleted) =>
      s.(transforming := s.transforming - multiset{k}, givenUp := s.givenUp + multiset{k}, keys := Release(s.keys, k, deleted))
    case Take(k) => s.(queued := s.queued - multiset{k}, writing := s.writing + multiset{k})
    case Drop(k, stage) =>
      var dropped := s.(givenUp := s.givenUp + multiset{k});
      (match stage
       case Transforming => dropped.(transforming := s.transforming - multiset{k})
       case Queued => dropped.(queued := s.queued - multiset{k})
       case Writing => dropped.(writing := s.writing - multiset{k})
       case DeadLettering => dropped.(deadLettering := s.deadLettering - multiset{k}))
    case Write(k) => s.(writing := s.writing - multiset{k}, output := s.output + multiset{k})
    case ExhaustRetries(k) => s.(writing := s.writing - multiset{k}, deadLettering := s.deadLettering + multiset{k})
    case DeadLetter(k) => s.(deadLettering := s.deadLettering - multiset{k}, deadLetters := s.deadLetters + multiset{k})
    case CancelPublish(k, deleted) =>
      s.(deadLettering := s.deadLettering - multiset{k}, givenUp := s.givenUp + multiset{k}, keys := Release(s.keys, k, deleted))
    case Confirm(k) => s.(keys := s.keys[k := Done])
  }

  function InFlight(s: State, k: string): nat {
    s.transforming[k] + s.queued[k] + s.writing[k] + s.deadLettering[k]
  }

  function HandedOver(s: State, k: string): nat {
    s.output[k] + s.deadLetters[k]
  }

  /** A key stands for at most one job in flight or one message handed over, and no job is unaccounted for. */
  predicate Settled(s: State, k: string) {
    && InFlight(s, k) + HandedOver(s, k) <= (if k in s.keys then 1 else 0)
    && s.reserved[k] == InFlight(s, k) + HandedOver(s, k) + s.givenUp[k]
  }

  ghost predicate Inv(s: State) {
    forall k :: Settled(s, k)
  }

  lemma {:induction false} StageChangeKeepsSettled(s: State, a: Action, k: string)
    requires Settled(s, k) && Enabled(s, a) && (a.Enqueue? || a.Take? || a.ExhaustRetries?)
    ensures Settled(Apply(s, a), k)
  {
  }

  lemma {:induction false} GivingUpKeepsSettled(s: State, a: Action, k: string)
    requires Settled(s, k) && Enabled(s, a) && (a.Skip? || a.CancelTransform? || a.CancelPublish?)
    ensures Settled(Apply(s, a), k)
  {
  }

  lemma {:induction false} DropKeepsSettled(s: State, job: string, stage: Stage, k: string)
    requires Settled(s, k) && Enabled(s, Drop(job, stage))
    ensures Settled(Apply(s, Drop(job, stage)), k)
  {
    assert job in JobsIn(s, stage);
    match stage
    case Transforming =>
    case Queued =>
    case Writing =>
    case DeadLettering =>
  }

  lemma {:induction false} HandingOverKeepsSettled(s: State, a: Action, k: string)
    requires Settled(s, k) && Enabled(s, a) && (a.Write? || a.DeadLetter?)
    ensures Settled(Apply(s, a), k)
  {
  }

  lemma {:induction false} ReserveConfirmKeepSettled(s: State, a: Action, k: string)
    requires Settled(s, k) && Enabled(s, a) && (a.Reserve? || a.LoseReservation? || a.Confirm?)
    ensures Settled(Apply(s, a), k)
  {
  }

  lemma {:induction false} ActionKeepsInv(s: State, a: Action)
    requires Inv(s) && Enabled(s, a)
    ensures Inv(Apply(s, a))
  {
    forall k ensures Settled(Apply(s, a), k) {
      assert Settled(s, k);
      match a
      case Enqueue(_) => StageChangeKeepsSettled(s, a, k);
      case Take(_) => StageChangeKeepsSettled(s, a, k);
      case ExhaustRetries(_) => StageChangeKeepsSettled(s, a, k);
      case Drop(job, stage) => DropKeepsSettled(s, job, stage, k);
      case Write(_) => HandingOverKeepsSettled(s, a, k);
      case DeadLetter(_) => HandingOverKeepsSettled(s, a, k);
      case Reserve(_) => ReserveConfirmKeepSettled(s, a, k);
      case LoseReservation(_) => ReserveConfirmKeepSettled(s, a, k);
      case Confirm(_) => ReserveConfirmKeepSettled(s, a, k);
      case _ => GivingUpKeepsSettled(s, a, k);
    }
  }

  predicate ValidRun(s: State, actions: seq<Action>)
    decreases |actions|
  {
    actions == [] || (Enabled(s, actions[0]) && ValidRun(Apply(s, actions[0]), actions[1..]))
  }

  function Run(s: State, actions: seq<Action>): State
    decreases |actions|
  {
    if actions == [] then s else Run(Apply(s, actions[0]), actions[1..])
  }

  lemma {:induction false} RunsKeepInv(s: State, actions: seq<Action>)
    requires Inv(s) && ValidRun(s, actions)
    ensures Inv(Run(s, actions))
    decreases |actions|
  {
    if actions != [] {
      ActionKeepsInv(s, actions[0]);
      RunsKeepInv(Apply(s, actions[0]), actions[1..]);
    }
  }

  /** In every run each offset has at most one owner in flight and is handed over at most once across the
      output and the dead-letter topic, never both in flight and handed over; and every reservation is
      still in flight, handed over, or given up. */
  lemma {:induction false} AtMostOnce(actions: seq<Action>, key: string)
    requires ValidRun(Empty, actions)
    ensures var s := Run(Empty, actions);
            && InFlight(s, key) + HandedOver(s, key) <= 1
            && s.reserved[key] == InFlight(s, key) + HandedOver(s, key) + s.givenUp[key]
            && (HandedOver(s, key) > 0 ==> key in s.keys)
  {
    RunsKeepInv(Empty, actions);
    assert Settled(Run(Empty, actions), key);
  }

  // ---------------------------------------------------------------- expiry

  function Expire(s: State, key: string): State {
    s.(keys := s.keys - {key})
  }

  ghost predicate SafeFrom(s: State, key: string) {
    forall actions :: ValidRun(s, actions) ==> InFlight(Run(s, actions), key) + HandedOver(Run(s, actions), key) <= 1
  }

  /** Keys do carry a lifetime. Letting one run out is harmless exactly when nobody holds the offset and it
      has not been handed over. */
  lemma {:induction false} ExpiryIsSafeIffIdle(s: State, key: string)
    requires Inv(s)
    ensures SafeFrom(Expire(s, key), key) <==> InFlight(s, key) + HandedOver(s, key) == 0
  {
    var s' := Expire(s, key);
    if InFlight(s, key) + HandedOver(s, key) == 0 {
      forall k ensures Settled(s', k) {
        assert Settled(s, k);
      }
      forall actions | ValidRun(s', actions)
        ensures InFlight(Run(s', actions), key) + HandedOver(Run(s', actions), key) <= 1
      {
        RunsKeepInv(s', actions);
        assert Settled(Run(s', actions), key);
      }
    } else {
      SecondOwner(s', key);
    }
  }

  /** Without its key an offset that is in flight or handed over gets a second owner at the next delivery. */
  lemma {:induction false} SecondOwner(s: State, key: string)
    requires key !in s.keys && InFlight(s, key) + HandedOver(s, key) >= 1
    ensures !SafeFrom(s, key)
  {
    RunOne(s, Reserve(key));
    var s' := Run(s, [Reserve(key)]);
    assert InFlight(s', key) == InFlight(s, key) + 1 && HandedOver(s', key) == HandedOver(s, key);
  }

  /** A run from nothing: the key runs out while its offset is being transformed, and a second delivery
      becomes a second owner. */
  lemma {:induction false} ExpiredWhileHeld()
    ensures var held := Run(Empty, [Reserve("k")]);
            && ValidRun(Empty, [Reserve("k")]) && InFlight(held, "k") == 1
            && ValidRun(Expire(held, "k"), [Reserve("k")]) && InFlight(Run(Expire(held, "k"), [Reserve("k")]), "k") == 2
  {
    RunOne(Empty, Reserve("k"));
    RunOne(Expire(Run(Empty, [Reserve("k")]), "k"), Reserve("k"));
  }

  // ---------------------------------------------------------------- the consumer

  const MAX_ATTEMPTS := 5

  /** What one attempt to write did; a cancelled context stops before writing. */
  datatype Attempt = Wrote | Refused | Cancelled

  /** The first of the five attempts that is not a refusal decides. */
  function Succeeds(attempts: seq<Attempt>): bool {
    attempts != [] && (attempts[0].Wrote? || (attempts[0].Refused? && Succeeds(attempts[1..])))
  }

  /** A write within the five attempts, with nothing but refusals before it. */
  lemma {:induction false} SucceedsIff(attempts: seq<Attempt>)
    ensures Succeeds(attempts) <==>
              exists i :: 0 <= i < |attempts| && attempts[i].Wrote? && forall j :: 0 <= j < i ==> attempts[j].Refused?
  {
    if attempts != [] {
      SucceedsIff(attempts[1..]);
      if i :| 0 <= i < |attempts[1..]| && attempts[1..][i].Wrote? && attempts[0].Refused?
              && forall j :: 0 <= j < i ==> attempts[1..][j].Refused? {
        forall j | 0 <= j < i + 1 ensures attempts[j].Refused? {
          assert j > 0 ==> attempts[j] == attempts[1..][j - 1];
        }
        assert attempts[i + 1].Wrote?;
      }
      if i :| 0 <= i < |attempts| && attempts[i].Wrote? && forall j :: 0 <= j < i ==> attempts[j].Refused? {
        if i > 0 {
          assert attempts[1..][i - 1].Wrote?;
        }
      }
    }
  }

  method RetryWithBackoff(attempts: seq<Attempt>) returns (ok: bool, writes: nat)
    requires |attempts| == 5
    ensures ok == Succeeds(attempts)
    ensures ok <==> exists i :: 0 <= i < |attempts| && attempts[i].Wrote? && forall j :: 0 <= j < i ==> attempts[j].Refused?
    ensures writes == if ok then 1 else 0
  {
    SucceedsIff(attempts);
    var attempt := 0;
    writes := 0;
    while attempt < MAX_ATTEMPTS
      invariant 0 <= attempt <= MAX_ATTEMPTS && writes == 0
      invariant Succeeds(attempts) == Succeeds(attempts[attempt..])
    {
      if attempts[attempt].Cancelled? {
        return false, 0;
      }
      if attempts[attempt].Wrote? {
        return true, 1;
      }
      assert attempts[attempt..][1..] == attempts[attempt + 1..];
      attempt := attempt + 1;
    }
    ok := false;
  }

  /** How the reservation call ends; it may take effect and still report an error. */
  datatype Reservation = Works | Fails | FailsAfterEffect

  datatype Transformed = Event | Skippable | TransformFailed | ShuttingDown

  /** The steps one delivery takes. */
  function Processing(s: State, key: string, call: Reservation, result: Transformed, deleted: bool): seq<Action> {
    if call.Fails? then []
    else if call.FailsAfterEffect? then [LoseReservation(key)]
    else if key in s.keys then [Reserve(key)]
    else
      match result
      case Event => [Reserve(key), Enqueue(key)]
      case Skippable => [Reserve(key), Skip(key)]
      case TransformFailed => [Reserve(key), CancelTransform(key, deleted)]
      case ShuttingDown => [Reserve(key), CancelTransform(key, deleted)]
  }

  function Confirming(key: string, confirmed: bool): seq<Action> {
    if confirmed then [Confirm(key)] else []
  }

  /** The steps one publish job takes. */
  function Publishing(key: string, attempts: seq<Attempt>, deadLettered: bool, confirmed: bool, deleted: bool): seq<Action> {
    if Succeeds(attempts) then [Take(key)] + [Write(key)] + Confirming(key, confirmed)
    else if deadLettered then [Take(key)] + [ExhaustRetries(key)] + [DeadLetter(key)] + Confirming(key, confirmed)
    else [Take(key)] + [ExhaustRetries(key)] + [CancelPublish(key, deleted)]
  }

  lemma {:induction false} RunTwo(s: State, a: Action, b: Action)
    ensures Run(s, [a, b]) == Apply(Apply(s, a), b)
    ensures ValidRun(s, [a, b]) <==> Enabled(s, a) && Enabled(Apply(s, a), b)
  {
    assert [a, b][1..] == [b] && [b][1..] == [];
    assert Run(Apply(s, a), [b]) == Run(Apply(Apply(s, a), b), []);
    assert ValidRun(Apply(Apply(s, a), b), []);
  }

  lemma {:induction false} RunOne(s: State, a: Action)
    ensures Run(s, [a]) == Apply(s, a)
    ensures ValidRun(s, [a]) <==> Enabled(s, a)
  {
    assert [a][1..] == [];
    assert Run(Apply(s, a), []) == Apply(s, a) && ValidRun(Apply(s, a), []);
  }

  lemma {:induction false} RunConcat(s: State, first: seq<Action>, second: seq<Action>)
    ensures Run(s, first + second) == Run(Run(s, first), second)
    ensures ValidRun(s, first + second) <==> ValidRun(s, first) && ValidRun(Run(s, first), second)
    decreases |first|
  {
    if first == [] {
      assert first + second == second;
    } else {
      assert (first + second)[1..] == first[1..] + second;
      RunConcat(Apply(s, first[0]), first[1..], second);
    }
  }

  // ---------------------------------------------------------------- what a delivery and a job achieve

  /** What a delivery makes of an offset that nobody holds: a lost reservation blocks it without an owner, an
      event waits to be published, a skipped one is done with, and a failure gives it back if its key could
      be deleted. */
  function Delivered(s: State, key: string, call: Reservation, result: Transformed, deleted: bool): State {
    var taken := s.(keys := s.keys[key := Reserved], reserved := s.reserved + multiset{key});
    if call.Works? && result.Event? then taken.(queued := s.queued + multiset{key})
    else if call.Works? && deleted && !result.Skippable? then taken.(keys := s.keys, givenUp := s.givenUp + multiset{key})
    else taken.(givenUp := s.givenUp + multiset{key})
  }

  lemma {:induction false} PutAndTaken(m: multiset<string>, key: string)
    ensures m + multiset{key} - multiset{key} == m
  {}

  lemma {:induction false} ReservedThenQueued(s: State, key: string, deleted: bool)
    requires key !in s.keys
    ensures Apply(Apply(s, Reserve(key)), Enqueue(key)) == Delivered(s, key, Works, Event, deleted)
  {
    PutAndTaken(s.transforming, key);
  }

  lemma {:induction false} ReservedThenSkipped(s: State, key: string, deleted: bool)
    requires key !in s.keys
    ensures Apply(Apply(s, Reserve(key)), Skip(key)) == Delivered(s, key, Works, Skippable, deleted)
  {
    PutAndTaken(s.transforming, key);
  }

  lemma {:induction false} ReservedThenCancelled(s: State, key: string, deleted: bool)
    requires key !in s.keys
    ensures Apply(Apply(s, Reserve(key)), CancelTransform(key, deleted)) == Delivered(s, key, Works, TransformFailed, deleted)
  {
    PutAndTaken(s.transforming, key);
    assert s.keys[key := Reserved] - {key} == s.keys;
  }

  /** A delivery changes nothing if somebody holds the offset or the call fails, and otherwise just that. */
  lemma {:induction false} DeliveryLeaves(s: State, key: string, call: Reservation, result: Transformed, deleted: bool)
    ensures Run(s, Processing(s, key, call, result, deleted)) ==
              if key in s.keys || call.Fails? then s else Delivered(s, key, call, result, deleted)
  {
    RunOne(s, LoseReservation(key));
    RunOne(s, Reserve(key));
    if key !in s.keys && call.Works? {
      match result
      case Event =>
        ReservedThenQueued(s, key, deleted);
        RunTwo(s, Reserve(key), Enqueue(key));
      case Skippable =>
        ReservedThenSkipped(s, key, deleted);
        RunTwo(s, Reserve(key), Skip(key));
      case _ =>
        ReservedThenCancelled(s, key, deleted);
        RunTwo(s, Reserve(key), CancelTransform(key, deleted));
    }
  }

  /** What a job makes of its offset: a written message is on the output topic, an exhausted one on the
      dead-letter topic, and its key is done once confirmed; what could be put on neither is given up and its
      key released. */
  function Published(s: State, key: string, written: bool, deadLettered: bool, confirmed: bool, deleted: bool): State {
    var taken := s.(queued := s.queued - multiset{key});
    var done := if confirmed then s.keys[key := Done] else s.keys;
    if written then taken.(output := s.output + multiset{key}, keys := done)
    else if deadLettered then taken.(deadLetters := s.deadLetters + multiset{key}, keys := done)
    else taken.(givenUp := s.givenUp + multiset{key}, keys := if deleted then s.keys - {key} else s.keys)
  }

  lemma {:induction false} TakenThenWritten(s: State, key: string, deleted: bool)
    ensures Apply(Apply(s, Take(key)), Write(key)) == Published(s, key, true, false, false, deleted)
  {
    PutAndTaken(s.writing, key);
  }

  lemma {:induction false} TakenThenExhausted(s: State, key: string)
    ensures Apply(Apply(s, Take(key)), ExhaustRetries(key)) ==
              s.(queued := s.queued - multiset{key}, deadLettering := s.deadLettering + multiset{key})
  {
    PutAndTaken(s.writing, key);
  }

  lemma {:induction false} ExhaustedThen(s: State, key: string, confirmed: bool, deleted: bool)
    ensures var x := s.(queued := s.queued - multiset{key}, deadLettering := s.deadLettering + multiset{key});
            && Apply(x, DeadLetter(key)) == Published(s, key, false, true, false, deleted)
            && Apply(x, CancelPublish(key, deleted)) == Published(s, key, false, false, confirmed, deleted)
  {
    PutAndTaken(s.deadLettering, key);
  }

  lemma {:induction false} WrittenJob(s: State, key: string, confirmed: bool, deleted: bool)
    ensures Run(s, [Take(key)] + [Write(key)] + Confirming(key, confirmed)) == Published(s, key, true, false, confirmed, deleted)
  {
    RunOne(s, Take(key));
    RunSnoc(s, [Take(key)], Write(key));
    TakenThenWritten(s, key, deleted);
    RunConfirmed(s, [Take(key)] + [Write(key)], key, confirmed);
  }

  lemma {:induction false} ExhaustedJob(s: State, key: string)
    ensures Run(s, [Take(key)] + [ExhaustRetries(key)]) ==
              s.(queued := s.queued - multiset{key}, deadLettering := s.deadLettering + multiset{key})
  {
    RunOne(s, Take(key));
    RunSnoc(s, [Take(key)], ExhaustRetries(key));
    TakenThenExhausted(s, key);
  }

  lemma {:induction false} DeadLetteredJob(s: State, key: string, confirmed: bool, deleted: bool)
    ensures Run(s, [Take(key)] + [ExhaustRetries(key)] + [DeadLetter(key)] + Confirming(key, confirmed)) ==
              Published(s, key, false, true, confirmed, deleted)
  {
    ExhaustedJob(s, key);
    RunSnoc(s, [Take(key)] + [ExhaustRetries(key)], DeadLetter(key));
    ExhaustedThen(s, key, confirmed, deleted);
    RunConfirmed(s, [Take(key)] + [ExhaustRetries(key)] + [DeadLetter(key)], key, confirmed);
  }

  lemma {:induction false} CancelledJob(s: State, key: string, confirmed: bool, deleted: bool)
    ensures Run(s, [Take(key)] + [ExhaustRetries(key)] + [CancelPublish(key, deleted)]) ==
              Published(s, key, false, false, confirmed, deleted)
  {
    ExhaustedJob(s, key);
    RunSnoc(s, [Take(key)] + [ExhaustRetries(key)], CancelPublish(key, deleted));
    ExhaustedThen(s, key, confirmed, deleted);
  }

  lemma {:induction false} JobLeaves(s: State, key: string, attempts: seq<Attempt>, deadLettered: bool, confirmed: bool, deleted: bool)
    ensures Run(s, Publishing(key, attempts, deadLettered, confirmed, deleted)) ==
              Published(s, key, Succeeds(attempts), deadLettered, confirmed, deleted)
  {
    WrittenJob(s, key, confirmed, deleted);
    DeadLetteredJob(s, key, confirmed, deleted);
    CancelledJob(s, key, confirmed, deleted);
  }

  lemma {:induction false} RunSnoc(s: State, steps: seq<Action>, a: Action)
    ensures Run(s, steps + [a]) == Apply(Run(s, steps), a)
  {
    RunConcat(s, steps, [a]);
    RunOne(Run(s, steps), a);
  }

  lemma {:induction false} RunConfirmed(s: State, steps: seq<Action>, key: string, confirmed: bool)
    ensures Run(s, steps + Confirming(key, confirmed)) ==
              if confirmed then Apply(Run(s, steps), Confirm(key)) else Run(s, steps)
  {
    if confirmed {
      RunSnoc(s, steps, Confirm(key));
    } else {
      assert steps + [] == steps;
    }
  }

  /** A failed delivery is no loss: once its key is deleted, the next delivery of the offset is published. */
  lemma {:induction false} RedeliveryGetsThrough(s: State, key: string, attempts: seq<Attempt>, deadLettered: bool, confirmed: bool)
    requires key !in s.keys && HandedOver(s, key) == 0 && (Succeeds(attempts) || deadLettered)
    ensures var s1 := Run(s, Processing(s, key, Works, TransformFailed, true));
            var s2 := Run(s1, Processing(s1, key, Works, Event, false));
            HandedOver(Run(s2, Publishing(key, attempts, deadLettered, confirmed, false)), key) == 1
  {
    DeliveryLeaves(s, key, Works, TransformFailed, true);
    var s1 := Run(s, Processing(s, key, Works, TransformFailed, true));
    DeliveryLeaves(s1, key, Works, Event, false);
    var s2 := Run(s1, Processing(s1, key, Works, Event, false));
    JobLeaves(s2, key, attempts, deadLettered, confirmed, false);
  }

  class Consumer {
    var state: State

    constructor ()
      ensures state == Empty
    {
      state := Empty;
    }

    /** SET NX: claims the key unless somebody holds it. */
    method ReserveKey(key: string) returns (ok: bool)
      modifies this
      ensures ok <==> key !in old(state).keys
      ensures state == Apply(old(state), Reserve(key))
    {
      ok := key !in state.keys;
      if ok {
        state := state.(keys := state.keys[key := Reserved], transforming := state.transforming + multiset{key},
                        reserved := state.reserved + multiset{key});
      }
    }

    /** One delivery: reserve, transform, queue the result; a skip keeps the reservation, a failure cancels it. */
    method ProcessMessage(key: string, call: Reservation, result: Transformed, deleted: bool) returns (queued: bool)
      modifies this
      ensures var steps := Processing(old(state), key, call, result, deleted);
              ValidRun(old(state), steps) && state == Run(old(state), steps)
      ensures state == if key in old(state).keys || call.Fails? then old(state)
                       else Delivered(old(state), key, call, result, deleted)
      ensures queued <==> call.Works? && key !in old(state).keys && result.Event?
    {
      DeliveryLeaves(state, key, call, result, deleted);
      if !call.Works? {
        if call.FailsAfterEffect? {
          RunOne(state, LoseReservation(key));
          if key !in state.keys {
            state := state.(keys := state.keys[key := Reserved], reserved := state.reserved + multiset{key},
                            givenUp := state.givenUp + multiset{key});
          }
        }
        return false;
      }
      var ok := ReserveKey(key);
      RunOne(old(state), Reserve(key));
      if !ok {
        return false;
      }
      match result
      case Event =>
        RunTwo(old(state), Reserve(key), Enqueue(key));
        state := state.(transforming := state.transforming - multiset{key}, queued := state.queued + multiset{key});
        queued := true;
      case Skippable =>
        RunTwo(old(state), Reserve(key), Skip(key));
        state := state.(transforming := state.transforming - multiset{key}, givenUp := state.givenUp + multiset{key});
        queued := false;
      case TransformFailed =>
        CancelReserved(key, deleted);
        RunTwo(old(state), Reserve(key), CancelTransform(key, deleted));
        queued := false;
      case ShuttingDown =>
        CancelReserved(key, deleted);
        RunTwo(old(state), Reserve(key), CancelTransform(key, deleted));
        queued := false;
    }

    method CancelReserved(key: string, deleted: bool)
      requires key in state.transforming
      modifies this
      ensures state == Apply(old(state), CancelTransform(key, deleted))
    {
      state := state.(transforming := state.transforming - multiset{key}, givenUp := state.givenUp + multiset{key});
      if deleted {
        state := state.(keys := state.keys - {key});
      }
    }

    method TakeJob(key: string)
      requires key in state.queued
      modifies this
      ensures state == Apply(old(state), Take(key))
    {
      state := state.(queued := state.queued - multiset{key}, writing := state.writing + multiset{key});
    }

    /** SET done: the key now outlives the publication. */
    method ConfirmKey(key: string)
      modifies this
      ensures state == Apply(old(state), Confirm(key))
    {
      state := state.(keys := state.keys[key := Done]);
    }

    /** One publish job: up to five attempts, then the dead-letter topic, then confirm or cancel. */
    method Publish(key: string, attempts: seq<Attempt>, deadLettered: bool, confirmed: bool, deleted: bool)
      requires key in state.queued && |attempts| == 5
      modifies this
      ensures var steps := Publishing(key, attempts, deadLettered, confirmed, deleted);
              ValidRun(old(state), steps) && state == Run(old(state), steps)
      ensures state == Published(old(state), key, Succeeds(attempts), deadLettered, confirmed, deleted)
    {
      JobLeaves(state, key, attempts, deadLettered, confirmed, deleted);
      RunOne(state, Take(key));
      TakeJob(key);
      var ok, writes := RetryWithBackoff(attempts);
      if ok {
        WriteAndConfirm(key, confirmed, [Take(key)], old(state));
      } else {
        Extends(old(state), [Take(key)], state, ExhaustRetries(key));
        state := state.(writing := state.writing - multiset{key}, deadLettering := state.deadLettering + multiset{key});
        DeadLetterOrCancel(key, deadLettered, confirmed, deleted, [Take(key)] + [ExhaustRetries(key)], old(state));
      }
    }

    method WriteAndConfirm(key: string, confirmed: bool, ghost steps: seq<Action>, ghost start: State)
      requires ValidRun(start, steps) && state == Run(start, steps) && key in state.writing
      modifies this
      ensures var taken := steps + [Write(key)] + Confirming(key, confirmed);
              ValidRun(start, taken) && state == Run(start, taken)
    {
      Extends(start, steps, state, Write(key));
      state := state.(writing := state.writing - multiset{key}, output := state.output + multiset{key});
      ConfirmOrNot(key, confirmed, steps + [Write(key)], start);
    }

    method DeadLetterOrCancel(key: string, deadLettered: bool, confirmed: bool, deleted: bool,
                              ghost steps: seq<Action>, ghost start: State)
      requires ValidRun(start, steps) && state == Run(start, steps) && key in state.deadLettering
      modifies this
      ensures var taken := if deadLettered then steps + [DeadLetter(key)] + Confirming(key, confirmed)
                           else steps + [CancelPublish(key, deleted)];
              ValidRun(start, taken) && state == Run(start, taken)
    {
      if deadLettered {
        Extends(start, steps, state, DeadLetter(key));
        state := state.(deadLettering := state.deadLettering - multiset{key}, deadLetters := state.deadLetters + multiset{key});
        ConfirmOrNot(key, confirmed, steps + [DeadLetter(key)], start);
      } else {
        Extends(start, steps, state, CancelPublish(key, deleted));
        state := state.(deadLettering := state.deadLettering - multiset{key}, givenUp := state.givenUp + multiset{key});
        if deleted {
          state := state.(keys := state.keys - {key});
        }
      }
    }

    method ConfirmOrNot(key: string, confirmed: bool, ghost steps: seq<Action>, ghost start: State)
      requires ValidRun(start, steps) && state == Run(start, steps) && HandedOver(state, key) > 0
      modifies this
      ensures var taken := steps + Confirming(key, confirmed);
              ValidRun(start, taken) && state == Run(start, taken)
    {
      if confirmed {
        Extends(start, steps, state, Confirm(key));
        ConfirmKey(key);
      } else {
        assert steps + [] == steps;
      }
    }
  }

  lemma {:induction false} Extends(start: State, steps: seq<Action>, s: State, a: Action)
    requires ValidRun(start, steps) && s == Run(start, steps) && Enabled(s, a)
    ensures ValidRun(start, steps + [a]) && Run(start, steps + [a]) == Apply(s, a)
  {
    RunConcat(start, steps, [a]);
    RunOne(s, a);
  }
}
