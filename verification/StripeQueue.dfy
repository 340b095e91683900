/**
 The Stripe queue: a consumed message is acknowledged, retried with a delay, or dead-lettered. The
 broker dead-letters what lies in the queue too long. The worker and the broker do not crash here.
 */
module StripeQueue {
  import opened Collections

  const MAX_RETRIES := 3

  /** A queued message; `attempt` is its retry header, absent on a new message and then 0. */
  datatype Message = Message(id: nat, attempt: nat, malformed: bool)

  /** The places a message can be. A delayed message waits for its timer, still unacknowledged. */
  datatype State = State(
    published: seq<Message>, queue: seq<Message>, held: seq<Message>, delayed: seq<Message>,
    acked: seq<Message>, dead: seq<Message>)

  const Empty := State([], [], [], [], [], [])

  datatype Action =
    | Publish(id: nat, malformed: bool)
    | Expire(at: nat)
    | Consume(at: nat)
    | Finish(at: nat, succeeds: bool)
    | Resend(at: nat)

  predicate Enabled(s: State, a: Action) {
    match a
    case Publish(_, _) => true
    case Expire(at) => at < |s.queue|
    case Consume(at) => at < |s.queue|
    case Finish(at, _) => at < |s.held|
    case Resend(at) => at < |s.delayed|
  }

  /** A malformed message is rejected at once; a success is acknowledged; a failure on the last attempt
      is rejected to the dead-letter queue, an earlier one starts the retry timer. When the timer fires,
      a copy with a higher attempt is queued and the message acknowledged. */
  function Apply(s: State, a: Action): State
    requires Enabled(s, a)
  {
    match a
    case Publish(id, malformed) =>
      var m := Message(id, 0, malformed);
      s.(published := s.published + [m], queue := s.queue + [m])
    case Expire(at) => s.(queue := Without(s.queue, at), dead := s.dead + [s.queue[at]])
    case Consume(at) => s.(queue := Without(s.queue, at), held := s.held + [s.queue[at]])
    case Finish(at, succeeds) =>
      var m := s.held[at];
      var rest := s.(held := Without(s.held, at));
      if m.malformed then rest.(dead := s.dead + [m])
      else if succeeds then rest.(acked := s.acked + [m])
      else if m.attempt >= MAX_RETRIES - 1 then rest.(dead := s.dead + [m])
      else rest.(delayed := s.delayed + [m])
    case Resend(at) =>
      var m := s.delayed[at];
      s.(delayed := Without(s.delayed, at), queue := s.queue + [m.(attempt := m.attempt + 1)])
  }

  // ---------------------------------------------------------------- conservation

  function IsId(id: nat): Message -> nat {
    (m: Message) => if m.id == id then 1 else 0
  }

  /** How many copies of a message are anywhere. */
  function Copies(s: State, id: nat): nat {
    Sum(IsId(id), s.queue) + Sum(IsId(id), s.held) + Sum(IsId(id), s.delayed) + Sum(IsId(id), s.acked) + Sum(IsId(id), s.dead)
  }

  ghost predicate AttemptsBounded(s: State) {
    && (forall m :: m in s.queue || m in s.held || m in s.acked || m in s.dead ==> m.attempt < MAX_RETRIES)
    && (forall m :: m in s.delayed ==> m.attempt < MAX_RETRIES - 1)
  }

  ghost predicate Inv(s: State) {
    AttemptsBounded(s) && forall id :: Copies(s, id) == Sum(IsId(id), s.published)
  }

  /** Moving a message from one place to another keeps its count. */
  lemma {:induction false} MoveKeepsSum(f: Message -> nat, from: seq<Message>, at: nat, to: seq<Message>, m: Message)
    requires at < |from| && f(m) == f(from[at])
    ensures Sum(f, Without(from, at)) + Sum(f, to + [m]) == Sum(f, from) + Sum(f, to)
  {
    SumWithout(f, from, at);
    SumAdded(f, to, m);
  }

  lemma {:induction false} FinishKeepsCopies(s: State, at: nat, succeeds: bool, id: nat)
    requires at < |s.held|
    ensures Copies(Apply(s, Finish(at, succeeds)), id) == Copies(s, id)
  {
    var f, m := IsId(id), s.held[at];
    if m.malformed || (!succeeds && m.attempt >= MAX_RETRIES - 1) {
      MoveKeepsSum(f, s.held, at, s.dead, m);
    } else if succeeds {
      MoveKeepsSum(f, s.held, at, s.acked, m);
    } else {
      MoveKeepsSum(f, s.held, at, s.delayed, m);
    }
  }

  lemma {:induction false} PublishAddsCopy(s: State, m: Message, id: nat)
    ensures Copies(s.(published := s.published + [m], queue := s.queue + [m]), id) == Copies(s, id) + IsId(id)(m)
    ensures Sum(IsId(id), s.published + [m]) == Sum(IsId(id), s.published) + IsId(id)(m)
  {
    SumAdded(IsId(id), s.published, m);
    SumAdded(IsId(id), s.queue, m);
  }

  lemma {:induction false} ResendKeepsCopies(s: State, at: nat, id: nat)
    requires at < |s.delayed|
    ensures Copies(Apply(s, Resend(at)), id) == Copies(s, id)
  {
    MoveKeepsSum(IsId(id), s.delayed, at, s.queue, s.delayed[at].(attempt := s.delayed[at].attempt + 1));
  }

  lemma {:induction false} ExpireKeepsCopies(s: State, at: nat, id: nat)
    requires at < |s.queue|
    ensures Copies(Apply(s, Expire(at)), id) == Copies(s, id)
  {
    MoveKeepsSum(IsId(id), s.queue, at, s.dead, s.queue[at]);
  }

  lemma {:induction false} ConsumeKeepsCopies(s: State, at: nat, id: nat)
    requires at < |s.queue|
    ensures Copies(Apply(s, Consume(at)), id) == Copies(s, id)
  {
    MoveKeepsSum(IsId(id), s.queue, at, s.held, s.queue[at]);
  }

  lemma {:induction false} ActionKeepsCopies(s: State, a: Action, id: nat)
    requires Enabled(s, a) && Copies(s, id) == Sum(IsId(id), s.published)
    ensures Copies(Apply(s, a), id) == Sum(IsId(id), Apply(s, a).published)
  {
    match a
    case Publish(x, malformed) => PublishAddsCopy(s, Message(x, 0, malformed), id);
    case Expire(at) => ExpireKeepsCopies(s, at, id);
    case Consume(at) => ConsumeKeepsCopies(s, at, id);
    case Finish(at, succeeds) => FinishKeepsCopies(s, at, succeeds, id);
    case Resend(at) => ResendKeepsCopies(s, at, id);
  }

  lemma {:induction false} ActionKeepsInv(s: State, a: Action)
    requires Inv(s) && Enabled(s, a)
    ensures Inv(Apply(s, a))
  {
    forall id ensures Copies(Apply(s, a), id) == Sum(IsId(id), Apply(s, a).published) {
      ActionKeepsCopies(s, a, id);
    }
  }

  ghost predicate ValidRun(s: State, actions: seq<Action>)
    decreases |actions|
  {
    actions == [] || (Enabled(s, actions[0]) && ValidRun(Apply(s, actions[0]), actions[1..]))
  }

  function Run(s: State, actions: seq<Action>): State
    requires ValidRun(s, actions)
    decreases |actions|
  {
    if actions == [] then s else Run(Apply(s, actions[0]), actions[1..])
  }

  lemma {:induction false} RunsKeepInv(s: State, actions: seq<Action>)
    requires Inv(s) && ValidRun(s, actions)
    ensures Inv(Run(s, actions))
    decreases |actions|
  {
    if actions != [] {
      ActionKeepsInv(s, actions[0]);
      RunsKeepInv(Apply(s, actions[0]), actions[1..]);
    }
  }

  predicate Quiet(s: State) {
    s.queue == [] && s.held == [] && s.delayed == []
  }

  /** Conservation: in every state each published message is in exactly one place, and once nothing is
      pending it is acknowledged or dead-lettered, never both, never neither, after at most three tries. */
  lemma {:induction false} NothingLostOrDoubled(actions: seq<Action>, id: nat)
    requires ValidRun(Empty, actions)
    ensures var s := Run(Empty, actions);
            && Copies(s, id) == Sum(IsId(id), s.published)
            && (Quiet(s) ==> Sum(IsId(id), s.acked) + Sum(IsId(id), s.dead) == Sum(IsId(id), s.published))
            && (forall m :: m in s.acked || m in s.dead ==> m.attempt + 1 <= MAX_RETRIES)
  {
    RunsKeepInv(Empty, actions);
    var s := Run(Empty, actions);
    assert Copies(s, id) == Sum(IsId(id), s.published);
  }

  // ---------------------------------------------------------------- where messages end

  predicate AllEnd(actions: seq<Action>, succeeds: bool) {
    forall i :: 0 <= i < |actions| ==> !actions[i].Expire? && (actions[i].Finish? ==> actions[i].succeeds == succeeds)
  }

  /** Nothing has failed yet: only malformed messages are dead, the others go straight through. */
  predicate WentWell(s: State) {
    && s.delayed == [] && (forall m :: m in s.dead ==> m.malformed) && (forall m :: m in s.acked ==> !m.malformed)
    && (forall m :: m in s.queue + s.held + s.dead + s.acked ==> m.attempt == 0)
  }

  /** Nothing has succeeded yet: no message is acknowledged, and a well-formed one is dead after its third try. */
  predicate WentWrong(s: State) {
    s.acked == [] && forall m :: m in s.dead ==> m.malformed || m.attempt == 2
  }

  lemma {:induction false} StaysWell(s: State, actions: seq<Action>)
    requires WentWell(s) && ValidRun(s, actions) && AllEnd(actions, true)
    ensures WentWell(Run(s, actions))
    decreases |actions|
  {
    if actions != [] {
      assert forall i :: 0 <= i < |actions[1..]| ==> actions[1..][i] == actions[i + 1];
      StaysWell(Apply(s, actions[0]), actions[1..]);
    }
  }

  lemma {:induction false} StaysWrong(s: State, actions: seq<Action>)
    requires Inv(s) && WentWrong(s) && ValidRun(s, actions) && AllEnd(actions, false)
    ensures WentWrong(Run(s, actions))
    decreases |actions|
  {
    if actions != [] {
      assert forall i :: 0 <= i < |actions[1..]| ==> actions[1..][i] == actions[i + 1];
      ActionKeepsInv(s, actions[0]);
      if actions[0].Finish? {
        assert s.held[actions[0].at] in s.held;
      }
      StaysWrong(Apply(s, actions[0]), actions[1..]);
    }
  }

  lemma {:induction false} NoneOf(id: nat, s: seq<Message>)
    requires forall m :: m in s ==> m.id != id
    ensures Sum(IsId(id), s) == 0
  {
    if s != [] {
      NoneOf(id, s[..|s| - 1]);
    }
  }

  /** If processing works, a well-formed message is acknowledged, on its first try; if it never does, the message
      is dead-lettered after its third. A malformed one is dead-lettered at once either way. */
  lemma {:induction false} EndsWhereItShould(actions: seq<Action>, id: nat, succeeds: bool)
    requires ValidRun(Empty, actions) && AllEnd(actions, succeeds) && Quiet(Run(Empty, actions))
    requires forall m :: m in Run(Empty, actions).dead && m.id == id ==> !m.malformed
    ensures var s := Run(Empty, actions);
            if succeeds then Sum(IsId(id), s.acked) == Sum(IsId(id), s.published)
            else Sum(IsId(id), s.dead) == Sum(IsId(id), s.published)
                 && forall m :: m in s.dead && m.id == id ==> m.attempt == 2
  {
    NothingLostOrDoubled(actions, id);
    if succeeds {
      StaysWell(Empty, actions);
      NoneOf(id, Run(Empty, actions).dead);
    } else {
      StaysWrong(Empty, actions);
      assert Sum(IsId(id), []) == 0;
    }
  }

  // ---------------------------------------------------------------- it comes to rest

  /** Steps a message may still make from its place. */
  function QueueWork(m: Message): nat {
    if m.attempt < MAX_RETRIES then 3 * (MAX_RETRIES - m.attempt) else 0
  }

  function HeldWork(m: Message): nat {
    if m.attempt < MAX_RETRIES then 3 * (MAX_RETRIES - m.attempt) - 1 else 0
  }

  function DelayedWork(m: Message): nat {
    if m.attempt < MAX_RETRIES then 3 * (MAX_RETRIES - m.attempt) - 2 else 0
  }

  function WorkLeft(s: State): nat {
    Sum(QueueWork, s.queue) + Sum(HeldWork, s.held) + Sum(DelayedWork, s.delayed)
  }

  lemma {:induction false} ActionConsumesWork(s: State, a: Action)
    requires Inv(s) && Enabled(s, a) && !a.Publish?
    ensures WorkLeft(Apply(s, a)) < WorkLeft(s)
  {
    match a
    case Expire(at) =>
      assert s.queue[at] in s.queue;
      SumWithout(QueueWork, s.queue, at);
    case Consume(at) =>
      assert s.queue[at] in s.queue;
      SumWithout(QueueWork, s.queue, at);
      SumAdded(HeldWork, s.held, s.queue[at]);
    case Finish(at, succeeds) =>
      assert s.held[at] in s.held;
      SumWithout(HeldWork, s.held, at);
      SumAdded(DelayedWork, s.delayed, s.held[at]);
    case Resend(at) =>
      assert s.delayed[at] in s.delayed;
      SumWithout(DelayedWork, s.delayed, at);
      SumAdded(QueueWork, s.queue, s.delayed[at].(attempt := s.delayed[at].attempt + 1));
  }

  /** Once publishing stops the queue comes to rest within a bounded number of steps. */
  lemma {:induction false} QueueComesToRest(s: State, actions: seq<Action>)
    requires Inv(s) && ValidRun(s, actions) && forall a :: a in actions ==> !a.Publish?
    ensures |actions| <= WorkLeft(s)
    decreases |actions|
  {
    if actions != [] {
      assert actions[0] in actions;
      ActionConsumesWork(s, actions[0]);
      ActionKeepsInv(s, actions[0]);
      QueueComesToRest(Apply(s, actions[0]), actions[1..]);
    }
  }
}
