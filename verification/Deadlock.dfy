/**
 When concurrent batch transactions deadlock. Rows are locked in sorted order and never take part; ids are
 claimed in the order of the batch, and that order decides. Beside it: a state without a cycle of waits
 always lets somebody go on, and every serial run of batches is a run of transactions.
 */
module Deadlock {
  import opened TelemetryModel
  import opened BatchProjection
  import opened ReadModelTransactions

  // ---------------------------------------------------------------- runs

  lemma {:induction false} RunConcat(s: System, a: seq<Step>, b: seq<Step>)
    requires ValidRun(s, a) && ValidRun(Run(s, a), b)
    ensures ValidRun(s, a + b) && Run(s, a + b) == Run(Run(s, a), b)
    decreases |a|
  {
    if a == [] {
      assert a + b == b;
    } else {
      assert (a + b)[1..] == a[1..] + b;
      RunConcat(Apply(s, a[0]), a[1..], b);
    }
  }

  lemma {:induction false} RunExtends(s: System, steps: seq<Step>, step: Step)
    requires ValidRun(s, steps) && Enabled(Run(s, steps), step)
    ensures ValidRun(s, steps + [step]) && Run(s, steps + [step]) == Apply(Run(s, steps), step)
  {
    var s' := Run(s, steps);
    assert [step][1..] == [];
    assert ValidRun(Apply(s', step), [step][1..]);
    RunConcat(s, steps, [step]);
  }

  /** Only these batches are ever begun. */
  predicate BeginsFrom(steps: seq<Step>, allowed: set<seq<Event>>) {
    forall i :: 0 <= i < |steps| && steps[i].Begin? ==> steps[i].batch in allowed
  }

  predicate LiveFrom(s: System, allowed: set<seq<Event>>) {
    forall t :: t in s.live ==> s.live[t].batch in allowed
  }

  predicate CommitsFrom(ds: seq<Delivery>, allowed: set<seq<Event>>) {
    forall i :: 0 <= i < |ds| ==> ds[i].Committed? && ds[i].batch in allowed
  }

  lemma {:induction false} RunsStayAllowed(s: System, steps: seq<Step>, allowed: set<seq<Event>>)
    requires ValidRun(s, steps) && BeginsFrom(steps, allowed) && LiveFrom(s, allowed)
    ensures LiveFrom(Run(s, steps), allowed) && CommitsFrom(CommitOrder(s, steps), allowed)
    decreases |steps|
  {
    if steps != [] {
      var s' := Apply(s, steps[0]);
      assert LiveFrom(s', allowed);
      assert forall i :: 0 <= i < |steps[1..]| ==> steps[1..][i] == steps[i + 1];
      RunsStayAllowed(s', steps[1..], allowed);
    }
  }

  // ---------------------------------------------------------------- the condition

  /** A batch stopped before the claim at a position. */
  datatype Stop = Stop(batch: seq<Event>, pos: nat)

  /** The new ids among the first ones of a batch. */
  function Unclaimed(claimed: set<Uuid>, batch: seq<Event>, pos: nat): set<Uuid> {
    set i | 0 <= i < pos && i < |batch| && batch[i].id !in claimed :: batch[i].id
  }

  function Next(n: nat, i: nat): nat {
    if i + 1 < n then i + 1 else 0
  }

  predicate Disjoint(claimed: set<Uuid>, a: Stop, b: Stop) {
    Unclaimed(claimed, a.batch, a.pos) !! Unclaimed(claimed, b.batch, b.pos)
  }

  /** The stop is within the castable ids and wants an id that the other one has already taken. */
  predicate Wants(claimed: set<Uuid>, a: Stop, b: Stop) {
    a.pos < |a.batch| && CastableUpTo(a.batch, a.pos + 1) && a.batch[a.pos].id in Unclaimed(claimed, b.batch, b.pos)
  }

  /** At least two batches can be stopped so that no two have taken the same id and each wants an id of the
      next one, the last of the first. */
  predicate ClaimCycle(claimed: set<Uuid>, stops: seq<Stop>) {
    && |stops| >= 2
    && (forall i, j :: 0 <= i < j < |stops| ==> Disjoint(claimed, stops[i], stops[j]))
    && (forall i :: 0 <= i < |stops| ==> Wants(claimed, stops[i], stops[Next(|stops|, i)]))
  }

  predicate StopsFrom(stops: seq<Stop>, allowed: set<seq<Event>>) {
    forall i :: 0 <= i < |stops| ==> stops[i].batch in allowed
  }

  // ---------------------------------------------------------------- a cycle meets the condition

  lemma {:induction false} SimpleCycle(s: System, c: seq<TxnId>) returns (r: seq<TxnId>)
    requires IsCycle(s, c)
    ensures IsCycle(s, r) && forall i, j :: 0 <= i < j < |r| - 1 ==> r[i] != r[j]
    decreases |c|
  {
    if i, j :| 0 <= i < j < |c| - 1 && c[i] == c[j] {
      var shorter := c[i..j + 1];
      forall k | 0 <= k < |shorter| - 1 ensures Link(s, shorter, k) {
        assert Link(s, c, i + k);
      }
      r := SimpleCycle(s, shorter);
    } else {
      r := c;
    }
  }

  lemma {:induction false} WonAreUnclaimed(store: Store, x: Txn)
    requires x.Claiming? && TxnOk(store, x)
    ensures x.won == Unclaimed(store.claimed, x.batch, x.pos)
  {
    forall id | id in x.won ensures id in Unclaimed(store.claimed, x.batch, x.pos) {
      var i :| 0 <= i < x.pos && x.batch[i].id == id;
    }
  }

  lemma {:induction false} ClaimWaitWants(s: System, t: TxnId, u: TxnId)
    requires Inv(s) && WaitsForClaim(s, t, u) && s.live[u].Claiming?
    ensures Wants(s.store.claimed, Stop(s.live[t].batch, s.live[t].pos), Stop(s.live[u].batch, s.live[u].pos))
  {
    assert TxnOk(s.store, s.live[t]) && TxnOk(s.store, s.live[u]);
    WonAreUnclaimed(s.store, s.live[u]);
  }

  lemma {:induction false} ExclusiveStops(s: System, t: TxnId, u: TxnId)
    requires Inv(s) && t in s.live && u in s.live && t != u && s.live[t].Claiming? && s.live[u].Claiming?
    ensures Disjoint(s.store.claimed, Stop(s.live[t].batch, s.live[t].pos), Stop(s.live[u].batch, s.live[u].pos))
  {
    assert TxnOk(s.store, s.live[t]) && TxnOk(s.store, s.live[u]);
    WonAreUnclaimed(s.store, s.live[t]);
    WonAreUnclaimed(s.store, s.live[u]);
    assert s.live[t].won !! s.live[u].won;
  }

  function StopOf(s: System, t: TxnId): Stop {
    if t in s.live && s.live[t].Claiming? then Stop(s.live[t].batch, s.live[t].pos) else Stop([], 0)
  }

  /** A cycle without repetitions, read off the state. */
  lemma {:induction false} CycleGivesStops(s: System, c: seq<TxnId>)
    requires Inv(s) && IsCycle(s, c) && forall i, j :: 0 <= i < j < |c| - 1 ==> c[i] != c[j]
    ensures ClaimCycle(s.store.claimed, seq(|c| - 1, i requires 0 <= i < |c| - 1 => StopOf(s, c[i])))
  {
    var n := |c| - 1;
    var stops := seq(n, i requires 0 <= i < n => StopOf(s, c[i]));
    forall i | 0 <= i < n ensures WaitsForClaim(s, c[i], c[i + 1]) {
      CyclesAreClaimCycles(s, c, i);
    }
    assert n >= 2 by {
      assert WaitsForClaim(s, c[0], c[1]);
    }
    forall i | 0 <= i < n ensures Wants(s.store.claimed, stops[i], stops[Next(n, i)]) {
      var k := Next(n, i);
      assert c[k] == c[i + 1];
      assert WaitsForClaim(s, c[i], c[i + 1]) && WaitsForClaim(s, c[k], c[k + 1]);
      ClaimWaitWants(s, c[i], c[i + 1]);
    }
    forall i, j | 0 <= i < j < n ensures Disjoint(s.store.claimed, stops[i], stops[j]) {
      assert WaitsForClaim(s, c[i], c[i + 1]) && WaitsForClaim(s, c[j], c[j + 1]);
      ExclusiveStops(s, c[i], c[j]);
    }
  }

  // ---------------------------------------------------------------- the condition brings a cycle about

  /** The transaction claims on, as long as nobody else holds the ids it comes to. */
  lemma {:induction false} ClaimUpTo(s: System, t: TxnId, batch: seq<Event>, k: nat) returns (steps: seq<Step>)
    requires t in s.live && s.live[t] == Claiming(batch, 0, {}) && k <= |batch| && CastableUpTo(batch, k)
    requires forall u :: u in s.live && u != t ==> s.live[u].won !! Unclaimed(s.store.claimed, batch, k)
    ensures ValidRun(s, steps) && (forall i :: 0 <= i < |steps| ==> steps[i].Claim?)
    ensures Run(s, steps) == s.(live := s.live[t := Claiming(batch, k, Unclaimed(s.store.claimed, batch, k))])
  {
    if k == 0 {
      steps := [];
      assert Unclaimed(s.store.claimed, batch, 0) == {};
      assert s.live == s.live[t := Claiming(batch, 0, {})];
    } else {
      OneMoreUnclaimed(s.store.claimed, batch, k - 1);
      steps := ClaimUpTo(s, t, batch, k - 1);
      ClaimNext(s, steps, t, batch, k - 1);
      steps := steps + [Claim(t)];
    }
  }

  lemma {:induction false} OneMoreUnclaimed(claimed: set<Uuid>, batch: seq<Event>, k: nat)
    requires k < |batch|
    ensures Unclaimed(claimed, batch, k + 1) ==
            Unclaimed(claimed, batch, k) + (if batch[k].id in claimed then {} else {batch[k].id})
  {}

  lemma {:induction false} ClaimNext(s: System, steps: seq<Step>, t: TxnId, batch: seq<Event>, k: nat)
    requires t in s.live && k < |batch| && !batch[k].spelling.Uncastable? && ValidRun(s, steps)
    requires Run(s, steps) == s.(live := s.live[t := Claiming(batch, k, Unclaimed(s.store.claimed, batch, k))])
    requires forall u :: u in s.live && u != t ==> s.live[u].won !! Unclaimed(s.store.claimed, batch, k + 1)
    ensures ValidRun(s, steps + [Claim(t)])
    ensures Run(s, steps + [Claim(t)]) == s.(live := s.live[t := Claiming(batch, k + 1, Unclaimed(s.store.claimed, batch, k + 1))])
  {
    var s' := Run(s, steps);
    OneMoreUnclaimed(s.store.claimed, batch, k);
    assert CanClaim(s', t);
    RunExtends(s, steps, Claim(t));
    var won := Unclaimed(s.store.claimed, batch, k + 1);
    assert Apply(s', Claim(t)).live[t] == Claiming(batch, k + 1, won);
    assert Apply(s', Claim(t)).live == s.live[t := Claiming(batch, k + 1, won)];
  }

  function StoppedUpTo(claimed: set<Uuid>, stops: seq<Stop>, n: nat): map<TxnId, Txn>
    requires n <= |stops|
  {
    map i: nat | i < n :: Claiming(stops[i].batch, stops[i].pos, Unclaimed(claimed, stops[i].batch, stops[i].pos))
  }

  /** Begin the batches one after the other and claim up to each stop. */
  lemma {:induction false} StopsAreReached(store: Store, stops: seq<Stop>, n: nat) returns (steps: seq<Step>)
    requires ClaimCycle(store.claimed, stops) && n <= |stops|
    ensures ValidRun(System(store, map[]), steps)
    ensures Run(System(store, map[]), steps) == System(store, StoppedUpTo(store.claimed, stops, n))
    ensures forall allowed :: StopsFrom(stops, allowed) ==> BeginsFrom(steps, allowed)
  {
    var idle := System(store, map[]);
    if n == 0 {
      steps := [];
      assert StoppedUpTo(store.claimed, stops, 0) == map[];
    } else {
      var first := StopsAreReached(store, stops, n - 1);
      var more := StopReached(store, stops, n - 1);
      RunConcat(idle, first, more);
      steps := first + more;
    }
  }

  lemma {:induction false} StopReached(store: Store, stops: seq<Stop>, n: nat) returns (steps: seq<Step>)
    requires ClaimCycle(store.claimed, stops) && n < |stops|
    ensures ValidRun(System(store, StoppedUpTo(store.claimed, stops, n)), steps)
    ensures Run(System(store, StoppedUpTo(store.claimed, stops, n)), steps) ==
            System(store, StoppedUpTo(store.claimed, stops, n + 1))
    ensures forall i :: 0 <= i < |steps| && steps[i].Begin? ==> steps[i].batch == stops[n].batch
  {
    var before, stop := System(store, StoppedUpTo(store.claimed, stops, n)), stops[n];
    var begun := Apply(before, Begin(n, stop.batch));
    assert Wants(store.claimed, stop, stops[Next(|stops|, n)]);
    forall u | u in begun.live && u != n ensures begun.live[u].won !! Unclaimed(store.claimed, stop.batch, stop.pos) {
      assert Disjoint(store.claimed, stops[u], stops[n]);
    }
    var claims := ClaimUpTo(begun, n, stop.batch, stop.pos);
    steps := [Begin(n, stop.batch)] + claims;
    assert steps[1..] == claims;
    assert Run(begun, claims).live == StoppedUpTo(store.claimed, stops, n + 1);
  }

  lemma {:induction false} StoppedIsCycle(store: Store, stops: seq<Stop>) returns (c: seq<TxnId>)
    requires ClaimCycle(store.claimed, stops)
    ensures IsCycle(System(store, StoppedUpTo(store.claimed, stops, |stops|)), c)
  {
    var n := |stops|;
    var s := System(store, StoppedUpTo(store.claimed, stops, n));
    c := seq(n + 1, i requires 0 <= i <= n => if i < n then i else 0);
    forall i | 0 <= i < n ensures Link(s, c, i) {
      var k := Next(n, i);
      assert c[i + 1] == k;
      assert Wants(store.claimed, stops[i], stops[k]);
      assert if i < k then Disjoint(store.claimed, stops[i], stops[k]) else Disjoint(store.claimed, stops[k], stops[i]);
      assert WaitsForClaim(s, i, k);
    }
  }

  // ---------------------------------------------------------------- serial runs

  lemma {:induction false} GreatestOf(s: set<Uuid>) returns (m: Uuid)
    requires s != {}
    ensures m in s && forall x :: x in s ==> x <= m
  {
    var x :| x in s;
    m := x;
    if s != {x} {
      var k := GreatestOf(s - {x});
      m := if k > x then k else x;
      assert s == (s - {x}) + {x};
    }
  }

  lemma {:induction false} AppendGreatest(kept: map<Uuid, Event>, d: Uuid, order: seq<Event>)
    requires d in kept && kept[d].device == d && InDeviceOrder(kept - {d}, order)
    requires forall k :: k in kept ==> k <= d
    ensures InDeviceOrder(kept, order + [kept[d]])
  {
    var r := order + [kept[d]];
    forall i, j | 0 <= i < j < |r| ensures r[i].device < r[j].device {
      assert order[i] in order;
    }
    forall k | k in kept ensures kept[k] in r {
      if k != d {
        assert k in kept - {d};
        assert kept[k] in order;
      }
    }
  }

  lemma {:induction false} OrderExists(kept: map<Uuid, Event>) returns (order: seq<Event>)
    requires forall d :: d in kept ==> kept[d].device == d
    ensures InDeviceOrder(kept, order)
    decreases |kept|
  {
    if kept == map[] {
      order := [];
    } else {
      var d := GreatestOf(kept.Keys);
      var rest := OrderExists(kept - {d});
      AppendGreatest(kept, d, rest);
      order := rest + [kept[d]];
    }
  }

  /** Alone, a transaction gets all its row locks. */
  lemma {:induction false} LockUpTo(store: Store, batch: seq<Event>, won: set<Uuid>, order: seq<Event>, n: nat)
    returns (steps: seq<Step>, writes: map<Uuid, Row>)
    requires n <= |order|
    ensures ValidRun(System(store, map[0 := Upserting(batch, won, order, 0, map[])]), steps)
    ensures Run(System(store, map[0 := Upserting(batch, won, order, 0, map[])]), steps) ==
            System(store, map[0 := Upserting(batch, won, order, n, writes)])
    ensures forall i :: 0 <= i < |steps| ==> steps[i].Lock?
  {
    if n == 0 {
      steps, writes := [], map[];
    } else {
      steps, writes := LockUpTo(store, batch, won, order, n - 1);
      var start := System(store, map[0 := Upserting(batch, won, order, 0, map[])]);
      var s := Run(start, steps);
      assert Enabled(s, Lock(0));
      RunExtends(start, steps, Lock(0));
      steps := steps + [Lock(0)];
      writes := Run(start, steps).live[0].writes;
    }
  }

  lemma {:induction false} PlanAlone(store: Store, batch: seq<Event>) returns (steps: seq<Step>, order: seq<Event>)
    requires Castable(batch) && Storable(Fresh(store.claimed, batch))
    ensures ValidRun(System(store, map[]), steps) && BeginsFrom(steps, {batch})
    ensures Run(System(store, map[]), steps) ==
            System(store, map[0 := Upserting(batch, Unclaimed(store.claimed, batch, |batch|), order, 0, map[])])
  {
    var idle, won := System(store, map[]), Unclaimed(store.claimed, batch, |batch|);
    var begun := Apply(idle, Begin(0, batch));
    var claims := ClaimUpTo(begun, 0, batch, |batch|);
    steps := [Begin(0, batch)] + claims;
    assert steps[1..] == claims;
    var accepted := Matching(won, batch);
    AllUnclaimed(store.claimed, batch);
    KeepLatestDevices(accepted);
    order := OrderExists(KeepLatest(accepted));
    KeptAreStorable(accepted, order);
    RunExtends(idle, steps, Plan(0, order));
    assert begun.live[0 := Upserting(batch, won, order, 0, map[])] == map[0 := Upserting(batch, won, order, 0, map[])];
    steps := steps + [Plan(0, order)];
  }

  lemma {:induction false} AllUnclaimed(claimed: set<Uuid>, batch: seq<Event>)
    ensures Unclaimed(claimed, batch, |batch|) == NewIds(claimed, batch)
  {
    forall id | id in NewIds(claimed, batch) ensures id in Unclaimed(claimed, batch, |batch|) {
      var e :| e in batch && e.id !in claimed && e.id == id;
      var i :| 0 <= i < |batch| && batch[i] == e;
    }
    forall id | id in Unclaimed(claimed, batch, |batch|) ensures id in NewIds(claimed, batch) {
      var i :| 0 <= i < |batch| && batch[i].id !in claimed && batch[i].id == id;
      assert batch[i] in batch;
    }
  }

  lemma {:induction false} BeginsConcat(a: seq<Step>, b: seq<Step>, allowed: set<seq<Event>>)
    requires BeginsFrom(a, allowed) && BeginsFrom(b, allowed)
    ensures BeginsFrom(a + b, allowed)
  {}

  lemma {:induction false} LockAlone(store: Store, batch: seq<Event>) returns (steps: seq<Step>, order: seq<Event>, writes: map<Uuid, Row>)
    requires Castable(batch) && Storable(Fresh(store.claimed, batch))
    ensures ValidRun(System(store, map[]), steps) && BeginsFrom(steps, {batch})
    ensures Run(System(store, map[]), steps) ==
            System(store, map[0 := Upserting(batch, Unclaimed(store.claimed, batch, |batch|), order, |order|, writes)])
  {
    var planned, locks;
    planned, order := PlanAlone(store, batch);
    locks, writes := LockUpTo(store, batch, Unclaimed(store.claimed, batch, |batch|), order, |order|);
    RunConcat(System(store, map[]), planned, locks);
    BeginsConcat(planned, locks, {batch});
    steps := planned + locks;
  }

  /** A batch whose transaction can commit is committed by a run of its own. */
  lemma {:induction false} CommitAlone(store: Store, batch: seq<Event>) returns (steps: seq<Step>)
    requires ApplyBatch(store, batch).Some?
    ensures ValidRun(System(store, map[]), steps) && BeginsFrom(steps, {batch})
    ensures Run(System(store, map[]), steps) == System(ApplyBatch(store, batch).value, map[])
  {
    var idle := System(store, map[]);
    var locked, order, writes := LockAlone(store, batch);
    RunKeepsInv(store, locked);
    CommitLast(Run(idle, locked), batch, order, writes);
    RunExtends(idle, locked, Commit(0));
    BeginsConcat(locked, [Commit(0)], {batch});
    steps := locked + [Commit(0)];
  }

  lemma {:induction false} RunKeepsInv(store: Store, steps: seq<Step>)
    requires ValidRun(System(store, map[]), steps)
    ensures Inv(Run(System(store, map[]), steps))
  {
    RunsAreSerializable(System(store, map[]), steps);
  }

  lemma {:induction false} CommitLast(s: System, batch: seq<Event>, order: seq<Event>, writes: map<Uuid, Row>)
    requires Inv(s) && ApplyBatch(s.store, batch).Some?
    requires s.live == map[0 := Upserting(batch, Unclaimed(s.store.claimed, batch, |batch|), order, |order|, writes)]
    ensures Enabled(s, Commit(0)) && Apply(s, Commit(0)) == System(ApplyBatch(s.store, batch).value, map[])
  {
    AllUnclaimed(s.store.claimed, batch);
    assert CanCommit(s, 0);
    CommitIsAtomic(s, 0);
  }

  /** The partner of serializability: every serial run of deliveries is a run of transactions. */
  lemma {:induction false} SerialRunsAreRuns(store: Store, ds: seq<Delivery>, allowed: set<seq<Event>>) returns (steps: seq<Step>)
    requires CommitsFrom(ds, allowed)
    ensures ValidRun(System(store, map[]), steps) && BeginsFrom(steps, allowed)
    ensures Run(System(store, map[]), steps) == System(DeliverAll(store, ds), map[])
    decreases |ds|
  {
    if ds == [] {
      steps := [];
    } else {
      var n := |ds| - 1;
      steps := SerialRunsAreRuns(store, ds[..n], allowed);
      var before := DeliverAll(store, ds[..n]);
      if ApplyBatch(before, ds[n].batch).Some? {
        var more := CommitAlone(before, ds[n].batch);
        RunConcat(System(store, map[]), steps, more);
        steps := steps + more;
      }
    }
  }

  // ---------------------------------------------------------------- exactly when

  ghost predicate CanDeadlock(store: Store, allowed: set<seq<Event>>) {
    exists steps, c :: ValidRun(System(store, map[]), steps) && BeginsFrom(steps, allowed)
                       && IsCycle(Run(System(store, map[]), steps), c)
  }

  ghost predicate CanCross(store: Store, allowed: set<seq<Event>>) {
    exists ds, stops :: CommitsFrom(ds, allowed) && StopsFrom(stops, allowed)
                        && ClaimCycle(DeliverAll(store, ds).claimed, stops)
  }

  lemma {:induction false} CycleCrosses(store: Store, allowed: set<seq<Event>>, steps: seq<Step>, c: seq<TxnId>)
    requires ValidRun(System(store, map[]), steps) && BeginsFrom(steps, allowed)
    requires IsCycle(Run(System(store, map[]), steps), c)
    ensures CanCross(store, allowed)
  {
    var idle := System(store, map[]);
    var s := Run(idle, steps);
    RunsAreSerializable(idle, steps);
    RunsStayAllowed(idle, steps, allowed);
    var simple := SimpleCycle(s, c);
    CycleGivesStops(s, simple);
    var n := |simple| - 1;
    var stops := seq(n, i requires 0 <= i < n => StopOf(s, simple[i]));
    forall i | 0 <= i < n ensures stops[i].batch in allowed {
      CyclesAreClaimCycles(s, simple, i);
    }
    assert StopsFrom(stops, allowed);
  }

  lemma {:induction false} CrossingDeadlocks(store: Store, allowed: set<seq<Event>>, ds: seq<Delivery>, stops: seq<Stop>)
    requires CommitsFrom(ds, allowed) && StopsFrom(stops, allowed) && ClaimCycle(DeliverAll(store, ds).claimed, stops)
    ensures CanDeadlock(store, allowed)
  {
    var committed := SerialRunsAreRuns(store, ds, allowed);
    var store' := DeliverAll(store, ds);
    var stopped := StopsAreReached(store', stops, |stops|);
    RunConcat(System(store, map[]), committed, stopped);
    var c := StoppedIsCycle(store', stops);
    assert BeginsFrom(committed + stopped, allowed);
  }

  /** Concurrent transactions over some batches can deadlock if and only if, after some of the batches have
      committed, some of them can be stopped, at ids that can be cast, with disjoint new ids so that each wants
      an id of the next. */
  lemma {:induction false} DeadlockIffCrossing(store: Store, allowed: set<seq<Event>>)
    ensures CanDeadlock(store, allowed) <==> CanCross(store, allowed)
  {
    if CanDeadlock(store, allowed) {
      var steps, c :| ValidRun(System(store, map[]), steps) && BeginsFrom(steps, allowed)
                      && IsCycle(Run(System(store, map[]), steps), c);
      CycleCrosses(store, allowed, steps, c);
    }
    if CanCross(store, allowed) {
      var ds, stops :| CommitsFrom(ds, allowed) && StopsFrom(stops, allowed)
                       && ClaimCycle(DeliverAll(store, ds).claimed, stops);
      CrossingDeadlocks(store, allowed, ds, stops);
    }
  }

  predicate Ascending(batch: seq<Event>) {
    forall i, j :: 0 <= i < j < |batch| ==> batch[i].id < batch[j].id
  }

  /** Along crossing stops of sorted batches the wanted id only grows. */
  lemma {:induction false} WantedGrows(claimed: set<Uuid>, stops: seq<Stop>, i: nat)
    requires ClaimCycle(claimed, stops) && i < |stops| && forall k :: 0 <= k < |stops| ==> Ascending(stops[k].batch)
    ensures stops[i].pos < |stops[i].batch| && stops[0].pos < |stops[0].batch|
    ensures stops[0].batch[stops[0].pos].id <= stops[i].batch[stops[i].pos].id
  {
    assert Wants(claimed, stops[i], stops[Next(|stops|, i)]) && Wants(claimed, stops[0], stops[Next(|stops|, 0)]);
    if i > 0 {
      WantedGrows(claimed, stops, i - 1);
      assert Wants(claimed, stops[i - 1], stops[Next(|stops|, i - 1)]);
      WantedBelow(claimed, stops[i - 1], stops[i]);
    }
  }

  lemma {:induction false} WantedBelow(claimed: set<Uuid>, a: Stop, b: Stop)
    requires Wants(claimed, a, b) && b.pos < |b.batch| && Ascending(b.batch)
    ensures a.batch[a.pos].id < b.batch[b.pos].id
  {
    var k :| 0 <= k < b.pos && b.batch[k].id == a.batch[a.pos].id;
  }

  /** Shared ids alone do no harm: batches with their ids in ascending order never deadlock. */
  lemma {:induction false} SortedIdsNeverDeadlock(store: Store, allowed: set<seq<Event>>)
    requires forall batch :: batch in allowed ==> Ascending(batch)
    ensures !CanDeadlock(store, allowed)
  {
    DeadlockIffCrossing(store, allowed);
    forall claimed, stops | StopsFrom(stops, allowed) && ClaimCycle(claimed, stops) ensures false {
      var last := |stops| - 1;
      WantedGrows(claimed, stops, last);
      assert Wants(claimed, stops[last], stops[Next(|stops|, last)]);
      WantedBelow(claimed, stops[last], stops[0]);
    }
  }

  // ---------------------------------------------------------------- progress

  /** The transaction waits for somebody. */
  ghost predicate Waits(s: System, t: TxnId) {
    exists u :: WaitsFor(s, t, u)
  }

  ghost predicate IsPath(s: System, p: seq<TxnId>) {
    p != [] && (forall i :: 0 <= i < |p| ==> p[i] in s.live) && forall i :: 0 <= i < |p| - 1 ==> Link(s, p, i)
  }

  lemma {:induction false} LongPath(s: System, t: TxnId, n: nat) returns (p: seq<TxnId>)
    requires t in s.live && forall u :: u in s.live ==> Waits(s, u)
    ensures IsPath(s, p) && |p| == n + 1
  {
    if n == 0 {
      p := [t];
    } else {
      var q := LongPath(s, t, n - 1);
      assert Waits(s, q[n - 1]);
      var u :| WaitsFor(s, q[n - 1], u);
      PathExtends(s, q, u);
      p := q + [u];
    }
  }

  lemma {:induction false} PathExtends(s: System, q: seq<TxnId>, u: TxnId)
    requires IsPath(s, q) && WaitsFor(s, q[|q| - 1], u)
    ensures IsPath(s, q + [u])
  {
    var p := q + [u];
    forall i | 0 <= i < |p| - 1 ensures Link(s, p, i) {
      if i < |q| - 1 {
        assert Link(s, q, i);
      }
    }
  }

  lemma {:induction false} SomethingTwice(p: seq<TxnId>, s: set<TxnId>) returns (i: nat, j: nat)
    requires |p| > |s| && forall k :: 0 <= k < |p| ==> p[k] in s
    ensures i < j < |p| && p[i] == p[j]
    decreases |p|
  {
    var n := |p| - 1;
    if k :| 0 <= k < n && p[k] == p[n] {
      i, j := k, n;
    } else {
      i, j := SomethingTwice(p[..n], s - {p[n]});
    }
  }

  /** If everybody waits, somebody waits for himself in the end. */
  lemma {:induction false} AllWaitingCycle(s: System, t: TxnId) returns (c: seq<TxnId>)
    requires t in s.live && forall u :: u in s.live ==> Waits(s, u)
    ensures IsCycle(s, c)
  {
    var p := LongPath(s, t, |s.live|);
    assert |s.live.Keys| == |s.live|;
    var i, j := SomethingTwice(p, s.live.Keys);
    c := p[i..j + 1];
    LoopIsCycle(s, p, i, j);
  }

  lemma {:induction false} LoopIsCycle(s: System, p: seq<TxnId>, i: nat, j: nat)
    requires IsPath(s, p) && i < j < |p| && p[i] == p[j]
    ensures IsCycle(s, p[i..j + 1])
  {
    var c := p[i..j + 1];
    forall k | 0 <= k < |c| - 1 ensures Link(s, c, k) {
      assert Link(s, p, i + k);
    }
  }

  lemma {:induction false} WaitsOrClaims(s: System, t: TxnId)
    requires t in s.live && s.live[t].Claiming? && s.live[t].pos < |s.live[t].batch|
    requires !s.live[t].batch[s.live[t].pos].spelling.Uncastable?
    ensures Waits(s, t) || CanClaim(s, t)
  {
    var x := s.live[t];
    var id := x.batch[x.pos].id;
    if id !in s.store.claimed && id !in x.won && ClaimedElsewhere(s, t, id) {
      var u :| u in s.live && u != t && id in s.live[u].won;
      assert WaitsFor(s, t, u);
    }
  }

  lemma {:induction false} WaitsOrLocks(s: System, t: TxnId)
    requires t in s.live && s.live[t].Upserting? && s.live[t].done < |s.live[t].order|
    ensures Waits(s, t) || CanLock(s, t)
  {
    var x := s.live[t];
    var d := x.order[x.done].device;
    if LockedElsewhere(s, t, d) {
      var u :| u in s.live && u != t && d in s.live[u].Held();
      assert WaitsFor(s, t, u);
    }
  }

  /** The next statement of the transaction fails: the claim on an id it cannot cast, the upsert on a tenant,
      or the copy into the history table. */
  predicate Fails(s: System, t: TxnId)
    requires t in s.live
  {
    var x := s.live[t];
    if x.Claiming? then
      if x.pos < |x.batch| then x.batch[x.pos].spelling.Uncastable?
      else
        var kept := KeepLatest(Matching(x.won, x.batch));
        exists d :: d in kept && !kept[d].storable
    else x.done == |x.order| && !HistoryAccepts(s.store.history, Matching(x.won, x.batch))
  }

  lemma {:induction false} PlanOrFails(s: System, t: TxnId) returns (order: seq<Event>)
    requires Inv(s) && t in s.live && s.live[t].Claiming? && s.live[t].pos == |s.live[t].batch|
    ensures Fails(s, t) || Enabled(s, Plan(t, order))
  {
    var x := s.live[t];
    var kept := KeepLatest(Matching(x.won, x.batch));
    KeepLatestDevices(Matching(x.won, x.batch));
    order := OrderExists(kept);
    if !Fails(s, t) {
      forall i | 0 <= i < |order| ensures order[i].storable {
        assert order[i] in order;
      }
    }
  }

  /** A transaction that waits for nobody has a next statement, unless that statement fails. */
  lemma {:induction false} FreeCanGoOn(s: System, t: TxnId) returns (step: Step)
    requires Inv(s) && t in s.live && !Waits(s, t)
    ensures step.t == t && Enabled(s, step) && (step.Abort? <==> Fails(s, t))
  {
    var x := s.live[t];
    assert TxnOk(s.store, x);
    if Fails(s, t) {
      step := Abort(t);
    } else if x.Claiming? {
      if x.pos < |x.batch| {
        WaitsOrClaims(s, t);
        step := Claim(t);
      } else {
        var order := PlanOrFails(s, t);
        step := Plan(t, order);
      }
    } else if x.done < |x.order| {
      WaitsOrLocks(s, t);
      step := Lock(t);
    } else {
      step := Commit(t);
    }
  }

  /** Nothing but a rollback is left to a transaction whose next statement fails. */
  lemma {:induction false} OthersDoNotFail(s: System, step: Step)
    requires Enabled(s, step) && step.t in s.live && !step.Abort?
    ensures !Fails(s, step.t)
  {
    if step.Plan? {
      var kept := KeepLatest(Matching(s.live[step.t].won, s.live[step.t].batch));
      forall d | d in kept ensures kept[d].storable {
        var i :| 0 <= i < |step.order| && step.order[i] == kept[d];
      }
    }
  }

  /** Only the transaction of a refused batch ever fails. */
  lemma {:induction false} FailsIsRefused(s: System, t: TxnId)
    requires Inv(s) && t in s.live && Fails(s, t) && HistoryIds(s.store.history) <= s.store.claimed
    ensures Refused(s.store.claimed, s.live[t].batch)
  {
    var x := s.live[t];
    assert TxnOk(s.store, x);
    if x.Upserting? {
      WonAreNewIds(s, t);
    } else if x.pos == |x.batch| {
      WonAreUnclaimed(s.store, x);
      AllUnclaimed(s.store.claimed, x.batch);
      KeptUnstorable(Matching(x.won, x.batch));
    }
    RollsBackIffRefused(s.store, x.batch);
  }

  lemma {:induction false} KeptUnstorable(events: seq<Event>)
    requires exists d :: d in KeepLatest(events) && !KeepLatest(events)[d].storable
    ensures !Storable(events)
  {
    var d :| d in KeepLatest(events) && !KeepLatest(events)[d].storable;
    var i := KeepLatestIsLastNewest(events, d);
  }

  /** In every reachable state with a live transaction either there is a cycle of waits or some transaction
      that waits for nobody can take its next statement; it rolls back only if that statement fails, and
      then its batch is refused. */
  lemma {:induction false} CycleOrProgress(store: Store, steps: seq<Step>, t: TxnId) returns (c: seq<TxnId>, step: Step)
    requires ValidRun(System(store, map[]), steps) && t in Run(System(store, map[]), steps).live
    ensures var s := Run(System(store, map[]), steps);
            IsCycle(s, c) || (Enabled(s, step) && step.t in s.live && !Waits(s, step.t)
                              && (step.Abort? <==> Fails(s, step.t))
                              && (step.Abort? && Projected(store) ==> Refused(s.store.claimed, s.live[step.t].batch)))
  {
    var s := Run(System(store, map[]), steps);
    RunsAreSerializable(System(store, map[]), steps);
    c, step := [], Abort(t);
    if u :| u in s.live && !Waits(s, u) {
      step := FreeCanGoOn(s, u);
      if Fails(s, u) && Projected(store) {
        RunsKeepProjection(store, CommitOrder(System(store, map[]), steps));
        FailsIsRefused(s, u);
      }
    } else {
      c := AllWaitingCycle(s, t);
    }
  }
}
