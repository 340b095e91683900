/**
 Concurrent batch transactions on the read database. A transaction claims its event ids one by one,
 then upserts its deduplicated devices in sorted order, taking one row lock each, and holds every
 claim and lock until it ends. Any number of transactions interleave statement by statement.
 */
module ReadModelTransactions {
  import opened Wrappers
  import opened TelemetryModel
  import opened BatchProjection

  type TxnId = nat

  /** `won` are the ids this transaction inserted into the claim table; the keys of `writes` are the
      device rows it has locked, with the row it will leave there. */
  datatype Txn =
    | Claiming(batch: seq<Event>, pos: nat, won: set<Uuid>)
    | Upserting(batch: seq<Event>, won: set<Uuid>, order: seq<Event>, done: nat, writes: map<Uuid, Row>)
  {
    function Held(): set<Uuid> {
      if Claiming? then {} else writes.Keys
    }
  }

  datatype System = System(store: Store, live: map<TxnId, Txn>)

  datatype Step =
    | Begin(t: TxnId, batch: seq<Event>)
    | Claim(t: TxnId)
    | Plan(t: TxnId, order: seq<Event>)
    | Lock(t: TxnId)
    | Commit(t: TxnId)
    | Abort(t: TxnId)

  const Idle := System(EmptyStore, map[])

  /** The kept events sorted by device, one per device. */
  predicate InDeviceOrder(kept: map<Uuid, Event>, order: seq<Event>) {
    && (forall i, j :: 0 <= i < j < |order| ==> order[i].device < order[j].device)
    && (forall e :: e in order ==> e.device in kept && kept[e.device] == e)
    && (forall d :: d in kept ==> kept[d] in order)
  }

  lemma {:induction false} KeptAreStorable(events: seq<Event>, order: seq<Event>)
    requires Storable(events) && InDeviceOrder(KeepLatest(events), order)
    ensures Storable(order)
  {
    forall i | 0 <= i < |order| ensures order[i].storable {
      assert order[i] in order;
      KeepLatestDevices(events);
      var k := KeepLatestIsLastNewest(events, order[i].device);
    }
  }

  predicate ClaimedElsewhere(s: System, t: TxnId, id: Uuid) {
    exists u :: u in s.live && u != t && id in s.live[u].won
  }

  predicate LockedElsewhere(s: System, t: TxnId, d: Uuid) {
    exists u :: u in s.live && u != t && d in s.live[u].Held()
  }

  /** The next id can be cast and is free to insert or already decided. */
  predicate CanClaim(s: System, t: TxnId)
    requires t in s.live
  {
    var x := s.live[t];
    x.Claiming? && x.pos < |x.batch| && !x.batch[x.pos].spelling.Uncastable? &&
    var id := x.batch[x.pos].id;
    id in s.store.claimed || id in x.won || !ClaimedElsewhere(s, t, id)
  }

  predicate CanLock(s: System, t: TxnId)
    requires t in s.live
  {
    var x := s.live[t];
    x.Upserting? && x.done < |x.order| && !LockedElsewhere(s, t, x.order[x.done].device)
  }

  predicate CanCommit(s: System, t: TxnId)
    requires t in s.live
  {
    var x := s.live[t];
    x.Upserting? && x.done == |x.order| && HistoryAccepts(s.store.history, Matching(x.won, x.batch))
  }

  predicate Enabled(s: System, step: Step) {
    match step
    case Begin(t, _) => t !in s.live
    case Claim(t) => t in s.live && CanClaim(s, t)
    case Plan(t, order) =>
      t in s.live && s.live[t].Claiming? && s.live[t].pos == |s.live[t].batch| &&
      InDeviceOrder(KeepLatest(Matching(s.live[t].won, s.live[t].batch)), order) && Storable(order)
    case Lock(t) => t in s.live && CanLock(s, t)
    case Commit(t) => t in s.live && CanCommit(s, t)
    case Abort(t) => t in s.live
  }

  function Apply(s: System, step: Step): System
    requires Enabled(s, step)
  {
    match step
    case Begin(t, batch) => s.(live := s.live[t := Claiming(batch, 0, {})])
    case Claim(t) =>
      var x := s.live[t];
      var id := x.batch[x.pos].id;
      var won := if id in s.store.claimed then x.won else x.won + {id};
      s.(live := s.live[t := x.(pos := x.pos + 1, won := won)])
    case Plan(t, order) => s.(live := s.live[t := Upserting(s.live[t].batch, s.live[t].won, order, 0, map[])])
    case Lock(t) =>
      var x := s.live[t];
      var e := x.order[x.done];
      var row := UpsertRow(Lookup(s.store.latest, e.device), e);
      s.(live := s.live[t := x.(done := x.done + 1, writes := x.writes[e.device := row])])
    case Commit(t) =>
      var x := s.live[t];
      System(
        Store(s.store.claimed + x.won, s.store.latest + x.writes,
              s.store.history + multiset(Matching(x.won, x.batch))),
        s.live - {t})
    case Abort(t) => s.(live := s.live - {t})
  }

  // ---------------------------------------------------------------- the invariant

  /** The ids examined so far could be cast and are decided: won here, or claimed by a committed transaction. */
  predicate ClaimsDecided(store: Store, batch: seq<Event>, pos: nat, won: set<Uuid>) {
    && pos <= |batch| && CastableUpTo(batch, pos)
    && won !! store.claimed
    && (forall i :: 0 <= i < pos ==> batch[i].id in won || batch[i].id in store.claimed)
    && (forall id :: id in won ==> exists i :: 0 <= i < pos && batch[i].id == id)
  }

  /** The locked rows are the first `done` devices of the plan, each upserted against the store. */
  predicate WritesCurrent(store: Store, order: seq<Event>, done: nat, writes: map<Uuid, Row>) {
    && done <= |order|
    && (forall i :: 0 <= i < done ==>
          order[i].device in writes
          && writes[order[i].device] == UpsertRow(Lookup(store.latest, order[i].device), order[i]))
    && (forall d :: d in writes ==> exists i :: 0 <= i < done && order[i].device == d)
  }

  predicate TxnOk(store: Store, x: Txn) {
    match x
    case Claiming(batch, pos, won) => ClaimsDecided(store, batch, pos, won)
    case Upserting(batch, won, order, done, writes) =>
      && ClaimsDecided(store, batch, |batch|, won)
      && InDeviceOrder(KeepLatest(Matching(won, batch)), order)
      && WritesCurrent(store, order, done, writes)
  }

  predicate Exclusive(s: System) {
    forall t, u :: t in s.live && u in s.live && t != u ==>
      s.live[t].won !! s.live[u].won && s.live[t].Held() !! s.live[u].Held()
  }

  predicate Inv(s: System) {
    Exclusive(s) && forall t :: t in s.live ==> TxnOk(s.store, s.live[t])
  }

  lemma {:induction false} IdleInv()
    ensures Inv(Idle)
  {}

  lemma {:induction false} DecideOneMore(store: Store, batch: seq<Event>, pos: nat, won: set<Uuid>)
    requires ClaimsDecided(store, batch, pos, won) && pos < |batch| && !batch[pos].spelling.Uncastable?
    ensures var id := batch[pos].id;
            ClaimsDecided(store, batch, pos + 1, if id in store.claimed then won else won + {id})
  {
    var id := batch[pos].id;
    forall w | w in won + {id} && (w in won || id !in store.claimed) ensures exists i :: 0 <= i < pos + 1 && batch[i].id == w {
      if w in won {
        var i :| 0 <= i < pos && batch[i].id == w;
      }
    }
  }

  /** One transaction may change freely as long as it stays well-formed and takes nothing of the others. */
  lemma {:induction false} ReplaceKeepsInv(s: System, t: TxnId, x: Txn)
    requires Inv(s) && t in s.live && TxnOk(s.store, x)
    requires forall u :: u in s.live && u != t ==> x.won !! s.live[u].won && x.Held() !! s.live[u].Held()
    ensures Inv(s.(live := s.live[t := x]))
  {
    var s' := s.(live := s.live[t := x]);
    forall u, v | u in s'.live && v in s'.live && u != v
      ensures s'.live[u].won !! s'.live[v].won && s'.live[u].Held() !! s'.live[v].Held()
    {
      assert u != t && v != t ==> s.live[u].won !! s.live[v].won && s.live[u].Held() !! s.live[v].Held();
    }
    forall u | u in s'.live ensures TxnOk(s'.store, s'.live[u]) {
      assert u != t ==> TxnOk(s.store, s.live[u]);
    }
  }

  lemma {:induction false} ClaimKeepsInv(s: System, t: TxnId)
    requires Inv(s) && Enabled(s, Claim(t))
    ensures Inv(Apply(s, Claim(t)))
  {
    var x := s.live[t];
    assert TxnOk(s.store, x);
    DecideOneMore(s.store, x.batch, x.pos, x.won);
    var x' := Apply(s, Claim(t)).live[t];
    forall u | u in s.live && u != t ensures x'.won !! s.live[u].won {
      assert x.won !! s.live[u].won;
      assert TxnOk(s.store, s.live[u]);
    }
    ReplaceKeepsInv(s, t, x');
  }

  lemma {:induction false} WritesExtend(store: Store, order: seq<Event>, done: nat, writes: map<Uuid, Row>)
    requires WritesCurrent(store, order, done, writes) && done < |order|
    requires forall i :: 0 <= i < done ==> order[i].device < order[done].device
    ensures WritesCurrent(store, order, done + 1,
              writes[order[done].device := UpsertRow(Lookup(store.latest, order[done].device), order[done])])
  {
    var d' := order[done].device;
    forall d | d in writes.Keys + {d'} ensures exists i :: 0 <= i < done + 1 && order[i].device == d {
      if d != d' {
        var i :| 0 <= i < done && order[i].device == d;
      }
    }
  }

  lemma {:induction false} LockKeepsInv(s: System, t: TxnId)
    requires Inv(s) && Enabled(s, Lock(t))
    ensures Inv(Apply(s, Lock(t)))
  {
    var x := s.live[t];
    var x' := Apply(s, Lock(t)).live[t];
    var d := x.order[x.done].device;
    assert TxnOk(s.store, x);
    WritesExtend(s.store, x.order, x.done, x.writes);
    assert x'.Held() == x.Held() + {d};
    forall u | u in s.live && u != t ensures x'.won !! s.live[u].won && x'.Held() !! s.live[u].Held() {
      assert x.won !! s.live[u].won && x.Held() !! s.live[u].Held() && d !in s.live[u].Held();
    }
    ReplaceKeepsInv(s, t, x');
  }

  lemma {:induction false} WritesStayCurrent(store: Store, store': Store, x: Txn)
    requires x.Upserting? && WritesCurrent(store, x.order, x.done, x.writes)
    requires forall d :: d in x.writes ==> Lookup(store'.latest, d) == Lookup(store.latest, d)
    ensures WritesCurrent(store', x.order, x.done, x.writes)
  {}

  lemma {:induction false} CommitLeavesOthersOk(s: System, t: TxnId, u: TxnId)
    requires Inv(s) && Enabled(s, Commit(t)) && u in s.live && u != t
    ensures TxnOk(Apply(s, Commit(t)).store, s.live[u])
  {
    var x, s' := s.live[u], Apply(s, Commit(t));
    assert TxnOk(s.store, x);
    assert x.won !! s.live[t].won && x.Held() !! s.live[t].Held();
    if x.Upserting? {
      WritesStayCurrent(s.store, s'.store, x);
    }
  }

  lemma {:induction false} CommitKeepsInv(s: System, t: TxnId)
    requires Inv(s) && Enabled(s, Commit(t))
    ensures Inv(Apply(s, Commit(t)))
  {
    var s' := Apply(s, Commit(t));
    forall u | u in s'.live ensures TxnOk(s'.store, s'.live[u]) {
      CommitLeavesOthersOk(s, t, u);
    }
  }

  /** Every statement of every transaction keeps the invariant. */
  lemma {:induction false} StepKeepsInv(s: System, step: Step)
    requires Inv(s) && Enabled(s, step)
    ensures Inv(Apply(s, step))
  {
    match step
    case Begin(t, batch) =>
    case Claim(t) => ClaimKeepsInv(s, t);
    case Plan(t, order) =>
      assert TxnOk(s.store, s.live[t]);
      ReplaceKeepsInv(s, t, Apply(s, step).live[t]);
    case Lock(t) => LockKeepsInv(s, t);
    case Commit(t) => CommitKeepsInv(s, t);
    case Abort(t) =>
  }

  // ---------------------------------------------------------------- serializability

  lemma {:induction false} WonAreNewIds(s: System, t: TxnId)
    requires Inv(s) && t in s.live && s.live[t].Upserting?
    ensures s.live[t].won == NewIds(s.store.claimed, s.live[t].batch)
  {
    var x := s.live[t];
    assert TxnOk(s.store, x);
    forall id | id in NewIds(s.store.claimed, x.batch) ensures id in x.won {
      var e :| e in x.batch && e.id !in s.store.claimed && e.id == id;
      var i :| 0 <= i < |x.batch| && x.batch[i] == e;
    }
    forall id | id in x.won ensures id in NewIds(s.store.claimed, x.batch) {
      var i :| 0 <= i < |x.batch| && x.batch[i].id == id;
      assert x.batch[i] in x.batch;
    }
  }

  lemma {:induction false} WrittenAreKept(store: Store, x: Txn, kept: map<Uuid, Event>, d: Uuid)
    requires x.Upserting? && WritesCurrent(store, x.order, x.done, x.writes) && x.done == |x.order|
    requires InDeviceOrder(kept, x.order) && forall d :: d in kept ==> kept[d].device == d
    ensures Lookup(store.latest + x.writes, d) == Lookup(BulkUpsert(store.latest, kept), d)
  {
    if d in kept {
      var i :| 0 <= i < |x.order| && x.order[i] == kept[d];
      assert x.order[i].device == d;
    }
    if d in x.writes {
      var i :| 0 <= i < x.done && x.order[i].device == d;
      assert x.order[i] in x.order;
    }
  }

  lemma {:induction false} WritesAreBulkUpsert(s: System, t: TxnId)
    requires Inv(s) && t in s.live && s.live[t].Upserting? && s.live[t].done == |s.live[t].order|
    ensures s.store.latest + s.live[t].writes ==
              BulkUpsert(s.store.latest, KeepLatest(Matching(s.live[t].won, s.live[t].batch)))
  {
    var x := s.live[t];
    var kept := KeepLatest(Matching(x.won, x.batch));
    assert TxnOk(s.store, x);
    KeepLatestDevices(Matching(x.won, x.batch));
    WritesMatch(s.store, x, kept);
  }

  lemma {:induction false} WritesMatch(store: Store, x: Txn, kept: map<Uuid, Event>)
    requires x.Upserting? && WritesCurrent(store, x.order, x.done, x.writes) && x.done == |x.order|
    requires InDeviceOrder(kept, x.order) && forall d :: d in kept ==> kept[d].device == d
    ensures store.latest + x.writes == BulkUpsert(store.latest, kept)
  {
    forall d ensures Lookup(store.latest + x.writes, d) == Lookup(BulkUpsert(store.latest, kept), d) {
      WrittenAreKept(store, x, kept, d);
    }
    SameLookups(store.latest + x.writes, BulkUpsert(store.latest, kept));
  }

  /** A commit takes effect as if its whole batch ran alone at that moment. */
  lemma {:induction false} CommitIsAtomic(s: System, t: TxnId)
    requires Inv(s) && Enabled(s, Commit(t))
    ensures ApplyBatch(s.store, s.live[t].batch) == Some(Apply(s, Commit(t)).store)
  {
    WonAreNewIds(s, t);
    WritesAreBulkUpsert(s, t);
  }

  /** A run: the steps of all transactions in the order they happened. */
  ghost predicate ValidRun(s: System, steps: seq<Step>)
    decreases |steps|
  {
    steps == [] || (Enabled(s, steps[0]) && ValidRun(Apply(s, steps[0]), steps[1..]))
  }

  function Run(s: System, steps: seq<Step>): System
    requires ValidRun(s, steps)
    decreases |steps|
  {
    if steps == [] then s else Run(Apply(s, steps[0]), steps[1..])
  }

  /** The committed batches of a run, in commit order. */
  function CommitOrder(s: System, steps: seq<Step>): seq<Delivery>
    requires ValidRun(s, steps)
    decreases |steps|
  {
    if steps == [] then []
    else
      var rest := CommitOrder(Apply(s, steps[0]), steps[1..]);
      if steps[0].Commit? then [Committed(s.live[steps[0].t].batch, true)] + rest else rest
  }

  lemma {:induction false} DeliverAllFrom(store: Store, d: Delivery, ds: seq<Delivery>)
    ensures DeliverAll(store, [d] + ds) == DeliverAll(Deliver(store, d), ds)
  {
    if ds == [] {
      assert ([d] + ds)[..0] == [];
    } else {
      var n, all := |ds| - 1, [d] + ds;
      DeliverAllFrom(store, d, ds[..n]);
      assert all[..|all| - 1] == [d] + ds[..n] && all[|all| - 1] == ds[n];
    }
  }

  /** Every interleaved run leaves the tables of the serial run of its committed batches. */
  lemma {:induction false} RunsAreSerializable(s: System, steps: seq<Step>)
    requires Inv(s) && ValidRun(s, steps)
    ensures Inv(Run(s, steps))
    ensures Run(s, steps).store == DeliverAll(s.store, CommitOrder(s, steps))
    decreases |steps|
  {
    if steps != [] {
      var s' := Apply(s, steps[0]);
      StepKeepsInv(s, steps[0]);
      RunsAreSerializable(s', steps[1..]);
      if steps[0].Commit? {
        CommitIsAtomic(s, steps[0].t);
        DeliverAllFrom(s.store, Committed(s.live[steps[0].t].batch, true), CommitOrder(s', steps[1..]));
      }
    }
  }

  /** Exactly-once projection in every state that concurrent workers can reach. */
  lemma {:induction false} ConcurrentRunsStayProjected(steps: seq<Step>)
    requires ValidRun(Idle, steps)
    ensures Projected(Run(Idle, steps).store)
  {
    IdleInv();
    RunsAreSerializable(Idle, steps);
    RunsStayProjected(CommitOrder(Idle, steps));
  }

  // ---------------------------------------------------------------- waiting and deadlock

  predicate WaitsForClaim(s: System, t: TxnId, u: TxnId) {
    t in s.live && u in s.live && t != u && s.live[t].Claiming? && s.live[t].pos < |s.live[t].batch| &&
    !s.live[t].batch[s.live[t].pos].spelling.Uncastable? &&
    var id := s.live[t].batch[s.live[t].pos].id;
    id !in s.store.claimed && id !in s.live[t].won && id in s.live[u].won
  }

  predicate WaitsForRow(s: System, t: TxnId, u: TxnId) {
    t in s.live && u in s.live && t != u && s.live[t].Upserting? && s.live[t].done < |s.live[t].order| &&
    s.live[t].order[s.live[t].done].device in s.live[u].Held()
  }

  predicate WaitsFor(s: System, t: TxnId, u: TxnId) {
    WaitsForClaim(s, t, u) || WaitsForRow(s, t, u)
  }

  /** A deadlock: transactions that wait for each other in a circle, the first one named again last. */
  predicate IsCycle(s: System, c: seq<TxnId>) {
    |c| >= 2 && c[0] == c[|c| - 1] && forall i :: 0 <= i < |c| - 1 ==> Link(s, c, i)
  }

  predicate Link(s: System, c: seq<TxnId>, i: nat)
    requires i + 1 < |c|
  {
    WaitsFor(s, c[i], c[i + 1])
  }

  function WantedRow(x: Txn): Uuid
    requires x.Upserting? && x.done < |x.order|
  {
    x.order[x.done].device
  }

  /** What the sorted order gives: a transaction holds only rows below the one it wants. */
  ghost predicate HoldsBelowWanted(s: System) {
    forall t, d :: t in s.live && s.live[t].Upserting? && s.live[t].done < |s.live[t].order| && d in s.live[t].Held()
      ==> d < WantedRow(s.live[t])
  }

  lemma {:induction false} HeldComeBefore(store: Store, x: Txn, d: Uuid)
    requires x.Upserting? && TxnOk(store, x) && x.done < |x.order| && d in x.writes
    ensures d < WantedRow(x)
  {
    var i :| 0 <= i < x.done && x.order[i].device == d;
    assert x.order[i].device < x.order[x.done].device;
  }

  lemma {:induction false} SortedOrderHoldsBelow(s: System)
    requires Inv(s)
    ensures HoldsBelowWanted(s)
  {
    forall t, d | t in s.live && s.live[t].Upserting? && s.live[t].done < |s.live[t].order| && d in s.live[t].Held()
      ensures d < WantedRow(s.live[t])
    {
      HeldComeBefore(s.store, s.live[t], d);
    }
  }

  /** Whoever is waited for by a row waiter and waits itself, waits for a greater device row. */
  lemma {:induction false} RowWaitsClimb(s: System, t: TxnId, u: TxnId, v: TxnId)
    requires HoldsBelowWanted(s) && WaitsForRow(s, t, u) && WaitsFor(s, u, v)
    ensures WaitsForRow(s, u, v) && WantedRow(s.live[t]) < WantedRow(s.live[u])
  {}

  /** Along the circle the row waited for only grows. */
  lemma {:induction false} RowsGrowAlong(s: System, c: seq<TxnId>, i: nat, j: nat)
    requires HoldsBelowWanted(s) && IsCycle(s, c) && i <= j < |c| - 1 && WaitsForRow(s, c[i], c[i + 1])
    ensures WaitsForRow(s, c[j], c[j + 1])
    ensures i < j ==> WantedRow(s.live[c[i]]) < WantedRow(s.live[c[j]])
  {
    if i < j {
      RowsGrowAlong(s, c, i, j - 1);
      assert Link(s, c, j);
      RowWaitsClimb(s, c[j - 1], c[j], c[j + 1]);
    }
  }

  lemma {:induction false} NoRowWaitOnCycle(s: System, c: seq<TxnId>, i: nat)
    requires HoldsBelowWanted(s) && IsCycle(s, c) && i < |c| - 1
    ensures !WaitsForRow(s, c[i], c[i + 1])
  {
    if WaitsForRow(s, c[i], c[i + 1]) {
      var last := |c| - 2;
      RowsGrowAlong(s, c, i, last);
      assert Link(s, c, 0);
      RowWaitsClimb(s, c[last], c[0], c[1]);
      RowsGrowAlong(s, c, 0, i);
    }
  }

  /** In every reachable state a circle of waits consists of claim waits only: device rows taken in
      sorted order never close a circle, alone or together with claims. */
  lemma {:induction false} CyclesAreClaimCycles(s: System, c: seq<TxnId>, i: nat)
    requires Inv(s) && IsCycle(s, c) && i < |c| - 1
    ensures WaitsForClaim(s, c[i], c[i + 1])
  {
    SortedOrderHoldsBelow(s);
    NoRowWaitOnCycle(s, c, i);
    assert Link(s, c, i);
  }

  /** The live batches share no event id. */
  predicate DisjointIds(s: System) {
    forall t, u, e, f :: t in s.live && u in s.live && t != u && e in s.live[t].batch && f in s.live[u].batch
      ==> e.id != f.id
  }

  lemma {:induction false} ClaimWaitsShareAnId(s: System, t: TxnId, u: TxnId)
    requires Inv(s) && WaitsForClaim(s, t, u)
    ensures !DisjointIds(s)
  {
    var x, y := s.live[t], s.live[u];
    assert TxnOk(s.store, y);
    var e := x.batch[x.pos];
    var i :| 0 <= i < |y.batch| && y.batch[i].id == e.id;
    var f := y.batch[i];
    assert e in x.batch && f in y.batch;
  }

  /** No deadlock: with pairwise disjoint event ids no circle of waits exists. */
  lemma {:induction false} NoDeadlock(s: System, c: seq<TxnId>)
    requires Inv(s) && DisjointIds(s)
    ensures !IsCycle(s, c)
  {
    forall t, u | WaitsForClaim(s, t, u) ensures false {
      ClaimWaitsShareAnId(s, t, u);
    }
    if IsCycle(s, c) {
      CyclesAreClaimCycles(s, c, 0);
    }
  }

  /** The same over whole runs: no reachable state with disjoint ids holds a circle of waits. */
  lemma {:induction false} NoDeadlockInRuns(steps: seq<Step>, c: seq<TxnId>)
    requires ValidRun(Idle, steps) && DisjointIds(Run(Idle, steps))
    ensures !IsCycle(Run(Idle, steps), c)
  {
    IdleInv();
    RunsAreSerializable(Idle, steps);
    NoDeadlock(Run(Idle, steps), c);
  }

  /** Two batches with the ids 1, 2 and 2, 1 deadlock. */
  lemma {:induction false} SharedIdsCanDeadlock(e: Event, f: Event)
    requires e.id == 1 && f.id == 2 && Castable([e, f])
    ensures var steps := [Begin(0, [e, f]), Begin(1, [f, e]), Claim(0), Claim(1)];
            ValidRun(Idle, steps) && IsCycle(Run(Idle, steps), [0, 1, 0])
  {
    var steps := [Begin(0, [e, f]), Begin(1, [f, e]), Claim(0), Claim(1)];
    assert !e.spelling.Uncastable? && !f.spelling.Uncastable? by {
      assert [e, f][0] == e && [e, f][1] == f;
    }
    assert steps[1..] == [Begin(1, [f, e]), Claim(0), Claim(1)];
    assert steps[1..][1..] == [Claim(0), Claim(1)];
    assert steps[1..][1..][1..] == [Claim(1)];
    var s1 := Apply(Idle, Begin(0, [e, f]));
    var s2 := Apply(s1, Begin(1, [f, e]));
    assert !ClaimedElsewhere(s2, 0, 1);
    var s3 := Apply(s2, Claim(0));
    assert !ClaimedElsewhere(s3, 1, 2);
    var s4 := Apply(s3, Claim(1));
    assert ValidRun(s4, []);
    assert ValidRun(s3, [Claim(1)]) && Run(s3, [Claim(1)]) == s4;
    assert ValidRun(s2, [Claim(0), Claim(1)]) && Run(s2, [Claim(0), Claim(1)]) == s4;
    assert Link(s4, [0, 1, 0], 0) && Link(s4, [0, 1, 0], 1);
  }
}
