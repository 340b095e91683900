/**
 Where the gateway's answers come from, and what the cache is good for: every ending of a request is a
 cache hit or the result of its own database query, a committed row reaches the readers through the
 cache, one request at a time refills it, and the others wait before they turn to the database.
 */
module GatewayAnswers {
  import opened Wrappers
  import opened TelemetryModel
  import opened ReadModelTransactions
  import opened VersionedCache

  // ---------------------------------------------------------------- where an ending comes from

  /** What a query of the database has to end with: the stored row, none if there is none, or its error. */
  predicate QueryResult(s: State, d: Uuid, works: bool, ending: Ending) {
    if !works then ending == Threw
    else if d in s.db.store.latest then
      ending.Got? && ending.row.Some? && IsRow(ending.row.value, d, s.db.store.latest[d])
    else ending == Got(None)
  }

  /** The call made at this point of the run decides the ending: a hit in Redis or the query. */
  predicate Origin(s: State, a: Action, r: RequestId, d: Uuid, ending: Ending) {
    a.Advance? && a.request == r && r in s.requests &&
    match s.requests[r]
    case GetData(_, v, _) => a.outcome.Works? && (d, v) in s.redis.data && ending == Got(Some(s.redis.data[(d, v)]))
    case Query(_, _) => QueryResult(s, d, a.outcome.Works?, ending)
    case _ => false
  }

  /** The ending that a request is bound for. */
  function Bound(q: Request): Option<Ending> {
    match q
    case StoreData(_, _, p) => Some(Got(Some(p)))
    case StorePointer(_, _, p) => Some(Got(Some(p)))
    case Release(_, _, ending) => Some(ending)
    case Answered(_, ending) => Some(ending)
    case _ => None
  }

  /** The request arrived then and is still being served. */
  ghost predicate Serving(run: seq<State>, actions: seq<Action>, r: RequestId, d: Uuid, a: nat, n: nat) {
    && IsRun(run, actions) && a < n < |run| && actions[a] == Arrive(r, d)
    && forall i :: a < i < n ==> actions[i] != Vanish(r)
  }

  lemma {:induction false} StaysTheSame(run: seq<State>, actions: seq<Action>, r: RequestId, d: Uuid, a: nat, n: nat)
    requires Serving(run, actions, r, d, a, n)
    ensures r in run[n].requests && run[n].requests[r].device == d
    ensures n > a + 1 && !(actions[n - 1].Advance? && actions[n - 1].request == r) ==>
              r in run[n - 1].requests && run[n].requests[r] == run[n - 1].requests[r]
  {
    assert Follows(run, n - 1, actions[n - 1]);
    if n > a + 1 {
      StaysTheSame(run, actions, r, d, a, n - 1);
    }
  }

  lemma {:induction false} CallBinds(s: State, r: RequestId, d: Uuid, o: Outcome)
    requires r in s.requests && s.requests[r].device == d
    ensures var q, q' := s.requests[r], Gateway(s, s.requests[r], o).0;
            && (Bound(q).Some? ==> Bound(q') == Bound(q))
            && (Bound(q).None? && Bound(q').Some? ==> Origin(s, Advance(r, o), r, d, Bound(q').value))
  {}

  /** Whatever a request ends with was decided by one of its own calls since it arrived: by a value found
      in Redis, or by the database query, which gives the stored row, none if there is none, or an error. */
  lemma {:induction false} EndingHasItsOrigin(run: seq<State>, actions: seq<Action>, r: RequestId, d: Uuid, a: nat, n: nat) returns (i: nat)
    requires Serving(run, actions, r, d, a, n) && r in run[n].requests && Bound(run[n].requests[r]).Some?
    ensures a < i < n && Origin(run[i], actions[i], r, d, Bound(run[n].requests[r]).value)
  {
    assert Follows(run, n - 1, actions[n - 1]);
    assert n > a + 1;
    StaysTheSame(run, actions, r, d, a, n - 1);
    StaysTheSame(run, actions, r, d, a, n);
    if actions[n - 1].Advance? && actions[n - 1].request == r {
      CallBinds(run[n - 1], r, d, actions[n - 1].outcome);
    }
    if Bound(run[n - 1].requests[r]).Some? {
      i := EndingHasItsOrigin(run, actions, r, d, a, n - 1);
    } else {
      i := n - 1;
    }
  }

  /** A request ends with none only if at one of its calls the device had no row; so a device that has a row
      when the request arrives is never answered with none. */
  lemma {:induction false} NoneMeansNoRow(run: seq<State>, actions: seq<Action>, r: RequestId, d: Uuid, a: nat, n: nat)
    requires Serving(run, actions, r, d, a, n) && r in run[n].requests && run[n].requests[r] == Answered(d, Got(None))
    ensures exists i :: a < i < n && d !in run[i].db.store.latest
    ensures d !in run[a].db.store.latest
  {
    var i := EndingHasItsOrigin(run, actions, r, d, a, n);
    RowsAdvance(run, actions, a, i, d);
  }

  /** An answer from the database is the row stored at the moment of the query, at least as new as the row at
      the arrival. */
  lemma {:induction false} DatabaseAnswerIsCurrent(run: seq<State>, actions: seq<Action>, r: RequestId, d: Uuid, a: nat, n: nat)
    returns (i: nat)
    requires Serving(run, actions, r, d, a, n) && r in run[n].requests && run[n].requests[r].Answered?
    requires run[n].requests[r].ending.Got? && run[n].requests[r].ending.row.Some?
    ensures a < i < n && r in run[i].requests && actions[i].Advance? && actions[i].request == r
    ensures !run[i].requests[r].GetData? ==>
              && d in run[i].db.store.latest && IsRow(run[n].requests[r].ending.row.value, d, run[i].db.store.latest[d])
              && (d in run[a].db.store.latest ==> run[n].requests[r].ending.row.value.version >= run[a].db.store.latest[d].version)
  {
    i := EndingHasItsOrigin(run, actions, r, d, a, n);
    RowsAdvance(run, actions, a, i, d);
  }

  // ---------------------------------------------------------------- a commit reaches the readers

  lemma {:induction false} WriterOf(s: System, t: TxnId, d: Uuid) returns (e: Event)
    requires Inv(s) && Enabled(s, Commit(t)) && d in s.live[t].writes
    ensures e in s.live[t].order && e.device == d && s.live[t].writes[d] == UpsertRow(Lookup(s.store.latest, d), e)
  {
    var x := s.live[t];
    assert TxnOk(s.store, x);
    var i :| 0 <= i < x.done && x.order[i].device == d;
    e := x.order[i];
  }

  /** For every row that a commit inserts or overwrites, the worker sends the row and the pointer to it. */
  lemma {:induction false} CommitSendsEveryChange(s: System, t: TxnId, d: Uuid) returns (p: Payload)
    requires Inv(s) && Enabled(s, Commit(t))
    requires Lookup(Apply(s, Commit(t)).store.latest, d) != Lookup(s.store.latest, d)
    ensures d in Apply(s, Commit(t)).store.latest && IsRow(p, d, Apply(s, Commit(t)).store.latest[d])
    ensures SetData(p) in CommitCommands(s, t) && SetPointer(d, p.version) in CommitCommands(s, t)
  {
    var e := WriterOf(s, t, d);
    p := Payload(d, e.temperature, e.humidity, e.recordedAt, s.live[t].writes[d].version);
    assert Returned(s.store, e);
    assert DataCommand(e, s.live[t].writes[e.device].version) == SetData(p);
  }

  /** The row is sent: once its two commands have been executed, a new request finds it in Redis with two
      calls. */
  predicate Served(s: State, p: Payload, r: RequestId, t1: nat, t2: nat) {
    CanDo(s, ExecuteCommand(SetData(p))) &&
    var s1 := Do(s, ExecuteCommand(SetData(p)));
    CanDo(s1, ExecuteCommand(SetPointer(p.device, p.version))) &&
    var s2 := Do(s1, ExecuteCommand(SetPointer(p.device, p.version)));
    CanDo(s2, Arrive(r, p.device)) &&
    var s3 := Do(s2, Arrive(r, p.device));
    CanDo(s3, Advance(r, Works(t1))) &&
    var s4 := Do(s3, Advance(r, Works(t1)));
    CanDo(s4, Advance(r, Works(t2))) &&
    Do(s4, Advance(r, Works(t2))).requests[r] == Answered(p.device, Got(Some(p)))
  }

  lemma {:induction false} SentRowIsServed(s: State, p: Payload, r: RequestId, t1: nat, t2: nat)
    requires SetData(p) in s.pipeline && SetPointer(p.device, p.version) in s.pipeline && r !in s.requests
    ensures Served(s, p, r, t1, t2)
  {}

  /** Every row that a commit inserts or overwrites reaches the readers through the cache. */
  lemma {:induction false} CommittedRowIsServed(run: seq<State>, actions: seq<Action>, n: nat, t: TxnId, d: Uuid, r: RequestId, t1: nat, t2: nat)
    returns (p: Payload)
    requires IsRun(run, actions) && n < |actions| && actions[n] == Database(Commit(t)) && r !in run[n].requests
    requires Lookup(run[n + 1].db.store.latest, d) != Lookup(run[n].db.store.latest, d)
    ensures d in run[n + 1].db.store.latest && IsRow(p, d, run[n + 1].db.store.latest[d])
    ensures Served(run[n + 1], p, r, t1, t2)
  {
    assert Follows(run, n, actions[n]);
    DatabaseInv(run, actions, n);
    p := CommitSendsEveryChange(run[n].db, t, d);
    SentRowIsServed(run[n + 1], p, r, t1, t2);
  }

  /** The owner of the lock writes the row it read and the pointer to it. */
  lemma {:induction false} OwnerWritesBoth(s: State, s': State, s'': State, d: Uuid, mine: nat, o: Outcome, o': Outcome, o'': Outcome)
    requires o.Works? && o'.Works? && o''.Works? && d in s.db.store.latest
    ensures var q := Gateway(s, Query(d, Some(mine)), o).0;
            var q' := Gateway(s', q, o');
            var q'' := Gateway(s'', q'.0, o'');
            var v := s.db.store.latest[d].version;
            && (d, v) in q'.1.data && IsRow(q'.1.data[(d, v)], d, s.db.store.latest[d])
            && d in q''.1.pointer && q''.1.pointer[d] == v
            && q''.0.Release? && q''.0.mine == mine
  {}

  // ---------------------------------------------------------------- one owner

  /** The request holds the refill lock of the device, as far as it knows. */
  predicate Owns(q: Request, d: Uuid) {
    q.device == d && ((q.Query? && q.token.Some?) || q.StoreData? || q.StorePointer? || q.Release?)
  }

  function TokenOf(q: Request): nat
    requires Owns(q, q.device)
  {
    if q.Query? then q.token.value else q.mine
  }

  predicate OneOwner(s: State, d: Uuid) {
    && (forall r :: r in s.requests && Owns(s.requests[r], d) ==> Lookup(s.redis.lock, d) == Some(TokenOf(s.requests[r])))
    && (forall r, r' :: r in s.requests && r' in s.requests && Owns(s.requests[r], d) && Owns(s.requests[r'], d) ==> r == r')
  }

  lemma {:induction false} ActionKeepsOneOwner(s: State, a: Action, d: Uuid)
    requires OneOwner(s, d) && CanDo(s, a) && a != ExpireLock(d)
    ensures OneOwner(Do(s, a), d)
  {
    if a.Advance? {
      CallKeepsOneOwner(s, a.request, a.outcome, d);
    }
  }

  /** One call either leaves the lock and the ownership of its request alone, or takes a free lock, or gives
      up the lock. */
  lemma {:induction false} CallAndLock(s: State, q: Request, o: Outcome, d: Uuid)
    ensures var (q', redis) := Gateway(s, q, o);
            && (Owns(q', d) && Owns(q, d) ==> TokenOf(q') == TokenOf(q) && Lookup(redis.lock, d) == Lookup(s.redis.lock, d))
            && (Owns(q', d) && !Owns(q, d) ==> d !in s.redis.lock && Lookup(redis.lock, d) == Some(TokenOf(q')))
            && (!Owns(q', d) && !Owns(q, d) && d in s.redis.lock ==> Lookup(redis.lock, d) == Lookup(s.redis.lock, d))
  {}

  lemma {:induction false} CallKeepsOneOwner(s: State, r: RequestId, o: Outcome, d: Uuid)
    requires OneOwner(s, d) && r in s.requests
    ensures OneOwner(Do(s, Advance(r, o)), d)
  {
    CallAndLock(s, s.requests[r], o, d);
    if d !in s.redis.lock {
      assert forall r' :: r' in s.requests ==> !Owns(s.requests[r'], d);
    }
  }

  /** As long as the lock of a device does not expire, at most one request refills its keys at a time. */
  lemma {:induction false} OneOwnerAtATime(run: seq<State>, actions: seq<Action>, n: nat, d: Uuid)
    requires IsRun(run, actions) && n < |run| && forall i :: 0 <= i < n ==> actions[i] != ExpireLock(d)
    ensures OneOwner(run[n], d)
  {
    if n > 0 {
      OneOwnerAtATime(run, actions, n - 1, d);
      assert Follows(run, n - 1, actions[n - 1]);
      ActionKeepsOneOwner(run[n - 1], actions[n - 1], d);
    }
  }

  /** Expired or not: nobody but its owner takes a lock away. A request releases the lock only while it
      carries its own value. */
  lemma {:induction false} OthersKeepTheLock(s: State, a: Action, d: Uuid)
    requires CanDo(s, a) && a != ExpireLock(d) && d in s.redis.lock
    requires a.Advance? ==> !(Owns(s.requests[a.request], d) && TokenOf(s.requests[a.request]) == s.redis.lock[d])
    ensures d in Do(s, a).redis.lock && Do(s, a).redis.lock[d] == s.redis.lock[d]
  {}

  // ---------------------------------------------------------------- the others wait

  /** The calls of a request within a stretch of the run. */
  function CallsOf(actions: seq<Action>, r: RequestId, a: nat, n: nat): nat
    requires a <= n <= |actions|
  {
    if n == a then 0
    else CallsOf(actions, r, a, n - 1) + (if actions[n - 1].Advance? && actions[n - 1].request == r then 1 else 0)
  }

  predicate TurnsTaken(q: Request, calls: nat) {
    match q
    case Waiting(_, loops) => calls >= loops
    case GetData(_, _, turn) => turn.Some? ==> calls >= turn.value + 1
    case Query(_, token) => token.None? ==> calls >= 10
    case _ => true
  }

  lemma {:induction false} CallTakesTurn(s: State, q: Request, o: Outcome, calls: nat)
    requires o.Works? && TurnsTaken(q, calls)
    ensures TurnsTaken(Gateway(s, q, o).0, calls + 1)
  {}

  /** A request whose calls work queries the database as the owner of the lock, or after it has looked at
      Redis at least ten times. */
  lemma {:induction false} QueriesAfterWaiting(run: seq<State>, actions: seq<Action>, r: RequestId, d: Uuid, a: nat, n: nat)
    requires Serving(run, actions, r, d, a, n)
    requires forall i :: a < i < n && actions[i].Advance? && actions[i].request == r ==> actions[i].outcome.Works?
    ensures r in run[n].requests && TurnsTaken(run[n].requests[r], CallsOf(actions, r, a, n))
    ensures run[n].requests[r] == Query(d, None) ==> CallsOf(actions, r, a, n) >= 10
  {
    assert Follows(run, n - 1, actions[n - 1]);
    StaysTheSame(run, actions, r, d, a, n);
    if n > a + 1 {
      QueriesAfterWaiting(run, actions, r, d, a, n - 1);
      if actions[n - 1].Advance? && actions[n - 1].request == r {
        CallTakesTurn(run[n - 1], run[n - 1].requests[r], actions[n - 1].outcome, CallsOf(actions, r, a, n - 1));
      }
    }
  }
}
