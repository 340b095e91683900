/**
 The versioned cache. Every committed row of a device has a version; a worker writes the row under
 the key of device and version and then moves the device's pointer, after its transaction committed
 and without any coordination. The gateway reads pointer and value in two calls, and on a miss one
 lock owner refills both keys from the database while the others wait. Each call of each worker and
 each request is one step; keys expire, calls fail, pipelines are delayed, torn or lost.
 */
module VersionedCache {
  import opened Wrappers
  import opened TelemetryModel
  import opened BatchProjection
  import opened ReadModelTransactions

  datatype Payload = Payload(device: Uuid, temperature: real, humidity: real, recordedAt: int, version: nat)

  /** `data` holds device:D:vN, `pointer` device:D:latest_version, `lock` lock:device:D. */
  datatype Redis = Redis(data: map<(Uuid, nat), Payload>, pointer: map<Uuid, nat>, lock: map<Uuid, nat>)

  datatype Command = SetData(payload: Payload) | SetPointer(device: Uuid, version: nat)

  /** Where a gateway request stands. `turn` is None before the lock and counts the wait loop after it;
      a token marks the lock owner. */
  datatype Request =
    | Start(device: Uuid)
    | GetData(device: Uuid, version: nat, turn: Option<nat>)
    | Missed(device: Uuid)
    | Waiting(device: Uuid, loops: nat)
    | Query(device: Uuid, token: Option<nat>)
    | StoreData(device: Uuid, mine: nat, payload: Payload)
    | StorePointer(device: Uuid, mine: nat, payload: Payload)
    | Release(device: Uuid, mine: nat, ending: Ending)
    | Answered(device: Uuid, ending: Ending)

  /** A request ends with a row, with none, or with the error of the database query. */
  datatype Ending = Got(row: Option<Payload>) | Threw

  const MAX_WAIT_LOOPS := 10

  type RequestId = nat

  datatype State = State(db: System, redis: Redis, pipeline: set<Command>, requests: map<RequestId, Request>)

  const Boot := State(Idle, Redis(map[], map[], map[]), {}, map[])

  /** How a call of the gateway ends: it works, it fails (or the breaker is open), or it fails after it
      took effect. The token is the value a lock request writes. */
  datatype Outcome = Works(token: nat) | Fails | FailsAfterEffect(token: nat)

  datatype Action =
    | Database(step: Step)
    | ExecuteCommand(command: Command)
    | DropCommand(command: Command)
    | ExpireData(key: (Uuid, nat))
    | ExpirePointer(device: Uuid)
    | ExpireLock(device: Uuid)
    | Arrive(request: RequestId, device: Uuid)
    | Advance(request: RequestId, outcome: Outcome)
    | Vanish(request: RequestId)

  function PayloadOf(d: Uuid, row: Row): Payload {
    Payload(d, row.reading.temperature, row.reading.humidity, row.reading.recordedAt, row.version)
  }

  /** The payload is the row of the device, column by column. */
  predicate IsRow(p: Payload, d: Uuid, row: Row) {
    && p.device == d && p.version == row.version && p.recordedAt == row.reading.recordedAt
    && p.temperature == row.reading.temperature && p.humidity == row.reading.humidity
  }

  function Run1(redis: Redis, c: Command): Redis {
    match c
    case SetData(p) => redis.(data := redis.data[(p.device, p.version) := p])
    case SetPointer(d, v) => redis.(pointer := redis.pointer[d := v])
  }

  /** The upsert returned a version for this event: it inserted or overwrote the row. */
  predicate Returned(store: Store, e: Event) {
    e.device in store.latest ==> e.recordedAt >= store.latest[e.device].reading.recordedAt
  }

  /** The worker pairs the event kept for a device with the version the upsert returned for it. */
  function CacheCommands(store: Store, order: seq<Event>, writes: map<Uuid, Row>): set<Command> {
    var sent := set e | e in order && e.device in writes && Returned(store, e);
    (set e | e in sent :: DataCommand(e, writes[e.device].version)) +
    (set e | e in sent :: SetPointer(e.device, writes[e.device].version))
  }

  function DataCommand(e: Event, version: nat): Command {
    SetData(Payload(e.device, e.temperature, e.humidity, e.recordedAt, version))
  }

  /** One call of one gateway request. */
  function Gateway(s: State, q: Request, o: Outcome): (Request, Redis) {
    match q
    case Start(d) =>
      if o.Works? && d in s.redis.pointer then (GetData(d, s.redis.pointer[d], None), s.redis)
      else (Missed(d), s.redis)
    case GetData(d, v, turn) =>
      if o.Works? && (d, v) in s.redis.data then (Answered(d, Got(Some(s.redis.data[(d, v)]))), s.redis)
      else if turn.None? then (Missed(d), s.redis)
      else if o.Works? then (Waiting(d, turn.value + 1), s.redis)
      else (Query(d, None), s.redis)
    case Missed(d) =>
      if o.Fails? then (Query(d, None), s.redis)
      else
        var taken := if d in s.redis.lock then s.redis else s.redis.(lock := s.redis.lock[d := o.token]);
        if o.FailsAfterEffect? then (Query(d, None), taken)
        else if d in s.redis.lock then (Waiting(d, 0), taken)
        else (Query(d, Some(o.token)), taken)
    case Waiting(d, loops) =>
      if loops >= MAX_WAIT_LOOPS || !o.Works? then (Query(d, None), s.redis)
      else if d in s.redis.pointer then (GetData(d, s.redis.pointer[d], Some(loops)), s.redis)
      else (Waiting(d, loops + 1), s.redis)
    case Query(d, token) =>
      var row := Lookup(s.db.store.latest, d);
      var ending := if !o.Works? then Threw else if row.Some? then Got(Some(PayloadOf(d, row.value))) else Got(None);
      if token.None? then (Answered(d, ending), s.redis)
      else if row.None? || !o.Works? then (Release(d, token.value, ending), s.redis)
      else (StoreData(d, token.value, ending.row.value), s.redis)
    case StoreData(d, mine, p) =>
      var written := Run1(s.redis, SetData(p));
      if o.Works? then (StorePointer(d, mine, p), written)
      else (Release(d, mine, Got(Some(p))), if o.Fails? then s.redis else written)
    case StorePointer(d, mine, p) =>
      (Release(d, mine, Got(Some(p))), if o.Fails? then s.redis else Run1(s.redis, SetPointer(d, p.version)))
    case Release(d, mine, ending) =>
      (Answered(d, ending),
       if !o.Fails? && d in s.redis.lock && s.redis.lock[d] == mine
       then s.redis.(lock := s.redis.lock - {d}) else s.redis)
    case Answered(_, _) => (q, s.redis)
  }

  predicate CanDo(s: State, a: Action) {
    match a
    case Database(step) => Enabled(s.db, step)
    case ExecuteCommand(c) => c in s.pipeline
    case DropCommand(c) => c in s.pipeline
    case Arrive(r, _) => r !in s.requests
    case Advance(r, _) => r in s.requests
    case Vanish(r) => r in s.requests
    case _ => true
  }

  function CommitCommands(s: System, t: TxnId): set<Command>
    requires Enabled(s, Commit(t))
  {
    CacheCommands(s.store, s.live[t].order, s.live[t].writes)
  }

  function Do(s: State, a: Action): State
    requires CanDo(s, a)
  {
    match a
    case Database(step) =>
      s.(db := Apply(s.db, step),
         pipeline := s.pipeline + if step.Commit? then CommitCommands(s.db, step.t) else {})
    case ExecuteCommand(c) => s.(redis := Run1(s.redis, c), pipeline := s.pipeline - {c})
    case DropCommand(c) => s.(pipeline := s.pipeline - {c})
    case ExpireData(k) => s.(redis := s.redis.(data := s.redis.data - {k}))
    case ExpirePointer(d) => s.(redis := s.redis.(pointer := s.redis.pointer - {d}))
    case ExpireLock(d) => s.(redis := s.redis.(lock := s.redis.lock - {d}))
    case Arrive(r, d) => s.(requests := s.requests[r := Start(d)])
    case Advance(r, o) =>
      var (q, redis) := Gateway(s, s.requests[r], o);
      s.(redis := redis, requests := s.requests[r := q])
    case Vanish(r) => s.(requests := s.requests - {r})
  }

  predicate Follows(run: seq<State>, i: nat, a: Action)
    requires i + 1 < |run|
  {
    CanDo(run[i], a) && run[i + 1] == Do(run[i], a)
  }

  /** A run: the states between the actions, in the order they happened. */
  ghost predicate IsRun(run: seq<State>, actions: seq<Action>) {
    |run| == |actions| + 1 && run[0] == Boot &&
    forall i :: 0 <= i < |actions| ==> Follows(run, i, actions[i])
  }

  // ---------------------------------------------------------------- one row per version

  lemma {:induction false} DatabaseInv(run: seq<State>, actions: seq<Action>, n: nat)
    requires IsRun(run, actions) && n < |run|
    ensures Inv(run[n].db)
  {
    if n == 0 {
      IdleInv();
    } else {
      DatabaseInv(run, actions, n - 1);
      assert Follows(run, n - 1, actions[n - 1]);
      if actions[n - 1].Database? {
        StepKeepsInv(run[n - 1].db, actions[n - 1].step);
      }
    }
  }

  /** A stored row of a device either stays or gives way to a row of a greater version. */
  predicate RowAdvances(before: Store, after: Store, d: Uuid) {
    d in before.latest ==>
      d in after.latest && (after.latest[d] == before.latest[d] || after.latest[d].version > before.latest[d].version)
  }

  lemma {:induction false} StepAdvancesRow(s: System, step: Step, d: Uuid)
    requires Inv(s) && Enabled(s, step)
    ensures RowAdvances(s.store, Apply(s, step).store, d)
  {
    if step.Commit? && d in s.store.latest {
      CommitIsAtomic(s, step.t);
      BulkVersions(s.store.latest, Fresh(s.store.claimed, s.live[step.t].batch), d);
    }
  }

  lemma {:induction false} RowsAdvance(run: seq<State>, actions: seq<Action>, i: nat, k: nat, d: Uuid)
    requires IsRun(run, actions) && i <= k < |run|
    ensures RowAdvances(run[i].db.store, run[k].db.store, d)
  {
    if i < k {
      RowsAdvance(run, actions, i, k - 1, d);
      DatabaseInv(run, actions, k - 1);
      assert Follows(run, k - 1, actions[k - 1]);
      if actions[k - 1].Database? {
        StepAdvancesRow(run[k - 1].db, actions[k - 1].step, d);
      }
    }
  }

  predicate HasRow(s: State, d: Uuid, row: Row) {
    d in s.db.store.latest && s.db.store.latest[d] == row
  }

  /** A version names one committed row of its device in the whole run. */
  lemma {:induction false} VersionNamesOneRow(run: seq<State>, actions: seq<Action>, i: nat, k: nat, d: Uuid, row: Row, row': Row)
    requires IsRun(run, actions) && i < |run| && k < |run|
    requires HasRow(run[i], d, row) && HasRow(run[k], d, row') && row.version == row'.version
    ensures row == row'
  {
    if i <= k {
      RowsAdvance(run, actions, i, k, d);
    } else {
      RowsAdvance(run, actions, k, i, d);
    }
  }

  // ---------------------------------------------------------------- coherence

  /** Some state up to `n` had committed exactly this row. */
  ghost predicate WasCommitted(run: seq<State>, n: nat, p: Payload) {
    exists i :: 0 <= i <= n && i < |run| && Shows(run[i], p)
  }

  predicate Shows(s: State, p: Payload) {
    p.device in s.db.store.latest && PayloadOf(p.device, s.db.store.latest[p.device]) == p
  }

  ghost predicate VersionWasCommitted(run: seq<State>, n: nat, d: Uuid, v: nat) {
    exists p: Payload :: p.device == d && p.version == v && WasCommitted(run, n, p)
  }

  ghost predicate CommandOk(run: seq<State>, n: nat, c: Command) {
    match c
    case SetData(p) => WasCommitted(run, n, p)
    case SetPointer(d, v) => VersionWasCommitted(run, n, d, v)
  }

  ghost predicate CarriesCommitted(run: seq<State>, n: nat, d: Uuid, answer: Option<Payload>) {
    answer.Some? ==> answer.value.device == d && WasCommitted(run, n, answer.value)
  }

  ghost predicate RequestOk(run: seq<State>, n: nat, q: Request) {
    match q
    case StoreData(d, _, p) => CarriesCommitted(run, n, d, Some(p))
    case StorePointer(d, _, p) => CarriesCommitted(run, n, d, Some(p))
    case Release(d, _, ending) => ending.Got? ==> CarriesCommitted(run, n, d, ending.row)
    case Answered(d, ending) => ending.Got? ==> CarriesCommitted(run, n, d, ending.row)
    case _ => true
  }

  ghost predicate RedisOk(run: seq<State>, n: nat, redis: Redis) {
    && (forall k :: k in redis.data ==>
          redis.data[k].device == k.0 && redis.data[k].version == k.1 && WasCommitted(run, n, redis.data[k]))
    && (forall d :: d in redis.pointer ==> VersionWasCommitted(run, n, d, redis.pointer[d]))
  }

  /** Everything cached, in a pipeline or held by a request was once committed. */
  ghost predicate Coherent(run: seq<State>, n: nat, s: State) {
    && RedisOk(run, n, s.redis)
    && (forall c :: c in s.pipeline ==> CommandOk(run, n, c))
    && (forall r :: r in s.requests ==> RequestOk(run, n, s.requests[r]))
  }

  lemma {:induction false} Later(run: seq<State>, n: nat)
    ensures forall p :: WasCommitted(run, n, p) ==> WasCommitted(run, n + 1, p)
  {}

  lemma {:induction false} CoherentLater(run: seq<State>, n: nat, s: State)
    requires Coherent(run, n, s)
    ensures Coherent(run, n + 1, s)
  {
    Later(run, n);
    forall d, v | VersionWasCommitted(run, n, d, v) ensures VersionWasCommitted(run, n + 1, d, v) {
      var p: Payload :| p.device == d && p.version == v && WasCommitted(run, n, p);
      assert WasCommitted(run, n + 1, p);
    }
  }

  lemma {:induction false} CommandKeepsRedis(run: seq<State>, n: nat, redis: Redis, c: Command)
    requires RedisOk(run, n, redis) && CommandOk(run, n, c)
    ensures RedisOk(run, n, Run1(redis, c))
  {}

  lemma {:induction false} WrittenRow(store: Store, x: Txn, e: Event)
    requires x.Upserting? && WritesCurrent(store, x.order, x.done, x.writes) && x.done == |x.order| && e in x.order
    ensures e.device in x.writes && x.writes[e.device] == UpsertRow(Lookup(store.latest, e.device), e)
  {
    var i :| 0 <= i < |x.order| && x.order[i] == e;
  }

  /** The row a committing transaction leaves for a returned event is that event's reading. */
  lemma {:induction false} CommittedRowOf(s: System, t: TxnId, e: Event)
    requires Inv(s) && Enabled(s, Commit(t)) && e in s.live[t].order && Returned(s.store, e)
    ensures e.device in s.live[t].writes && Apply(s, Commit(t)).store.latest[e.device] == s.live[t].writes[e.device]
    ensures s.live[t].writes[e.device].reading == ReadingOf(e)
  {
    assert TxnOk(s.store, s.live[t]);
    WrittenRow(s.store, s.live[t], e);
  }

  /** What a commit hands to the pipeline describes the rows it has just committed. */
  lemma {:induction false} CommitCommandsOk(run: seq<State>, n: nat, s: System, t: TxnId, c: Command)
    requires Inv(s) && Enabled(s, Commit(t))
    requires n < |run| && run[n].db == Apply(s, Commit(t))
    requires c in CommitCommands(s, t)
    ensures CommandOk(run, n, c)
  {
    var x := s.live[t];
    var e :| e in x.order && e.device in x.writes && Returned(s.store, e) &&
             (c == DataCommand(e, x.writes[e.device].version)
              || c == SetPointer(e.device, x.writes[e.device].version));
    CommittedRowOf(s, t, e);
    var p := DataCommand(e, x.writes[e.device].version).payload;
    assert Shows(run[n], p);
    assert WasCommitted(run, n, p);
  }

  lemma {:induction false} GatewayKeepsCoherence(run: seq<State>, n: nat, s: State, q: Request, o: Outcome)
    requires n < |run| && run[n] == s && RedisOk(run, n, s.redis) && RequestOk(run, n, q)
    ensures RequestOk(run, n, Gateway(s, q, o).0) && RedisOk(run, n, Gateway(s, q, o).1)
  {
    match q
    case Query(d, token) =>
      if d in s.db.store.latest {
        assert Shows(run[n], PayloadOf(d, s.db.store.latest[d]));
        assert WasCommitted(run, n, PayloadOf(d, s.db.store.latest[d]));
      }
    case StoreData(d, mine, p) =>
      CommandKeepsRedis(run, n, s.redis, SetData(p));
    case StorePointer(d, mine, p) =>
      CommandKeepsRedis(run, n, s.redis, SetPointer(d, p.version));
    case _ =>
  }

  lemma {:induction false} ActionKeepsCoherence(run: seq<State>, n: nat, a: Action)
    requires n + 1 < |run| && Inv(run[n].db) && Follows(run, n, a) && Coherent(run, n, run[n])
    ensures Coherent(run, n + 1, run[n + 1])
  {
    var s := run[n];
    match a
    case Database(step) =>
      CoherentLater(run, n, s);
      if step.Commit? {
        forall c | c in CommitCommands(s.db, step.t) ensures CommandOk(run, n + 1, c) {
          CommitCommandsOk(run, n + 1, s.db, step.t, c);
        }
      }
    case ExecuteCommand(c) =>
      CommandKeepsRedis(run, n, s.redis, c);
      CoherentLater(run, n, run[n + 1]);
    case Advance(r, o) =>
      GatewayKeepsCoherence(run, n, s, s.requests[r], o);
      CoherentLater(run, n, run[n + 1]);
    case _ =>
      CoherentLater(run, n, run[n + 1]);
  }

  /** Coherence of every state of every run. */
  lemma {:induction false} CacheIsCoherent(run: seq<State>, actions: seq<Action>, n: nat)
    requires IsRun(run, actions) && n < |run|
    ensures Coherent(run, n, run[n])
  {
    if n > 0 {
      CacheIsCoherent(run, actions, n - 1);
      DatabaseInv(run, actions, n - 1);
      assert Follows(run, n - 1, actions[n - 1]);
      ActionKeepsCoherence(run, n - 1, actions[n - 1]);
    }
  }

  /** Whatever the cache holds for device D at version N carries the reading of the one row that was
      ever committed for D at version N. */
  lemma {:induction false} CachedValueIsTheCommittedRow(run: seq<State>, actions: seq<Action>, n: nat, d: Uuid, v: nat, i: nat, row: Row)
    requires IsRun(run, actions) && n < |run| && (d, v) in run[n].redis.data
    requires i < |run| && HasRow(run[i], d, row) && row.version == v
    ensures IsRow(run[n].redis.data[(d, v)], d, row)
  {
    CacheIsCoherent(run, actions, n);
    var p := run[n].redis.data[(d, v)];
    var k :| 0 <= k <= n && Shows(run[k], p);
    VersionNamesOneRow(run, actions, k, i, d, run[k].db.store.latest[d], row);
  }

  /** A cached value always names a version that really was committed. */
  lemma {:induction false} CachedVersionExists(run: seq<State>, actions: seq<Action>, n: nat, d: Uuid, v: nat) returns (i: nat, row: Row)
    requires IsRun(run, actions) && n < |run| && (d, v) in run[n].redis.data
    ensures i <= n && HasRow(run[i], d, row) && row.version == v
  {
    CacheIsCoherent(run, actions, n);
    i :| 0 <= i <= n && Shows(run[i], run[n].redis.data[(d, v)]);
    row := run[i].db.store.latest[d];
  }

  /** Every answer of the gateway, hit, refill or fallback, is a whole committed row of the device. */
  lemma {:induction false} AnswersAreCommittedRows(run: seq<State>, actions: seq<Action>, n: nat, r: RequestId) returns (i: nat, row: Row)
    requires IsRun(run, actions) && n < |run| && r in run[n].requests
    requires run[n].requests[r].Answered? && run[n].requests[r].ending.Got? && run[n].requests[r].ending.row.Some?
    ensures i <= n && HasRow(run[i], run[n].requests[r].device, row)
    ensures IsRow(run[n].requests[r].ending.row.value, run[n].requests[r].device, row)
  {
    CacheIsCoherent(run, actions, n);
    var q := run[n].requests[r];
    assert RequestOk(run, n, q);
    i :| 0 <= i <= n && Shows(run[i], q.ending.row.value);
    row := run[i].db.store.latest[q.device];
  }
}
