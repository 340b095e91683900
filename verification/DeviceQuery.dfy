/**
 The gateway's query for the latest telemetry of a device, written as it runs: pointer and value, the
 stampede lock, the wait loop, the refill and the release. Between any two calls everybody else may have
 changed Redis and the database, so every call meets a state of its own.
 */
module DeviceQuery {
  import opened Wrappers
  import opened TelemetryModel
  import opened VersionedCache
  import GatewayAnswers

  /** The state a call meets and how the call ends. */
  datatype Met = Met(state: State, outcome: Outcome)

  /** Where the request stands after its first n calls. */
  function StandsAt(d: Uuid, calls: seq<Met>, n: nat): Request
    requires n <= |calls|
  {
    if n == 0 then Start(d) else Gateway(calls[n - 1].state, StandsAt(d, calls, n - 1), calls[n - 1].outcome).0
  }

  /** What each of the first n calls leaves in Redis. */
  function Leaves(d: Uuid, calls: seq<Met>, n: nat): seq<Redis>
    requires n <= |calls|
  {
    if n == 0 then []
    else Leaves(d, calls, n - 1) + [Gateway(calls[n - 1].state, StandsAt(d, calls, n - 1), calls[n - 1].outcome).1]
  }

  /** Two reads, the lock, ten turns of two reads and the end of the loop, the query. */
  const MAX_CALLS := 27

  class Query {
    const device: Uuid
    const calls: seq<Met>
    var used: nat
    var left: seq<Redis>

    constructor (device: Uuid, calls: seq<Met>)
      ensures this.device == device && this.calls == calls && used == 0 && StandsHere(Start(device))
    {
      this.device, this.calls := device, calls;
      used, left := 0, [];
    }

    /** The request has made exactly the calls of the protocol and stands at q. */
    ghost predicate StandsHere(q: Request)
      reads this
    {
      used <= |calls| && StandsAt(device, calls, used) == q && left == Leaves(device, calls, used)
    }

    /** The call found this value in Redis, or its query ended like this. */
    ghost predicate Decides(k: nat, ending: Ending) {
      k < |calls| &&
      (|| (calls[k].outcome.Works? && exists v :: Lookup(calls[k].state.redis.data, (device, v)).Some?
                                                  && ending == Got(Lookup(calls[k].state.redis.data, (device, v))))
       || GatewayAnswers.QueryResult(calls[k].state, device, calls[k].outcome.Works?, ending))
    }

    /** A call that leaves Redis like this. */
    method Leave(redis: Redis, ghost q: Request)
      requires used < |calls| && StandsHere(q) && redis == Gateway(calls[used].state, q, calls[used].outcome).1
      modifies this
      ensures used == old(used) + 1 && StandsHere(Gateway(calls[old(used)].state, q, calls[old(used)].outcome).0)
    {
      left := left + [redis];
      used := used + 1;
    }

    method ReadPointer(ghost q: Request) returns (version: Option<nat>, failed: bool)
      requires used < |calls| && StandsHere(q)
      requires q == Start(device) || (q.Waiting? && q.device == device && q.loops < MAX_WAIT_LOOPS)
      modifies this
      ensures used == old(used) + 1 && (failed ==> version.None?)
      ensures q.Start? ==> StandsHere(if version.Some? then GetData(device, version.value, None) else Missed(device))
      ensures q.Waiting? ==> StandsHere(if failed then VersionedCache.Query(device, None)
                                        else if version.Some? then GetData(device, version.value, Some(q.loops))
                                        else Waiting(device, q.loops + 1))
    {
      var redis := calls[used].state.redis;
      failed := !calls[used].outcome.Works?;
      version := if failed then None else Lookup(redis.pointer, device);
      Leave(redis, q);
    }

    method ReadData(version: nat, ghost turn: Option<nat>) returns (cached: Option<Payload>, failed: bool)
      requires used < |calls| && StandsHere(GetData(device, version, turn))
      modifies this
      ensures used == old(used) + 1 && (failed ==> cached.None?)
      ensures cached.Some? ==> Decides(old(used), Got(cached))
      ensures StandsHere(if cached.Some? then Answered(device, Got(cached))
                         else if turn.None? then Missed(device)
                         else if failed then VersionedCache.Query(device, None)
                         else Waiting(device, turn.value + 1))
    {
      var redis := calls[used].state.redis;
      failed := !calls[used].outcome.Works?;
      cached := if failed then None else Lookup(redis.data, (device, version));
      Leave(redis, GetData(device, version, turn));
    }

    /** The waiting loop of a request that did not get the lock. */
    method WaitForOwner() returns (cached: Option<Payload>)
      requires used <= 3 && |calls| >= MAX_CALLS && StandsHere(Waiting(device, 0))
      modifies this
      ensures used <= 24
      ensures cached.Some? ==> exists k :: old(used) <= k < used && Decides(k, Got(cached))
      ensures StandsHere(if cached.Some? then Answered(device, Got(cached)) else VersionedCache.Query(device, None))
    {
      var i := 0;
      while i < MAX_WAIT_LOOPS
        invariant 0 <= i <= MAX_WAIT_LOOPS && used <= 3 + 2 * i && StandsHere(Waiting(device, i))
      {
        var version, failed := ReadPointer(Waiting(device, i));
        if failed {
          return None;
        }
        if version.Some? {
          cached, failed := ReadData(version.value, Some(i));
          if cached.Some? || failed {
            return;
          }
        }
        i := i + 1;
      }
      Leave(calls[used].state.redis, Waiting(device, i));
      cached := None;
    }

    /** The database query; it may throw. */
    method QueryDb(token: Option<nat>) returns (ending: Ending)
      requires used < |calls| && StandsHere(VersionedCache.Query(device, token))
      modifies this
      ensures used == old(used) + 1
      ensures GatewayAnswers.QueryResult(calls[old(used)].state, device, calls[old(used)].outcome.Works?, ending)
      ensures Decides(old(used), ending)
      ensures StandsHere(if token.None? then Answered(device, ending)
                         else if ending.Threw? || ending.row.None? then Release(device, token.value, ending)
                         else StoreData(device, token.value, ending.row.value))
    {
      if calls[used].outcome.Works? {
        var stored := Lookup(calls[used].state.db.store.latest, device);
        ending := Got(if stored.Some? then Some(PayloadOf(device, stored.value)) else None);
      } else {
        ending := Threw;
      }
      Leave(calls[used].state.redis, VersionedCache.Query(device, token));
    }

    /** The owner writes the value first and the pointer after it. */
    method Refill(mine: nat, row: Payload)
      requires used + 1 < |calls| && StandsHere(StoreData(device, mine, row))
      modifies this
      ensures used <= old(used) + 2 && StandsHere(Release(device, mine, Got(Some(row))))
    {
      var redis, o := calls[used].state.redis, calls[used].outcome;
      var written := redis.(data := redis.data[(row.device, row.version) := row]);
      Leave(if o.Fails? then redis else written, StoreData(device, mine, row));
      if !o.Works? {
        return;
      }
      redis, o := calls[used].state.redis, calls[used].outcome;
      written := redis.(pointer := redis.pointer[device := row.version]);
      Leave(if o.Fails? then redis else written, StorePointer(device, mine, row));
    }

    /** Deletes the lock only while it still carries this request's value. */
    method Unlock(mine: nat, ghost ending: Ending)
      requires used < |calls| && StandsHere(Release(device, mine, ending))
      modifies this
      ensures used == old(used) + 1 && StandsHere(Answered(device, ending))
    {
      var redis, o := calls[used].state.redis, calls[used].outcome;
      if !o.Fails? && device in redis.lock && redis.lock[device] == mine {
        Leave(redis.(lock := redis.lock - {device}), Release(device, mine, ending));
      } else {
        Leave(redis, Release(device, mine, ending));
      }
    }

    /** SET NX on the lock. Some token means the lock is ours; an error sends the request to the database. */
    method TakeLock() returns (token: Option<nat>, failed: bool)
      requires used < |calls| && StandsHere(Missed(device))
      modifies this
      ensures used == old(used) + 1 && (failed ==> token.None?)
      ensures StandsHere(if failed || token.Some? then VersionedCache.Query(device, token) else Waiting(device, 0))
    {
      var redis, o := calls[used].state.redis, calls[used].outcome;
      failed := !o.Works?;
      token := None;
      if o.Fails? || device in redis.lock {
        Leave(redis, Missed(device));
      } else {
        Leave(redis.(lock := redis.lock[device := o.token]), Missed(device));
        token := if failed then None else Some(o.token);
      }
    }

    /** The whole query. It makes a bounded number of calls, each of them the protocol's next one, and ends
        as the protocol does: with a value found in Redis or with the result of its database query. */
    method GetDeviceLatestTelemetry() returns (ending: Ending)
      requires used == 0 && |calls| >= MAX_CALLS && StandsHere(Start(device))
      modifies this
      ensures used <= MAX_CALLS && StandsHere(Answered(device, ending))
      ensures exists k :: 0 <= k < used && Decides(k, ending)
    {
      var version, failed := ReadPointer(Start(device));
      var cached: Option<Payload> := None;
      if version.Some? {
        cached, failed := ReadData(version.value, None);
        if cached.Some? {
          return Got(cached);
        }
      }
      var token;
      token, failed := TakeLock();
      if token.None? {
        if !failed {
          cached := WaitForOwner();
          if cached.Some? {
            return Got(cached);
          }
        }
        ending := QueryDb(None);
        return;
      }
      ending := QueryDb(token);
      if ending.Got? && ending.row.Some? {
        Refill(token.value, ending.row.value);
      }
      Unlock(token.value, ending);
    }
  }
}
