/**
 The two-tier lookup cache of the ingest service: a map in the memory of each pod, a shared Redis key,
 and Postgres behind them. One lookup is one step. What Postgres answers is an arbitrary function of
 the time, so revocation, expiry, renaming and deletion are all included.
 */
module LookupCache {
  import opened Wrappers

  datatype Entry<V> = Entry(value: V, at: int)

  datatype Ttl = Ttl(memory: nat, redis: nat)

  datatype Caches<V> = Caches(memory: map<(nat, string), Entry<V>>, redis: map<string, Entry<V>>, now: int)

  datatype Answer<V> = Found(value: V) | NotFound | Failed

  /** What Postgres answers for a key at a time. */
  type World<!V> = (int, string) -> Option<V>

  datatype Action =
    | Resolve(pod: nat, key: string, now: int, redisReads: bool, redisWrites: bool, postgresUp: bool)
    | EvictRedis(key: string)
    | RestartPod(pod: nat)

  function InMemory<V>(ttl: Ttl, c: Caches<V>, pod: nat, key: string, now: int): bool {
    (pod, key) in c.memory && now - c.memory[(pod, key)].at <= ttl.memory
  }

  function InRedis<V>(ttl: Ttl, c: Caches<V>, key: string, now: int): bool {
    key in c.redis && now < c.redis[key].at + ttl.redis
  }

  function ResolveKey<V>(ttl: Ttl, world: World<V>, c: Caches<V>, a: Action): (Caches<V>, Answer<V>)
    requires a.Resolve?
  {
    var slot := (a.pod, a.key);
    if InMemory(ttl, c, a.pod, a.key, a.now) then (c.(now := a.now), Found(c.memory[slot].value))
    else
      var missed := c.(now := a.now, memory := c.memory - {slot});
      if a.redisReads && InRedis(ttl, c, a.key, a.now) then
        var v := c.redis[a.key].value;
        (missed.(memory := missed.memory[slot := Entry(v, a.now)]), Found(v))
      else if !a.postgresUp then (missed, Failed)
      else
        var row := world(a.now, a.key);
        if row.None? then (missed, NotFound)
        else
          (missed.(memory := missed.memory[slot := Entry(row.value, a.now)],
                   redis := if a.redisWrites then c.redis[a.key := Entry(row.value, a.now)] else c.redis),
           Found(row.value))
  }

  predicate Enabled<V>(c: Caches<V>, a: Action) {
    a.Resolve? ==> a.now >= c.now
  }

  function Apply<V>(ttl: Ttl, world: World<V>, c: Caches<V>, a: Action): Caches<V> {
    match a
    case Resolve(_, _, _, _, _, _) => ResolveKey(ttl, world, c, a).0
    case EvictRedis(key) => c.(redis := c.redis - {key})
    case RestartPod(pod) => c.(memory := map k | k in c.memory && k.0 != pod :: c.memory[k])
  }

  /** Postgres gave this answer at some time of the interval. */
  ghost predicate HeldDuring<V>(world: World<V>, key: string, v: V, from: int, to: int) {
    exists t :: from <= t <= to && world(t, key) == Some(v)
  }

  /** Redis entries were right when written; memory entries were right at most one Redis lifetime before. */
  ghost predicate Inv<V>(ttl: Ttl, world: World<V>, c: Caches<V>) {
    && (forall k :: k in c.redis ==> c.redis[k].at <= c.now && world(c.redis[k].at, k) == Some(c.redis[k].value))
    && (forall p :: p in c.memory ==>
          c.memory[p].at <= c.now &&
          HeldDuring(world, p.1, c.memory[p].value, c.memory[p].at - ttl.redis, c.memory[p].at))
  }

  lemma {:induction false} ResolveKeepsInv<V>(ttl: Ttl, world: World<V>, c: Caches<V>, a: Action)
    requires Inv(ttl, world, c) && a.Resolve? && Enabled(c, a)
    ensures Inv(ttl, world, ResolveKey(ttl, world, c, a).0)
  {
    var c' := ResolveKey(ttl, world, c, a).0;
    forall p | p in c'.memory
      ensures HeldDuring(world, p.1, c'.memory[p].value, c'.memory[p].at - ttl.redis, c'.memory[p].at)
    {
      if p == (a.pod, a.key) && !InMemory(ttl, c, a.pod, a.key, a.now) {
        if a.redisReads && InRedis(ttl, c, a.key, a.now) {
          assert world(c.redis[a.key].at, a.key) == Some(c.redis[a.key].value);
        } else {
          assert world(a.now, a.key) == Some(c'.memory[p].value);
        }
      } else {
        assert p in c.memory;
      }
    }
  }

  /** One lookup: a positive answer is at most memory plus Redis lifetime old, a negative one is current. */
  lemma {:induction false} AnswerIsFresh<V>(ttl: Ttl, world: World<V>, c: Caches<V>, a: Action)
    requires Inv(ttl, world, c) && a.Resolve? && Enabled(c, a)
    ensures var answer := ResolveKey(ttl, world, c, a).1;
            && (answer.Found? ==> HeldDuring(world, a.key, answer.value, a.now - (ttl.memory + ttl.redis), a.now))
            && (answer.NotFound? ==> world(a.now, a.key) == None)
            && (answer.Failed? <==>
                  !a.postgresUp && !InMemory(ttl, c, a.pod, a.key, a.now) && !(a.redisReads && InRedis(ttl, c, a.key, a.now)))
  {
    if InMemory(ttl, c, a.pod, a.key, a.now) {
      var e := c.memory[(a.pod, a.key)];
      var t :| e.at - ttl.redis <= t <= e.at && world(t, a.key) == Some(e.value);
      assert a.now - (ttl.memory + ttl.redis) <= t <= a.now;
    } else if a.redisReads && InRedis(ttl, c, a.key, a.now) {
      assert world(c.redis[a.key].at, a.key) == Some(c.redis[a.key].value);
    }
  }

  ghost predicate ValidRun<V(!new)>(ttl: Ttl, world: World<V>, c: Caches<V>, actions: seq<Action>)
    decreases |actions|
  {
    actions == [] || (Enabled(c, actions[0]) && ValidRun(ttl, world, Apply(ttl, world, c, actions[0]), actions[1..]))
  }

  function Run<V>(ttl: Ttl, world: World<V>, c: Caches<V>, actions: seq<Action>): Caches<V>
    decreases |actions|
  {
    if actions == [] then c else Run(ttl, world, Apply(ttl, world, c, actions[0]), actions[1..])
  }

  lemma {:induction false} RunsKeepInv<V(!new)>(ttl: Ttl, world: World<V>, c: Caches<V>, actions: seq<Action>)
    requires Inv(ttl, world, c) && ValidRun(ttl, world, c, actions)
    ensures Inv(ttl, world, Run(ttl, world, c, actions))
    decreases |actions|
  {
    if actions != [] {
      if actions[0].Resolve? {
        ResolveKeepsInv(ttl, world, c, actions[0]);
      }
      RunsKeepInv(ttl, world, Apply(ttl, world, c, actions[0]), actions[1..]);
    }
  }

  /** The staleness bound over whole runs of many pods that share Redis, from cold caches. */
  lemma {:induction false} StalenessBound<V(!new)>(ttl: Ttl, world: World<V>, start: int, actions: seq<Action>, a: Action)
    requires ValidRun(ttl, world, Caches(map[], map[], start), actions)
    requires a.Resolve? && Enabled(Run(ttl, world, Caches(map[], map[], start), actions), a)
    ensures var answer := ResolveKey(ttl, world, Run(ttl, world, Caches(map[], map[], start), actions), a).1;
            && (answer.Found? ==> HeldDuring(world, a.key, answer.value, a.now - (ttl.memory + ttl.redis), a.now))
            && (answer.NotFound? ==> world(a.now, a.key) == None)
  {
    RunsKeepInv(ttl, world, Caches(map[], map[], start), actions);
    AnswerIsFresh(ttl, world, Run(ttl, world, Caches(map[], map[], start), actions), a);
  }

  // ---------------------------------------------------------------- what the tiers are good for

  predicate NoRestart(actions: seq<Action>, pod: nat) {
    forall i :: 0 <= i < |actions| ==> actions[i] != RestartPod(pod)
  }

  predicate ByThen(actions: seq<Action>, time: int) {
    forall i :: 0 <= i < |actions| && actions[i].Resolve? ==> actions[i].now <= time
  }

  lemma {:induction false} MemoryKeeps<V(!new)>(ttl: Ttl, world: World<V>, c: Caches<V>, actions: seq<Action>, pod: nat, key: string, e: Entry<V>)
    requires (pod, key) in c.memory && c.memory[(pod, key)] == e
    requires NoRestart(actions, pod) && ByThen(actions, e.at + ttl.memory)
    ensures (pod, key) in Run(ttl, world, c, actions).memory && Run(ttl, world, c, actions).memory[(pod, key)] == e
    decreases |actions|
  {
    if actions != [] {
      var c' := Apply(ttl, world, c, actions[0]);
      assert forall i :: 0 <= i < |actions[1..]| ==> actions[1..][i] == actions[i + 1];
      assert (pod, key) in c'.memory && c'.memory[(pod, key)] == e;
      MemoryKeeps(ttl, world, c', actions[1..], pod, key, e);
    }
  }

  /** A pod that has fetched a key answers the same for the memory lifetime, whatever the others do and with
      Redis and Postgres down, unless it restarts. */
  lemma {:induction false} MemoryBridgesOutages<V(!new)>(ttl: Ttl, world: World<V>, c: Caches<V>, a: Action, actions: seq<Action>, a': Action)
    requires a.Resolve? && !InMemory(ttl, c, a.pod, a.key, a.now) && ResolveKey(ttl, world, c, a).1.Found?
    requires NoRestart(actions, a.pod) && ByThen(actions, a.now + ttl.memory)
    requires a'.Resolve? && a'.pod == a.pod && a'.key == a.key && a'.now <= a.now + ttl.memory
    ensures ResolveKey(ttl, world, Run(ttl, world, ResolveKey(ttl, world, c, a).0, actions), a').1 == ResolveKey(ttl, world, c, a).1
  {
    var (c', answer) := ResolveKey(ttl, world, c, a);
    MemoryKeeps(ttl, world, c', actions, a.pod, a.key, Entry(answer.value, a.now));
  }

  lemma {:induction false} RedisKeeps<V(!new)>(ttl: Ttl, world: World<V>, c: Caches<V>, actions: seq<Action>, key: string, since: int)
    requires key in c.redis && c.redis[key].at >= since && c.now >= since && ValidRun(ttl, world, c, actions)
    requires forall i :: 0 <= i < |actions| ==> actions[i] != EvictRedis(key)
    ensures key in Run(ttl, world, c, actions).redis && Run(ttl, world, c, actions).redis[key].at >= since
    decreases |actions|
  {
    if actions != [] {
      assert forall i :: 0 <= i < |actions[1..]| ==> actions[1..][i] == actions[i + 1];
      RedisKeeps(ttl, world, Apply(ttl, world, c, actions[0]), actions[1..], key, since);
    }
  }

  /** What one pod has fetched and stored in Redis every pod finds for the Redis lifetime, with Postgres down,
      unless the key is evicted. */
  lemma {:induction false} RedisBridgesOutages<V(!new)>(ttl: Ttl, world: World<V>, c: Caches<V>, a: Action, actions: seq<Action>, a': Action)
    requires a.Resolve? && Enabled(c, a) && !InMemory(ttl, c, a.pod, a.key, a.now) && !(a.redisReads && InRedis(ttl, c, a.key, a.now))
    requires a.redisWrites && ResolveKey(ttl, world, c, a).1.Found?
    requires ValidRun(ttl, world, ResolveKey(ttl, world, c, a).0, actions)
    requires forall i :: 0 <= i < |actions| ==> actions[i] != EvictRedis(a.key)
    requires a'.Resolve? && a'.key == a.key && a'.redisReads && a'.now < a.now + ttl.redis
    ensures ResolveKey(ttl, world, Run(ttl, world, ResolveKey(ttl, world, c, a).0, actions), a').1.Found?
  {
    RedisKeeps(ttl, world, ResolveKey(ttl, world, c, a).0, actions, a.key, a.now);
  }

  // ---------------------------------------------------------------- the two users

  datatype ApiKey = ApiKey(tenant: string, keyId: string)
  datatype DeviceEntry = DeviceEntry(device: string, disabled: bool)

  /** Seconds: five minutes in memory and in Redis for keys, one minute each for devices. */
  const ApiKeyTtl := Ttl(300, 300)
  const DeviceTtl := Ttl(60, 60)

  /** A pod answers for a key it has fetched for five minutes, and for a device for one, with Redis and Postgres
      down. */
  lemma {:induction false} BridgedTimes(keys: World<ApiKey>, devices: World<DeviceEntry>, k: Caches<ApiKey>, d: Caches<DeviceEntry>,
                                        a: Action, actions: seq<Action>, a': Action)
    requires a.Resolve? && NoRestart(actions, a.pod) && a'.Resolve? && a'.pod == a.pod && a'.key == a.key
    ensures !InMemory(ApiKeyTtl, k, a.pod, a.key, a.now) && ResolveKey(ApiKeyTtl, keys, k, a).1.Found?
            && ByThen(actions, a.now + 300) && a'.now <= a.now + 300 ==>
              ResolveKey(ApiKeyTtl, keys, Run(ApiKeyTtl, keys, ResolveKey(ApiKeyTtl, keys, k, a).0, actions), a').1 ==
              ResolveKey(ApiKeyTtl, keys, k, a).1
    ensures !InMemory(DeviceTtl, d, a.pod, a.key, a.now) && ResolveKey(DeviceTtl, devices, d, a).1.Found?
            && ByThen(actions, a.now + 60) && a'.now <= a.now + 60 ==>
              ResolveKey(DeviceTtl, devices, Run(DeviceTtl, devices, ResolveKey(DeviceTtl, devices, d, a).0, actions), a').1 ==
              ResolveKey(DeviceTtl, devices, d, a).1
  {
    if !InMemory(ApiKeyTtl, k, a.pod, a.key, a.now) && ResolveKey(ApiKeyTtl, keys, k, a).1.Found?
       && ByThen(actions, a.now + 300) && a'.now <= a.now + 300 {
      MemoryBridgesOutages(ApiKeyTtl, keys, k, a, actions, a');
    }
    if !InMemory(DeviceTtl, d, a.pod, a.key, a.now) && ResolveKey(DeviceTtl, devices, d, a).1.Found?
       && ByThen(actions, a.now + 60) && a'.now <= a.now + 60 {
      MemoryBridgesOutages(DeviceTtl, devices, d, a, actions, a');
    }
  }

  /** The device answer as the handler sees it: a disabled entry is an error of its own. */
  datatype DeviceAnswer = Accepted(device: string) | Disabled | Unknown | LookupError

  function DeviceVerdict(answer: Answer<DeviceEntry>): DeviceAnswer {
    match answer
    case Found(e) => if e.disabled then Disabled else Accepted(e.device)
    case NotFound => Unknown
    case Failed => LookupError
  }

  /** A reading is accepted for a device only if the device was enabled within the last two minutes, and
      refused as disabled only if it was disabled then; a device is unknown only if it is unknown now. */
  lemma {:induction false} AcceptedDeviceWasEnabled(world: World<DeviceEntry>, start: int, actions: seq<Action>, a: Action)
    requires ValidRun(DeviceTtl, world, Caches(map[], map[], start), actions)
    requires a.Resolve? && Enabled(Run(DeviceTtl, world, Caches(map[], map[], start), actions), a)
    ensures var verdict := DeviceVerdict(ResolveKey(DeviceTtl, world, Run(DeviceTtl, world, Caches(map[], map[], start), actions), a).1);
            && (verdict.Accepted? ==>
                  exists t :: a.now - 120 <= t <= a.now && world(t, a.key) == Some(DeviceEntry(verdict.device, false)))
            && (verdict.Disabled? ==>
                  exists t, device :: a.now - 120 <= t <= a.now && world(t, a.key) == Some(DeviceEntry(device, true)))
            && (verdict.Unknown? ==> world(a.now, a.key) == None)
  {
    StalenessBound(DeviceTtl, world, start, actions, a);
    var answer := ResolveKey(DeviceTtl, world, Run(DeviceTtl, world, Caches(map[], map[], start), actions), a).1;
    if answer.Found? {
      assert HeldDuring(world, a.key, answer.value, a.now - 120, a.now);
    }
  }

  /** A key is accepted only if it was valid for that tenant within the last ten minutes, and refused only
      if it is not valid now. */
  lemma {:induction false} AcceptedKeyWasValid(world: World<ApiKey>, start: int, actions: seq<Action>, a: Action)
    requires ValidRun(ApiKeyTtl, world, Caches(map[], map[], start), actions)
    requires a.Resolve? && Enabled(Run(ApiKeyTtl, world, Caches(map[], map[], start), actions), a)
    ensures var answer := ResolveKey(ApiKeyTtl, world, Run(ApiKeyTtl, world, Caches(map[], map[], start), actions), a).1;
            && (answer.Found? ==> exists t :: a.now - 600 <= t <= a.now && world(t, a.key) == Some(answer.value))
            && (answer.NotFound? ==> world(a.now, a.key) == None)
  {
    StalenessBound(ApiKeyTtl, world, start, actions, a);
    var answer := ResolveKey(ApiKeyTtl, world, Run(ApiKeyTtl, world, Caches(map[], map[], start), actions), a).1;
    if answer.Found? {
      assert HeldDuring(world, a.key, answer.value, a.now - 600, a.now);
    }
  }

  // ---------------------------------------------------------------- the service

  class LookupService<V> {
    const ttl: Ttl
    var memory: map<(nat, string), Entry<V>>
    var redis: map<string, Entry<V>>
    var now: int

    constructor (ttl: Ttl, start: int)
      ensures this.ttl == ttl && View() == Caches(map[], map[], start)
    {
      this.ttl := ttl;
      memory, redis, now := map[], map[], start;
    }

    ghost function View(): Caches<V>
      reads this
    {
      Caches(memory, redis, now)
    }

    /** The pod's map: a hit, or a miss that also deletes an entry past its lifetime. */
    method Get(pod: nat, key: string) returns (hit: Option<Entry<V>>)
      modifies this
      ensures redis == old(redis) && now == old(now)
      ensures hit.Some? <==> InMemory(ttl, old(View()), pod, key, now)
      ensures hit.Some? ==> memory == old(memory) && (pod, key) in memory && hit.value == memory[(pod, key)]
      ensures hit.None? ==> memory == old(memory) - {(pod, key)}
    {
      if (pod, key) !in memory {
        assert memory == memory - {(pod, key)};
        return None;
      }
      if now - memory[(pod, key)].at > ttl.memory {
        memory := memory - {(pod, key)};
        return None;
      }
      hit := Some(memory[(pod, key)]);
    }

    /** Memory, then Redis, then Postgres; what is found on the way down fills the tiers above. */
    method ResolveOne(world: World<V>, a: Action) returns (answer: Answer<V>)
      requires a.Resolve?
      modifies this
      ensures (View(), answer) == ResolveKey(ttl, world, old(View()), a)
      ensures old(Inv(ttl, world, View())) && a.now >= old(now) ==>
                && Inv(ttl, world, View())
                && (answer.Found? ==> HeldDuring(world, a.key, answer.value, a.now - (ttl.memory + ttl.redis), a.now))
                && (answer.NotFound? ==> world(a.now, a.key) == None)
    {
      if Inv(ttl, world, View()) && Enabled(View(), a) {
        ResolveKeepsInv(ttl, world, View(), a);
        AnswerIsFresh(ttl, world, View(), a);
      }
      now := a.now;
      var hit := Get(a.pod, a.key);
      if hit.Some? {
        return Found(hit.value.value);
      }
      if a.redisReads && a.key in redis && now < redis[a.key].at + ttl.redis {
        memory := memory[(a.pod, a.key) := Entry(redis[a.key].value, now)];
        return Found(redis[a.key].value);
      }
      if !a.postgresUp {
        return Failed;
      }
      var row := world(now, a.key);
      if row.None? {
        return NotFound;
      }
      memory := memory[(a.pod, a.key) := Entry(row.value, now)];
      if a.redisWrites {
        redis := redis[a.key := Entry(row.value, now)];
      }
      answer := Found(row.value);
    }
  }
}
