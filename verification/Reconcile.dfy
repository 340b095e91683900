/** Reconciling the devices of a tenant with a limit: the oldest stay enabled, the rest is disabled. */
module Reconcile {
  import opened Plans
  import opened Collections

  type DeviceId = nat

  datatype Device = Device(tenant: string, createdAt: int, disabled: bool)

  type Devices = map<DeviceId, Device>

  /** Age order: creation time, then id. */
  predicate Older(devices: Devices, a: DeviceId, b: DeviceId)
    requires a in devices && b in devices
  {
    devices[a].createdAt < devices[b].createdAt || (devices[a].createdAt == devices[b].createdAt && a < b)
  }

  function Owned(devices: Devices, tenant: string): set<DeviceId> {
    set d | d in devices && devices[d].tenant == tenant
  }

  /** ROW_NUMBER over the devices of the tenant in age order, starting at 1. */
  function RankIn(devices: Devices, among: set<DeviceId>, d: DeviceId): nat
    requires among <= devices.Keys && d in devices
  {
    1 + |set x | x in among && Older(devices, x, d)|
  }

  function Rank(devices: Devices, tenant: string, d: DeviceId): nat
    requires d in devices
  {
    RankIn(devices, Owned(devices, tenant), d)
  }

  predicate OverLimit(devices: Devices, tenant: string, limit: int, d: DeviceId)
    requires d in devices
  {
    limit != UNLIMITED && Rank(devices, tenant, d) > limit
  }

  /** The devices table after reconciling one tenant; other tenants keep theirs. */
  function Reconciled(devices: Devices, tenant: string, limit: int): Devices {
    map d | d in devices ::
      if devices[d].tenant == tenant then devices[d].(disabled := OverLimit(devices, tenant, limit, d)) else devices[d]
  }

  function Enabled(devices: Devices, tenant: string): set<DeviceId> {
    set d | d in devices && devices[d].tenant == tenant && !devices[d].disabled
  }

  // ---------------------------------------------------------------- ranks

  lemma {:induction false} YoungestOf(devices: Devices, s: set<DeviceId>) returns (y: DeviceId)
    requires s <= devices.Keys && s != {}
    ensures y in s && forall x :: x in s && x != y ==> Older(devices, x, y)
  {
    var first :| first in s;
    var rest := s - {first};
    assert forall x :: x in s ==> x == first || x in rest;
    y := first;
    if rest != {} {
      var z := YoungestOf(devices, rest);
      if Older(devices, first, z) {
        y := z;
      }
    }
  }

  function Within(devices: Devices, s: set<DeviceId>, limit: nat): set<DeviceId>
    requires s <= devices.Keys
  {
    set d | d in s && RankIn(devices, s, d) <= limit
  }

  function Min(a: nat, b: nat): nat {
    if a < b then a else b
  }

  /** Exactly the first `limit` ranks are taken, each by one device. */
  lemma {:induction false} RanksAreDense(devices: Devices, s: set<DeviceId>, limit: nat)
    requires s <= devices.Keys
    ensures |Within(devices, s, limit)| == Min(limit, |s|)
    decreases |s|
  {
    if s == {} {
      assert Within(devices, s, limit) == {};
    } else {
      var y := YoungestOf(devices, s);
      var rest := s - {y};
      RanksAreDense(devices, rest, limit);
      assert (set x | x in s && Older(devices, x, y)) == rest;
      forall d | d in rest ensures RankIn(devices, s, d) == RankIn(devices, rest, d) {
        assert (set x | x in s && Older(devices, x, d)) == (set x | x in rest && Older(devices, x, d));
      }
      if |s| <= limit {
        assert Within(devices, s, limit) == Within(devices, rest, limit) + {y};
      } else {
        assert Within(devices, s, limit) == Within(devices, rest, limit);
      }
    }
  }

  lemma {:induction false} RankRespectsAge(devices: Devices, s: set<DeviceId>, a: DeviceId, b: DeviceId)
    requires s <= devices.Keys && a in s && b in s && Older(devices, a, b)
    ensures RankIn(devices, s, a) < RankIn(devices, s, b)
  {
    var beforeA := set x | x in s && Older(devices, x, a);
    var beforeB := set x | x in s && Older(devices, x, b);
    assert beforeA <= beforeB - {a};
    SubsetSize(beforeA, beforeB - {a});
  }

  // ---------------------------------------------------------------- what reconciling achieves

  /** Flags play no part in ranks, so reconciling changes no rank. */
  lemma {:induction false} RanksSurvive(devices: Devices, tenant: string, limit: int, d: DeviceId)
    requires d in devices
    ensures Rank(Reconciled(devices, tenant, limit), tenant, d) == Rank(devices, tenant, d)
  {
    var after := Reconciled(devices, tenant, limit);
    assert Owned(after, tenant) == Owned(devices, tenant);
    assert (set x | x in Owned(after, tenant) && Older(after, x, d)) == (set x | x in Owned(devices, tenant) && Older(devices, x, d));
  }

  /** Reconciling touches nothing but flags, and only those of its tenant; without a limit it clears them all. */
  lemma {:induction false} OnlyItsFlags(devices: Devices, tenant: string, limit: int, d: DeviceId)
    ensures d in Reconciled(devices, tenant, limit) <==> d in devices
    ensures d in devices ==>
              && Reconciled(devices, tenant, limit)[d] == devices[d].(disabled := Reconciled(devices, tenant, limit)[d].disabled)
              && (devices[d].tenant != tenant ==> Reconciled(devices, tenant, limit)[d] == devices[d])
              && (devices[d].tenant == tenant && limit == -1 ==> !Reconciled(devices, tenant, limit)[d].disabled)
  {}

  /** A finite limit leaves exactly min(limit, n) devices of the tenant enabled, whatever was set before. */
  lemma {:induction false} EnabledCount(devices: Devices, tenant: string, limit: nat)
    ensures |Enabled(Reconciled(devices, tenant, limit), tenant)| == Min(limit, |Owned(devices, tenant)|)
  {
    RanksAreDense(devices, Owned(devices, tenant), limit);
    assert Enabled(Reconciled(devices, tenant, limit), tenant) == Within(devices, Owned(devices, tenant), limit);
  }

  /** The enabled devices are the oldest: each was created before every disabled one of the tenant, or at the
      same time with a smaller id. */
  lemma {:induction false} EnabledAreOldest(devices: Devices, tenant: string, limit: nat, a: DeviceId, b: DeviceId)
    requires a in Enabled(Reconciled(devices, tenant, limit), tenant)
    requires b in Owned(devices, tenant) && b !in Enabled(Reconciled(devices, tenant, limit), tenant)
    ensures devices[a].createdAt < devices[b].createdAt || (devices[a].createdAt == devices[b].createdAt && a < b)
  {
    if Older(devices, b, a) {
      RankRespectsAge(devices, Owned(devices, tenant), b, a);
    }
  }

  predicate NotLower(limit: int, limit': int) {
    limit' == UNLIMITED || (limit != UNLIMITED && limit <= limit')
  }

  /** Raising the limit disables nobody. */
  lemma {:induction false} RaisingNeverDisables(devices: Devices, tenant: string, limit: int, limit': int)
    requires NotLower(limit, limit')
    ensures Enabled(Reconciled(devices, tenant, limit), tenant) <=
              Enabled(Reconciled(Reconciled(devices, tenant, limit), tenant, limit'), tenant)
  {
    LastLimitDecides(devices, tenant, limit, limit');
  }

  /** Only the last limit counts. */
  lemma {:induction false} LastLimitDecides(devices: Devices, tenant: string, limit: int, limit': int)
    ensures Reconciled(Reconciled(devices, tenant, limit), tenant, limit') == Reconciled(devices, tenant, limit')
  {
    var once := Reconciled(devices, tenant, limit);
    forall d | d in devices
      ensures Reconciled(once, tenant, limit')[d] == Reconciled(devices, tenant, limit')[d]
    {
      RanksSurvive(devices, tenant, limit, d);
    }
  }

  // ---------------------------------------------------------------- the statement

  predicate InAgeOrder(devices: Devices, s: seq<DeviceId>) {
    (forall d :: d in s ==> d in devices) &&
    forall i, j :: 0 <= i < j < |s| ==> s[i] in devices && s[j] in devices && Older(devices, s[i], s[j])
  }

  /** The window of the ranked query: the devices of the tenant in age order. */
  method Ranked(devices: Devices, tenant: string) returns (ranked: seq<DeviceId>)
    ensures InAgeOrder(devices, ranked) && forall d :: d in ranked <==> d in Owned(devices, tenant)
  {
    ranked := [];
    var todo := devices.Keys;
    while todo != {}
      invariant todo <= devices.Keys
      invariant InAgeOrder(devices, ranked)
      invariant forall d :: d in ranked <==> d in Owned(devices, tenant) && d !in todo
      decreases |todo|
    {
      var d :| d in todo;
      todo := todo - {d};
      if devices[d].tenant == tenant {
        ranked := InsertByAge(devices, ranked, d);
      }
    }
  }

  lemma {:induction false} OlderTotal(devices: Devices, a: DeviceId, b: DeviceId)
    requires a in devices && b in devices && a != b
    ensures Older(devices, a, b) || Older(devices, b, a)
  {}

  lemma {:induction false} OlderTransitive(devices: Devices, a: DeviceId, b: DeviceId, c: DeviceId)
    requires a in devices && b in devices && c in devices && Older(devices, a, b) && Older(devices, b, c)
    ensures Older(devices, a, c)
  {}

  lemma {:induction false} InsertedByAge(devices: Devices, s: seq<DeviceId>, d: DeviceId, i: nat)
    requires d in devices && InAgeOrder(devices, s) && i <= |s|
    requires forall k :: 0 <= k < i ==> s[k] in devices && Older(devices, s[k], d)
    requires forall k :: i <= k < |s| ==> s[k] in devices && Older(devices, d, s[k])
    ensures InAgeOrder(devices, s[..i] + [d] + s[i..])
  {
    var r := s[..i] + [d] + s[i..];
    forall a, b | 0 <= a < b < |r| ensures r[a] in devices && r[b] in devices && Older(devices, r[a], r[b]) {
      var x := if a < i then a else a - 1;
      var y := if b < i then b else b - 1;
      assert a != i ==> r[a] == s[x];
      assert b != i ==> r[b] == s[y];
    }
  }

  method InsertByAge(devices: Devices, s: seq<DeviceId>, d: DeviceId) returns (r: seq<DeviceId>)
    requires d in devices && d !in s && InAgeOrder(devices, s)
    ensures InAgeOrder(devices, r) && forall x :: x in r <==> x in s || x == d
  {
    var i := 0;
    assert forall k :: 0 <= k < |s| ==> s[k] in s;
    while i < |s| && Older(devices, s[i], d)
      invariant 0 <= i <= |s|
      invariant forall k :: 0 <= k < i ==> s[k] in devices && Older(devices, s[k], d)
    {
      i := i + 1;
    }
    forall k | i <= k < |s| ensures s[k] in devices && Older(devices, d, s[k]) {
      assert s[k] in s && s[i] in s;
      OlderTotal(devices, s[i], d);
      if k > i {
        OlderTransitive(devices, d, s[i], s[k]);
      }
    }
    InsertedByAge(devices, s, d, i);
    r := s[..i] + [d] + s[i..];
    assert s == s[..i] + s[i..];
  }

  /** In an age-ordered list the devices older than the one at position i are the i before it. */
  lemma {:induction false} RankIsPosition(devices: Devices, s: seq<DeviceId>, i: nat)
    requires InAgeOrder(devices, s) && i < |s|
    ensures |set x | x in s && x in devices && Older(devices, x, s[i])| == i
  {
    assert s[i] in s;
    var before := Elements(s[..i]);
    forall x | x in s && x in devices && Older(devices, x, s[i]) ensures x in before {
      var k :| 0 <= k < |s| && s[k] == x;
      assert s[..i][k] == x;
    }
    forall x | x in before ensures x in s && x in devices && Older(devices, x, s[i]) {}
    assert (set x | x in s && x in devices && Older(devices, x, s[i])) == before;
    DistinctSize(s[..i]);
  }

  function Elements(s: seq<DeviceId>): set<DeviceId> {
    set x | x in s
  }

  lemma {:induction false} DistinctSize(s: seq<DeviceId>)
    requires forall i, j :: 0 <= i < j < |s| ==> s[i] != s[j]
    ensures |Elements(s)| == |s|
  {
    if s != [] {
      var front, last := s[..|s| - 1], s[|s| - 1];
      DistinctSize(front);
      assert s == front + [last];
      assert Elements(s) == Elements(front) + {last};
      assert last !in front;
    }
  }

  class DeviceTable {
    var devices: Devices

    constructor (devices: Devices)
      ensures this.devices == devices
    {
      this.devices := devices;
    }

    /** The two statements of the worker: clear the flags, or number the devices by age and compare. */
    method ReconcileTenantDevices(tenant: string, limit: int)
      modifies this
      ensures devices == Reconciled(old(devices), tenant, limit)
    {
      if limit == UNLIMITED {
        devices := map d | d in devices ::
          if devices[d].tenant == tenant && devices[d].disabled then devices[d].(disabled := false) else devices[d];
        return;
      }
      var ranked := Ranked(devices, tenant);
      ghost var before := devices;
      for k := 0 to |ranked|
        invariant devices.Keys == before.Keys
        invariant forall d :: d in before && d !in ranked[..k] ==> devices[d] == before[d]
        invariant forall i :: 0 <= i < k ==> devices[ranked[i]] == before[ranked[i]].(disabled := i + 1 > limit)
      {
        var d := ranked[k];
        assert d in ranked;
        assert ranked[..k + 1] == ranked[..k] + [d];
        assert d !in ranked[..k] by {
          assert forall i :: 0 <= i < k ==> ranked[i] != ranked[k];
        }
        devices := devices[d := devices[d].(disabled := k + 1 > limit)];
      }
      forall d | d in before ensures devices[d] == Reconciled(before, tenant, limit)[d] {
        if d in ranked {
          var i :| 0 <= i < |ranked| && ranked[i] == d;
          RankIsPosition(before, ranked, i);
          assert (set x | x in Owned(before, tenant) && Older(before, x, d)) ==
                 (set x | x in ranked && x in before && Older(before, x, ranked[i]));
        } else {
          assert ranked[..|ranked|] == ranked;
        }
      }
    }
  }
}
