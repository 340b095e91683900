/**
 What a batch means: it refines the one-at-a-time reference, and over whole runs of deliveries the
 tables are an exactly-once image of the accepted events.
 */
module BatchProjection {
  import opened Wrappers
  import opened TelemetryModel

  // ---------------------------------------------------------------- batch against sequence

  lemma {:induction false} BulkReadsAt(latest: map<Uuid, Row>, events: seq<Event>, d: Uuid)
    ensures d in BulkUpsert(latest, KeepLatest(events)) <==> d in UpsertAll(latest, events)
    ensures d in UpsertAll(latest, events) ==>
              BulkUpsert(latest, KeepLatest(events))[d].reading == UpsertAll(latest, events)[d].reading
  {
    if events != [] {
      BulkReadsAt(latest, events[..|events| - 1], d);
      KeepLatestDevices(events[..|events| - 1]);
    }
  }

  /** Keep-latest plus one bulk upsert leaves every device the reading that the one-at-a-time
      reference leaves, ties included. */
  lemma {:induction false} BulkReadsLikeSequence(latest: map<Uuid, Row>, events: seq<Event>)
    ensures BulkUpsert(latest, KeepLatest(events)).Keys == UpsertAll(latest, events).Keys
    ensures forall d :: d in UpsertAll(latest, events) ==>
              BulkUpsert(latest, KeepLatest(events))[d].reading == UpsertAll(latest, events)[d].reading
  {
    forall d ensures d in BulkUpsert(latest, KeepLatest(events)) <==> d in UpsertAll(latest, events) {
      BulkReadsAt(latest, events, d);
    }
    forall d | d in UpsertAll(latest, events)
      ensures BulkUpsert(latest, KeepLatest(events))[d].reading == UpsertAll(latest, events)[d].reading
    {
      BulkReadsAt(latest, events, d);
    }
  }

  /** Some event of the device is at least as new as the given row. */
  predicate Overwrites(events: seq<Event>, d: Uuid, row: Row) {
    exists i :: 0 <= i < |events| && events[i].device == d && events[i].recordedAt >= row.reading.recordedAt
  }

  /** The version counter: a first row has version 1, an existing row gains exactly one when the batch
      overwrites it, and otherwise the whole row stays. */
  lemma {:induction false} BulkVersions(latest: map<Uuid, Row>, events: seq<Event>, d: Uuid)
    requires d in BulkUpsert(latest, KeepLatest(events))
    ensures d !in latest ==> BulkUpsert(latest, KeepLatest(events))[d].version == 1
    ensures d in latest && Overwrites(events, d, latest[d]) ==>
              BulkUpsert(latest, KeepLatest(events))[d].version == latest[d].version + 1
    ensures d in latest && !Overwrites(events, d, latest[d]) ==>
              BulkUpsert(latest, KeepLatest(events))[d] == latest[d]
  {
    KeepLatestDevices(events);
    if d in KeepLatest(events) {
      var i := KeepLatestIsLastNewest(events, d);
    } else {
      assert forall i :: 0 <= i < |events| ==> events[i].device in Devices(events);
    }
  }

  /** The reading after a batch, without naming how it is computed: of the newest fresh events of the
      device the last one wins if it is not older than the stored row. */
  lemma {:induction false} BulkReading(latest: map<Uuid, Row>, events: seq<Event>, i: nat)
    requires IsLastNewest(events, i)
    ensures events[i].device in BulkUpsert(latest, KeepLatest(events))
    ensures BulkUpsert(latest, KeepLatest(events))[events[i].device].reading ==
              if events[i].device in latest && latest[events[i].device].reading.recordedAt > events[i].recordedAt
              then latest[events[i].device].reading else ReadingOf(events[i])
  {
    var d := events[i].device;
    KeepLatestDevices(events);
    assert d in Devices(events);
    var k := KeepLatestIsLastNewest(events, d);
    assert k == i;
  }

  /** Batch refines sequence, for every batch whose transaction can commit. */
  lemma {:induction false} BatchRefinesSequence(store: Store, batch: seq<Event>)
    requires ApplyBatch(store, batch).Some?
    ensures var after := ApplyBatch(store, batch).value;
            var one := UpsertAll(store.latest, Fresh(store.claimed, batch));
            && after.latest.Keys == one.Keys
            && (forall d :: d in one ==> after.latest[d].reading == one[d].reading)
            && after.history == store.history + multiset(Fresh(store.claimed, batch))
    ensures forall d :: d in store.latest ==>
              && d in ApplyBatch(store, batch).value.latest
              && ApplyBatch(store, batch).value.latest[d].version ==
                 store.latest[d].version + (if Overwrites(Fresh(store.claimed, batch), d, store.latest[d]) then 1 else 0)
    ensures forall d :: d in ApplyBatch(store, batch).value.latest && d !in store.latest ==>
              ApplyBatch(store, batch).value.latest[d].version == 1
  {
    var events := Fresh(store.claimed, batch);
    BulkReadsLikeSequence(store.latest, events);
    forall d | d in ApplyBatch(store, batch).value.latest
      ensures d in store.latest ==>
                ApplyBatch(store, batch).value.latest[d].version ==
                store.latest[d].version + (if Overwrites(events, d, store.latest[d]) then 1 else 0)
      ensures d !in store.latest ==> ApplyBatch(store, batch).value.latest[d].version == 1
    {
      BulkVersions(store.latest, events, d);
    }
  }

  /** A new event of the batch, canonically spelled, has a tenant that its column rejects. */
  predicate SomeUnstorable(claimed: set<Uuid>, batch: seq<Event>) {
    exists i :: 0 <= i < |batch| && batch[i].spelling.Canonical? && batch[i].id !in claimed && !batch[i].storable
  }

  /** A new id occurs twice in the batch, both times canonically spelled. */
  predicate SomeRepeated(claimed: set<Uuid>, batch: seq<Event>) {
    exists i, j :: 0 <= i < j < |batch| && batch[i].id == batch[j].id && batch[i].id !in claimed
                   && batch[i].spelling.Canonical? && batch[j].spelling.Canonical?
  }

  /** Exactly what makes the transaction of a batch roll back. */
  predicate Refused(claimed: set<Uuid>, batch: seq<Event>) {
    !Castable(batch) || SomeUnstorable(claimed, batch) || SomeRepeated(claimed, batch)
  }

  /** The transaction of a batch rolls back if and only if an id cannot be cast, a new event has a tenant
      that does not fit, or a new id is repeated, provided that every id of the history table is claimed. */
  lemma {:induction false} RollsBackIffRefused(store: Store, batch: seq<Event>)
    requires HistoryIds(store.history) <= store.claimed
    ensures ApplyBatch(store, batch).None? <==> Refused(store.claimed, batch)
  {
    var events := Fresh(store.claimed, batch);
    var ids := NewIds(store.claimed, batch);
    forall e | e in events ensures e.id !in HistoryIds(store.history) {
      MatchingMembers(ids, batch, e);
    }
    StorableIff(store.claimed, batch);
    DistinctIff(store.claimed, batch);
  }

  lemma {:induction false} StorableIff(claimed: set<Uuid>, batch: seq<Event>)
    ensures Storable(Fresh(claimed, batch)) <==> !SomeUnstorable(claimed, batch)
  {
    var ids, events := NewIds(claimed, batch), Fresh(claimed, batch);
    if i :| 0 <= i < |batch| && batch[i].spelling.Canonical? && batch[i].id !in claimed && !batch[i].storable {
      assert batch[i] in batch && batch[i].id in ids;
      MatchingMembers(ids, batch, batch[i]);
      var k :| 0 <= k < |events| && events[k] == batch[i];
    }
    if k :| 0 <= k < |events| && !events[k].storable {
      MatchingMembers(ids, batch, events[k]);
      var i :| 0 <= i < |batch| && batch[i] == events[k];
      assert batch[i].id !in claimed;
    }
  }

  lemma {:induction false} DistinctIff(claimed: set<Uuid>, batch: seq<Event>)
    ensures DistinctIds(Fresh(claimed, batch)) <==> !SomeRepeated(claimed, batch)
  {
    var ids, events := NewIds(claimed, batch), Fresh(claimed, batch);
    if i, j :| 0 <= i < j < |batch| && batch[i].id == batch[j].id && batch[i].id !in claimed
               && batch[i].spelling.Canonical? && batch[j].spelling.Canonical? {
      assert batch[i].id in ids;
      RepeatsSurvive(ids, batch, i, j);
    }
    if !DistinctIds(events) {
      var i, j :| 0 <= i < j < |events| && events[i].id == events[j].id;
      MatchingMembers(ids, batch, events[i]);
      var k, l := RepeatsOriginate(ids, batch, i, j);
    }
  }

  /** Two kept positions of the batch stay two positions after the filter. */
  lemma {:induction false} RepeatsSurvive(ids: set<Uuid>, batch: seq<Event>, i: nat, j: nat)
    requires i < j < |batch| && batch[i].id == batch[j].id && batch[i].id in ids
    requires batch[i].spelling.Canonical? && batch[j].spelling.Canonical?
    ensures !DistinctIds(Matching(ids, batch))
  {
    var n := |batch| - 1;
    var rest := Matching(ids, batch[..n]);
    if j < n {
      RepeatsSurvive(ids, batch[..n], i, j);
      var k, l :| 0 <= k < l < |rest| && rest[k].id == rest[l].id;
      assert Matching(ids, batch)[k] == rest[k] && Matching(ids, batch)[l] == rest[l];
    } else {
      assert batch[..n][i] == batch[i];
      MatchingMembers(ids, batch[..n], batch[i]);
      var k :| 0 <= k < |rest| && rest[k] == batch[i];
      assert Matching(ids, batch)[k] == rest[k] && Matching(ids, batch)[|rest|] == batch[n];
    }
  }

  /** Two positions after the filter come from two kept positions of the batch. */
  lemma {:induction false} RepeatsOriginate(ids: set<Uuid>, batch: seq<Event>, i: nat, j: nat) returns (k: nat, l: nat)
    requires i < j < |Matching(ids, batch)| && Matching(ids, batch)[i].id == Matching(ids, batch)[j].id
    ensures k < l < |batch| && batch[k] == Matching(ids, batch)[i] && batch[l] == Matching(ids, batch)[j]
    ensures batch[k].spelling.Canonical? && batch[l].spelling.Canonical?
  {
    var n := |batch| - 1;
    var rest := Matching(ids, batch[..n]);
    MatchingMembers(ids, batch, Matching(ids, batch)[i]);
    MatchingMembers(ids, batch, Matching(ids, batch)[j]);
    if j < |rest| {
      k, l := RepeatsOriginate(ids, batch[..n], i, j);
    } else {
      MatchingMembers(ids, batch[..n], rest[i]);
      k :| 0 <= k < n && batch[..n][k] == rest[i];
      l := n;
    }
  }

  // ---------------------------------------------------------------- exactly once over runs

  function HistoryIds(history: multiset<Event>): set<Uuid> {
    set e | e in history :: e.id
  }

  /** New ids of the batch that no canonical spelling accompanies: claimed, then filtered out. */
  function Dropped(claimed: set<Uuid>, batch: seq<Event>): set<Uuid> {
    NewIds(claimed, batch) - set e | e in batch && e.spelling.Canonical? :: e.id
  }

  /** The newest reading of a device comes from a history row and no history row is newer. */
  ghost predicate LatestAgrees(store: Store, d: Uuid) {
    d in store.latest ==>
      && store.latest[d].version >= 1
      && (exists h :: h in store.history && h.device == d && ReadingOf(h) == store.latest[d].reading)
      && (forall h :: h in store.history && h.device == d ==> h.recordedAt <= store.latest[d].reading.recordedAt)
  }

  ghost predicate Projected(store: Store) {
    && HistoryIds(store.history) <= store.claimed
    && (forall h :: h in store.history ==> store.history[h] == 1)
    && (forall h, k :: h in store.history && k in store.history && h.id == k.id ==> h == k)
    && (forall h :: h in store.history ==> h.device in store.latest)
    && (forall d :: LatestAgrees(store, d))
  }

  lemma {:induction false} EmptyIsProjected()
    ensures Projected(EmptyStore)
  {}

  lemma {:induction false} DistinctHaveCountOne(events: seq<Event>, e: Event)
    requires DistinctIds(events) && e in events
    ensures multiset(events)[e] == 1
  {
    var n := |events| - 1;
    assert events == events[..n] + [events[n]];
    if e in events[..n] {
      DistinctHaveCountOne(events[..n], e);
    }
  }

  lemma {:induction false} DistinctAreOne(events: seq<Event>, e: Event, f: Event)
    requires DistinctIds(events) && e in events && f in events && e.id == f.id
    ensures e == f
  {
    var i :| 0 <= i < |events| && events[i] == e;
    var j :| 0 <= j < |events| && events[j] == f;
    assert !(i < j) && !(j < i);
  }

  lemma {:induction false} LatestStaysAgreed(store: Store, batch: seq<Event>, d: Uuid)
    requires Projected(store) && ApplyBatch(store, batch).Some?
    ensures LatestAgrees(ApplyBatch(store, batch).value, d)
  {
    var after := ApplyBatch(store, batch).value;
    var events := Fresh(store.claimed, batch);
    KeepLatestDevices(events);
    assert LatestAgrees(store, d);
    forall h | h in after.history ensures h in store.history || h in events {}
    if d in KeepLatest(events) {
      var i := KeepLatestIsLastNewest(events, d);
      WinnerAgrees(store.latest, store.history, events, d, i, after);
    } else if d in after.latest {
      forall h | h in events ensures h.device != d {
        assert h.device in Devices(events);
      }
      var h :| h in store.history && h.device == d && ReadingOf(h) == store.latest[d].reading;
      assert h in after.history;
    }
  }

  lemma {:induction false} WinnerAgrees(latest: map<Uuid, Row>, history: multiset<Event>, events: seq<Event>, d: Uuid, i: nat, after: Store)
    requires LatestAgrees(Store({}, latest, history), d)
    requires forall h :: h in history ==> h.device in latest
    requires IsLastNewest(events, i) && events[i].device == d
    requires d in after.latest && after.latest[d] == UpsertRow(Lookup(latest, d), events[i])
    requires forall h :: h in after.history <==> h in history || h in events
    ensures LatestAgrees(after, d)
  {
    assert LatestAgrees(Store({}, latest, history), d);
    assert events[i] in after.history;
    forall h | h in after.history && h.device == d
      ensures h.recordedAt <= after.latest[d].reading.recordedAt
    {
      if h in events {
        var j :| 0 <= j < |events| && events[j] == h;
      }
    }
    if after.latest[d].reading != ReadingOf(events[i]) {
      var h :| h in history && h.device == d && ReadingOf(h) == latest[d].reading;
      assert h in after.history;
    }
  }

  /** The copied rows are new to the history table. */
  lemma {:induction false} FreshAreNew(store: Store, batch: seq<Event>, e: Event)
    requires HistoryIds(store.history) <= store.claimed && e in Fresh(store.claimed, batch)
    ensures e.id in NewIds(store.claimed, batch) && e.id !in HistoryIds(store.history) && e !in store.history
  {
    MatchingMembers(NewIds(store.claimed, batch), batch, e);
  }

  lemma {:induction false} HistoryRowsStayOne(store: Store, batch: seq<Event>, h: Event)
    requires Projected(store) && ApplyBatch(store, batch).Some? && h in ApplyBatch(store, batch).value.history
    ensures var after := ApplyBatch(store, batch).value;
            after.history[h] == 1 && h.device in after.latest && h.id in after.claimed
  {
    var events := Fresh(store.claimed, batch);
    KeepLatestDevices(events);
    if h in events {
      FreshAreNew(store, batch, h);
      DistinctHaveCountOne(events, h);
      assert h.device in Devices(events);
    } else {
      assert h.id in HistoryIds(store.history);
    }
  }

  lemma {:induction false} HistoryIdsStayUnique(store: Store, batch: seq<Event>, h: Event, k: Event)
    requires Projected(store) && ApplyBatch(store, batch).Some? && h.id == k.id
    requires h in ApplyBatch(store, batch).value.history && k in ApplyBatch(store, batch).value.history
    ensures h == k
  {
    var events := Fresh(store.claimed, batch);
    forall e | e in events ensures e.id !in HistoryIds(store.history) {
      FreshAreNew(store, batch, e);
    }
    if h in events && k in events {
      DistinctAreOne(events, h, k);
    }
  }

  /** One committed batch keeps the projection. */
  lemma {:induction false} BatchKeepsProjection(store: Store, batch: seq<Event>)
    requires Projected(store) && ApplyBatch(store, batch).Some?
    ensures Projected(ApplyBatch(store, batch).value)
  {
    var after := ApplyBatch(store, batch).value;
    forall h | h in after.history ensures after.history[h] == 1 && h.device in after.latest && h.id in after.claimed {
      HistoryRowsStayOne(store, batch, h);
    }
    forall h, k | h in after.history && k in after.history && h.id == k.id ensures h == k {
      HistoryIdsStayUnique(store, batch, h, k);
    }
    forall d ensures LatestAgrees(after, d) {
      LatestStaysAgreed(store, batch, d);
    }
  }

  /** Exactly which claims have no history row: a committed batch adds its dropped ids to them and
      nothing ever leaves them. So claims and history agree if and only if no batch drops an id. */
  lemma {:induction false} ClaimsWithoutHistory(store: Store, batch: seq<Event>)
    requires Projected(store) && ApplyBatch(store, batch).Some?
    ensures var after := ApplyBatch(store, batch).value;
            after.claimed - HistoryIds(after.history) ==
            (store.claimed - HistoryIds(store.history)) + Dropped(store.claimed, batch)
    ensures store.claimed == HistoryIds(store.history) ==>
              (ApplyBatch(store, batch).value.claimed == HistoryIds(ApplyBatch(store, batch).value.history)
               <==> Dropped(store.claimed, batch) == {})
  {
    var after := ApplyBatch(store, batch).value;
    var events := Fresh(store.claimed, batch);
    var ids := NewIds(store.claimed, batch);
    HistoryIdsAdd(store.history, events);
    FreshIds(store.claimed, batch);
    assert after.claimed - HistoryIds(after.history) ==
           (store.claimed - HistoryIds(store.history)) + Dropped(store.claimed, batch);
  }

  lemma {:induction false} HistoryIdsAdd(history: multiset<Event>, events: seq<Event>)
    ensures HistoryIds(history + multiset(events)) == HistoryIds(history) + set e | e in events :: e.id
  {
    var both := history + multiset(events);
    assert forall e :: e in both <==> e in history || e in events;
  }

  /** The fresh events carry exactly the new ids that are not dropped. */
  lemma {:induction false} FreshIds(claimed: set<Uuid>, batch: seq<Event>)
    ensures (set e | e in Fresh(claimed, batch) :: e.id) == NewIds(claimed, batch) - Dropped(claimed, batch)
  {
    forall e ensures e in Fresh(claimed, batch) <==> e in batch && e.spelling.Canonical? && e.id in NewIds(claimed, batch) {
      MatchingMembers(NewIds(claimed, batch), batch, e);
    }
  }

  /** A concrete dropped reading: an id in capitals is claimed and its event is lost for good. */
  lemma {:induction false} SpellingCanLoseReading()
    ensures var e := Event(7, Variant, 1, "t", true, 20.0, 40.0, 100);
            ApplyBatch(EmptyStore, [e]) == Some(Store({7}, map[], multiset{}))
            && ApplyBatch(Store({7}, map[], multiset{}), [e.(spelling := Canonical)]) == Some(Store({7}, map[], multiset{}))
  {
    var e := Event(7, Variant, 1, "t", true, 20.0, 40.0, 100);
    var f := e.(spelling := Canonical);
    assert e in [e];
    assert NewIds({}, [e]) == {7};
    NothingFresh(EmptyStore, [e]);
    assert EmptyStore.claimed + NewIds(EmptyStore.claimed, [e]) == {7};
    ReplayIsNoop(Store({7}, map[], multiset{}), [f]);
  }

  /** One text the columns reject takes the whole batch down: a tenant that is no uuid, or an id in the urn
      form, beside a perfectly good event. */
  lemma {:induction false} OneBadTextRefusesTheBatch()
    ensures var good := Event(7, Canonical, 1, "t", true, 20.0, 40.0, 100);
            && ApplyBatch(EmptyStore, [good]).Some?
            && ApplyBatch(EmptyStore, [good, good.(id := 8, tenant := "abc", storable := false)]).None?
            && ApplyBatch(EmptyStore, [good, good.(id := 8, spelling := Uncastable)]).None?
  {
    var good := Event(7, Canonical, 1, "t", true, 20.0, 40.0, 100);
    var tenant := [good, good.(id := 8, tenant := "abc", storable := false)];
    var urn := [good, good.(id := 8, spelling := Uncastable)];
    RollsBackIffRefused(EmptyStore, [good]);
    RollsBackIffRefused(EmptyStore, tenant);
    RollsBackIffRefused(EmptyStore, urn);
    assert tenant[1].spelling.Canonical? && !tenant[1].storable && urn[1].spelling.Uncastable?;
  }

  /** A batch without fresh events only records its claims. */
  lemma {:induction false} NothingFresh(store: Store, batch: seq<Event>)
    requires forall e :: e in batch ==> !e.spelling.Canonical? || e.id in store.claimed
    ensures ApplyBatch(store, batch) ==
              if Castable(batch) then Some(store.(claimed := store.claimed + NewIds(store.claimed, batch))) else None
  {
    var events := Fresh(store.claimed, batch);
    if events != [] {
      MatchingMembers(NewIds(store.claimed, batch), batch, events[0]);
      assert false;
    }
    assert KeepLatest(events) == map[];
    assert BulkUpsert(store.latest, map[]) == store.latest;
    assert store.history + multiset(events) == store.history;
  }

  /** A batch of already claimed ids changes nothing; it commits unless an id cannot be cast. */
  lemma {:induction false} ReplayIsNoop(store: Store, batch: seq<Event>)
    requires forall e :: e in batch ==> e.id in store.claimed
    ensures ApplyBatch(store, batch) == if Castable(batch) then Some(store) else None
  {
    NothingFresh(store, batch);
    assert store.claimed + NewIds(store.claimed, batch) == store.claimed;
  }

  /** One delivery of a batch: the transaction rolls back, or commits with the acknowledgement seen or
      lost. A lost acknowledgement leaves the same tables, and the batch is delivered again. */
  datatype Delivery = RolledBack(batch: seq<Event>) | Committed(batch: seq<Event>, acknowledged: bool)

  function Deliver(store: Store, d: Delivery): Store {
    match d
    case RolledBack(_) => store
    case Committed(batch, _) =>
      var r := ApplyBatch(store, batch);
      if r.Some? then r.value else store
  }

  function DeliverAll(store: Store, ds: seq<Delivery>): Store {
    if ds == [] then store else Deliver(DeliverAll(store, ds[..|ds| - 1]), ds[|ds| - 1])
  }

  /** Over every run of deliveries the tables stay an exactly-once projection. */
  lemma {:induction false} RunsStayProjected(ds: seq<Delivery>)
    ensures Projected(DeliverAll(EmptyStore, ds))
  {
    EmptyIsProjected();
    RunsKeepProjection(EmptyStore, ds);
  }

  lemma {:induction false} RunsKeepProjection(store: Store, ds: seq<Delivery>)
    requires Projected(store)
    ensures Projected(DeliverAll(store, ds))
  {
    if ds != [] {
      var before, d := DeliverAll(store, ds[..|ds| - 1]), ds[|ds| - 1];
      RunsKeepProjection(store, ds[..|ds| - 1]);
      if d.Committed? && ApplyBatch(before, d.batch).Some? {
        BatchKeepsProjection(before, d.batch);
      }
    }
  }

  function Times(d: Delivery, n: nat): seq<Delivery> {
    if n == 0 then [] else Times(d, n - 1) + [d]
  }

  /** After every run: a refused batch rolls back at every delivery, however often it is sent again, and
      changes nothing; a batch goes through as soon as its ids can be cast and are all claimed. */
  lemma {:induction false} RefusedRollsBackUntilClaimed(ds: seq<Delivery>, batch: seq<Event>, again: nat)
    ensures ApplyBatch(DeliverAll(EmptyStore, ds), batch).None? <==> Refused(DeliverAll(EmptyStore, ds).claimed, batch)
    ensures Refused(DeliverAll(EmptyStore, ds).claimed, batch) ==>
              DeliverAll(EmptyStore, ds + Times(Committed(batch, true), again)) == DeliverAll(EmptyStore, ds)
    ensures Castable(batch) && (forall e :: e in batch ==> e.id in DeliverAll(EmptyStore, ds).claimed) ==>
              !Refused(DeliverAll(EmptyStore, ds).claimed, batch)
  {
    var store := DeliverAll(EmptyStore, ds);
    RunsStayProjected(ds);
    RollsBackIffRefused(store, batch);
    if Refused(store.claimed, batch) {
      AgainAndAgain(ds, Committed(batch, true), again);
    }
    assert forall i :: 0 <= i < |batch| ==> batch[i] in batch;
  }

  lemma {:induction false} AgainAndAgain(ds: seq<Delivery>, d: Delivery, again: nat)
    requires Deliver(DeliverAll(EmptyStore, ds), d) == DeliverAll(EmptyStore, ds)
    ensures DeliverAll(EmptyStore, ds + Times(d, again)) == DeliverAll(EmptyStore, ds)
  {
    if again == 0 {
      assert ds + Times(d, again) == ds;
    } else {
      var most := ds + Times(d, again - 1);
      AgainAndAgain(ds, d, again - 1);
      assert ds + Times(d, again) == most + [d];
      StaysAt(DeliverAll(EmptyStore, ds), most, d);
    }
  }

  lemma {:induction false} StaysAt(store: Store, ds: seq<Delivery>, d: Delivery)
    requires DeliverAll(EmptyStore, ds) == store && Deliver(store, d) == store
    ensures DeliverAll(EmptyStore, ds + [d]) == store
  {
    DeliverAllSnoc(EmptyStore, ds, d);
  }

  lemma {:induction false} DeliverAllSnoc(store: Store, ds: seq<Delivery>, d: Delivery)
    ensures DeliverAll(store, ds + [d]) == Deliver(DeliverAll(store, ds), d)
  {
    assert (ds + [d])[..|ds|] == ds;
  }

  /** The ids that the committed deliveries of a run dropped. */
  function DroppedBy(ds: seq<Delivery>): set<Uuid> {
    if ds == [] then {}
    else
      var n := |ds| - 1;
      var before := DeliverAll(EmptyStore, ds[..n]);
      DroppedBy(ds[..n]) +
      if ds[n].Committed? && ApplyBatch(before, ds[n].batch).Some? then Dropped(before.claimed, ds[n].batch) else {}
  }

  /** Over every run the claims without a history row are exactly the dropped ids: claimed ids and history
      ids are the same if and only if no committed delivery dropped an id. */
  lemma {:induction false} ClaimsEqualHistoryIff(ds: seq<Delivery>)
    ensures DeliverAll(EmptyStore, ds).claimed - HistoryIds(DeliverAll(EmptyStore, ds).history) == DroppedBy(ds)
    ensures DeliverAll(EmptyStore, ds).claimed == HistoryIds(DeliverAll(EmptyStore, ds).history) <==> DroppedBy(ds) == {}
  {
    RunsStayProjected(ds);
    if ds != [] {
      var n := |ds| - 1;
      var before, d := DeliverAll(EmptyStore, ds[..n]), ds[n];
      ClaimsEqualHistoryIff(ds[..n]);
      RunsStayProjected(ds[..n]);
      if d.Committed? && ApplyBatch(before, d.batch).Some? {
        ClaimsWithoutHistory(before, d.batch);
      }
    }
  }

  predicate AllCanonical(ds: seq<Delivery>) {
    forall d, e :: d in ds && e in d.batch ==> e.spelling.Canonical?
  }

  /** So with canonical ids the claimed ids are exactly the history ids, over every run. */
  lemma {:induction false} ClaimsEqualHistory(ds: seq<Delivery>)
    requires AllCanonical(ds)
    ensures DeliverAll(EmptyStore, ds).claimed == HistoryIds(DeliverAll(EmptyStore, ds).history)
  {
    ClaimsEqualHistoryIff(ds);
    NothingDropped(ds);
  }

  lemma {:induction false} NothingDropped(ds: seq<Delivery>)
    requires AllCanonical(ds)
    ensures DroppedBy(ds) == {}
  {
    if ds != [] {
      var n := |ds| - 1;
      NothingDropped(ds[..n]);
      assert ds[n] in ds;
      assert Dropped(DeliverAll(EmptyStore, ds[..n]).claimed, ds[n].batch) == {};
    }
  }

  lemma {:induction false} ClaimsOnlyGrow(store: Store, ds: seq<Delivery>)
    ensures store.claimed <= DeliverAll(store, ds).claimed
  {
    if ds != [] {
      ClaimsOnlyGrow(store, ds[..|ds| - 1]);
    }
  }

  /** Replaying a committed batch after any further deliveries changes nothing, ever again. */
  lemma {:induction false} ReplayAfterCommit(store: Store, batch: seq<Event>, later: seq<Delivery>)
    requires ApplyBatch(store, batch).Some?
    ensures ApplyBatch(DeliverAll(ApplyBatch(store, batch).value, later), batch) ==
              Some(DeliverAll(ApplyBatch(store, batch).value, later))
  {
    ClaimsOnlyGrow(ApplyBatch(store, batch).value, later);
    ReplayIsNoop(DeliverAll(ApplyBatch(store, batch).value, later), batch);
  }
}
