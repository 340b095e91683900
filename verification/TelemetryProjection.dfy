/**
 The batch handler itself: loops that parse, claim, filter, deduplicate, sort, upsert, copy and
 finally fill the Redis pipeline. Its effect is the one batch of `TelemetryModel.ApplyBatch`.
 */
module TelemetryProjection {
  import opened Wrappers
  import opened TelemetryModel
  import opened TelemetryMessages
  import opened ReadModelTransactions
  import opened VersionedCache

  method ParseBatch(codec: Codec, payloads: seq<Option<Message>>) returns (events: seq<Event>)
    ensures events == DecodeAll(codec, payloads)
  {
    events := [];
    for i := 0 to |payloads|
      invariant events == DecodeAll(codec, payloads[..i])
    {
      assert payloads[..i + 1][..i] == payloads[..i];
      var e := Decode(codec, payloads[i]);
      if e.Some? {
        events := events + [e.value];
      }
    }
    assert payloads[..|payloads|] == payloads;
  }

  /** The claim statement: inserts what is not there and returns what it inserted, unless a cast fails. */
  method ClaimIds(claimed: set<Uuid>, events: seq<Event>) returns (ok: bool, won: set<Uuid>)
    ensures ok <==> Castable(events)
    ensures ok ==> won == NewIds(claimed, events)
  {
    ok, won := true, {};
    for i := 0 to |events|
      invariant ok && CastableUpTo(events, i) && won == NewIds(claimed, events[..i])
    {
      if events[i].spelling.Uncastable? {
        return false, {};
      }
      assert events[..i + 1] == events[..i] + [events[i]];
      if events[i].id !in claimed && events[i].id !in won {
        won := won + {events[i].id};
      }
    }
    assert events[..|events|] == events;
  }

  method KeepReturned(won: set<Uuid>, events: seq<Event>) returns (accepted: seq<Event>)
    ensures accepted == Matching(won, events)
  {
    accepted := [];
    for i := 0 to |events|
      invariant accepted == Matching(won, events[..i])
    {
      assert events[..i + 1][..i] == events[..i];
      if events[i].spelling.Canonical? && events[i].id in won {
        accepted := accepted + [events[i]];
      }
    }
    assert events[..|events|] == events;
  }

  method Deduplicate(events: seq<Event>) returns (deduped: map<Uuid, Event>)
    ensures deduped == KeepLatest(events)
  {
    deduped := map[];
    for i := 0 to |events|
      invariant deduped == KeepLatest(events[..i])
    {
      var e := events[i];
      assert events[..i + 1][..i] == events[..i];
      if e.device !in deduped || !(e.recordedAt < deduped[e.device].recordedAt) {
        deduped := deduped[e.device := e];
      }
    }
    assert events[..|events|] == events;
  }

  predicate Ascending(order: seq<Event>) {
    forall i, j :: 0 <= i < j < |order| ==> order[i].device < order[j].device
  }

  lemma {:induction false} InsertedInOrder(order: seq<Event>, e: Event, i: nat)
    requires Ascending(order) && i <= |order|
    requires i > 0 ==> order[i - 1].device < e.device
    requires i < |order| ==> e.device < order[i].device
    ensures Ascending(order[..i] + [e] + order[i..])
  {
    var r := order[..i] + [e] + order[i..];
    forall a, b | 0 <= a < b < |r| ensures r[a].device < r[b].device {
      var x := if a < i then a else a - 1;
      var y := if b < i then b else b - 1;
      assert a != i ==> r[a] == order[x];
      assert b != i ==> r[b] == order[y];
    }
  }

  method Insert(order: seq<Event>, e: Event) returns (r: seq<Event>)
    requires Ascending(order) && forall f :: f in order ==> f.device != e.device
    ensures Ascending(r)
    ensures forall f :: f in r <==> f in order || f == e
  {
    var i := 0;
    while i < |order| && order[i].device < e.device
      invariant 0 <= i <= |order| && (i > 0 ==> order[i - 1].device < e.device)
    {
      i := i + 1;
    }
    assert i < |order| ==> order[i] in order;
    InsertedInOrder(order, e, i);
    r := order[..i] + [e] + order[i..];
    assert order == order[..i] + order[i..];
  }

  /** The deduplicated events in device order, from a map that has none. */
  method SortByDevice(kept: map<Uuid, Event>) returns (order: seq<Event>)
    requires forall d :: d in kept ==> kept[d].device == d
    ensures InDeviceOrder(kept, order)
  {
    order := [];
    var todo := kept.Keys;
    while todo != {}
      invariant todo <= kept.Keys
      invariant Ascending(order)
      invariant forall e :: e in order <==> e.device in kept.Keys - todo && kept[e.device] == e
      decreases |todo|
    {
      var d :| d in todo;
      order := Insert(order, kept[d]);
      todo := todo - {d};
    }
  }

  /** The RETURNING clause: device and new version of every row inserted or overwritten. */
  function ReturnedVersions(latest: map<Uuid, Row>, order: seq<Event>): seq<(Uuid, nat)> {
    if order == [] then []
    else
      var n := |order| - 1;
      var e := order[n];
      var rows := UpsertAll(latest, order[..n]);
      var rest := ReturnedVersions(latest, order[..n]);
      if e.device !in rows || e.recordedAt >= rows[e.device].reading.recordedAt
      then rest + [(e.device, UpsertRow(Lookup(rows, e.device), e).version)] else rest
  }

  /** The bulk statement: one upsert per row of the VALUES list, unless a tenant does not fit. */
  method UpsertRows(latest: map<Uuid, Row>, order: seq<Event>)
    returns (ok: bool, rows: map<Uuid, Row>, versions: seq<(Uuid, nat)>)
    ensures ok <==> Storable(order)
    ensures ok ==> rows == UpsertAll(latest, order) && versions == ReturnedVersions(latest, order)
  {
    ok, rows, versions := true, latest, [];
    for k := 0 to |order|
      invariant ok && forall j :: 0 <= j < k ==> order[j].storable
      invariant rows == UpsertAll(latest, order[..k]) && versions == ReturnedVersions(latest, order[..k])
    {
      var e := order[k];
      if !e.storable {
        return false, latest, [];
      }
      assert order[..k + 1][..k] == order[..k];
      var row := UpsertRow(Lookup(rows, e.device), e);
      if e.device !in rows || e.recordedAt >= rows[e.device].reading.recordedAt {
        versions := versions + [(e.device, row.version)];
      }
      rows := rows[e.device := row];
    }
    assert order[..|order|] == order;
  }

  /** With one event per device, the rows of the statement do not see each other. */
  lemma {:induction false} UpsertElsewhere(latest: map<Uuid, Row>, order: seq<Event>, d: Uuid)
    requires forall i :: 0 <= i < |order| ==> order[i].device != d
    ensures Lookup(UpsertAll(latest, order), d) == Lookup(latest, d)
  {
    if order != [] {
      UpsertElsewhere(latest, order[..|order| - 1], d);
    }
  }

  lemma {:induction false} UpsertOnce(latest: map<Uuid, Row>, order: seq<Event>, i: nat)
    requires Ascending(order) && i < |order|
    ensures Lookup(UpsertAll(latest, order), order[i].device) == Some(UpsertRow(Lookup(latest, order[i].device), order[i]))
  {
    var n := |order| - 1;
    if i < n {
      UpsertOnce(latest, order[..n], i);
    } else {
      UpsertElsewhere(latest, order[..n], order[i].device);
    }
  }

  lemma {:induction false} UpsertAllAscending(latest: map<Uuid, Row>, order: seq<Event>, d: Uuid)
    requires Ascending(order)
    ensures (forall e :: e in order ==> e.device != d) ==> Lookup(UpsertAll(latest, order), d) == Lookup(latest, d)
    ensures forall e :: e in order && e.device == d ==>
              Lookup(UpsertAll(latest, order), d) == Some(UpsertRow(Lookup(latest, d), e))
  {
    if i :| 0 <= i < |order| && order[i].device == d {
      UpsertOnce(latest, order, i);
    } else {
      UpsertElsewhere(latest, order, d);
    }
  }

  lemma {:induction false} UpsertedIsBulk(latest: map<Uuid, Row>, kept: map<Uuid, Event>, order: seq<Event>)
    requires InDeviceOrder(kept, order)
    requires forall d :: d in kept ==> kept[d].device == d
    ensures UpsertAll(latest, order) == BulkUpsert(latest, kept)
  {
    forall d ensures Lookup(UpsertAll(latest, order), d) == Lookup(BulkUpsert(latest, kept), d) {
      UpsertAllAscending(latest, order, d);
    }
    SameLookups(UpsertAll(latest, order), BulkUpsert(latest, kept));
  }

  /** A version is returned for exactly the events that inserted or overwrote their row. */
  lemma {:induction false} ReturnedExactly(store: Store, order: seq<Event>, d: Uuid, v: nat)
    requires Ascending(order)
    ensures (d, v) in ReturnedVersions(store.latest, order) <==>
              exists e :: e in order && e.device == d && Returned(store, e) && v == UpsertRow(Lookup(store.latest, d), e).version
  {
    if order != [] {
      var n := |order| - 1;
      assert order == order[..n] + [order[n]];
      ReturnedExactly(store, order[..n], d, v);
      LastReturned(store, order);
    }
  }

  /** The last row of the statement meets the row stored before it. */
  lemma {:induction false} LastReturned(store: Store, order: seq<Event>)
    requires Ascending(order) && order != []
    ensures var e := order[|order| - 1];
            ReturnedVersions(store.latest, order) ==
            ReturnedVersions(store.latest, order[..|order| - 1]) +
            if Returned(store, e) then [(e.device, UpsertRow(Lookup(store.latest, e.device), e).version)] else []
  {
    var n := |order| - 1;
    UpsertElsewhere(store.latest, order[..n], order[n].device);
  }

  lemma {:induction false} CopyOneMore(history: multiset<Event>, events: seq<Event>, i: nat)
    requires i < |events| && PrimaryKeyAllows(history, events[..i])
    requires forall h :: h in history + multiset(events[..i]) ==> h.id != events[i].id
    ensures PrimaryKeyAllows(history, events[..i + 1])
  {
    forall j | 0 <= j < i ensures events[j].id != events[i].id {
      assert events[..i][j] in multiset(events[..i]);
    }
    forall j, k | 0 <= j < k < i ensures events[j].id != events[k].id {
      assert events[..i][j].id != events[..i][k].id;
    }
    forall e, h | e in events[..i + 1] && h in history ensures e.id != h.id {
      assert e in events[..i] || e == events[i];
    }
  }

  lemma {:induction false} ClashRejects(history: multiset<Event>, events: seq<Event>, i: nat, h: Event)
    requires i < |events| && h in history + multiset(events[..i]) && h.id == events[i].id
    ensures !PrimaryKeyAllows(history, events)
  {
    assert events[i] in events;
    if h !in history {
      var j :| 0 <= j < i && events[..i][j] == h;
      assert events[j].id == events[i].id;
    }
  }

  /** The copy stops at a row, or goes on behind it. */
  lemma {:induction false} CopyRow(history: multiset<Event>, events: seq<Event>, i: nat)
    requires i < |events| && HistoryAccepts(history, events[..i])
    ensures !events[i].storable || (exists h :: h in history + multiset(events[..i]) && h.id == events[i].id) ==>
              !HistoryAccepts(history, events)
    ensures events[i].storable && (forall h :: h in history + multiset(events[..i]) ==> h.id != events[i].id) ==>
              HistoryAccepts(history, events[..i + 1])
  {
    if h :| h in history + multiset(events[..i]) && h.id == events[i].id {
      ClashRejects(history, events, i, h);
    } else if events[i].storable {
      CopyOneMore(history, events, i);
      assert forall j :: 0 <= j < i ==> events[j] == events[..i][j];
    }
  }

  /** The copy into the history table, row by row against its tenant column and its primary key. */
  method CopyHistory(history: multiset<Event>, events: seq<Event>) returns (ok: bool, copied: multiset<Event>)
    ensures ok <==> HistoryAccepts(history, events)
    ensures ok ==> copied == history + multiset(events)
  {
    copied := history;
    for i := 0 to |events|
      invariant copied == history + multiset(events[..i]) && HistoryAccepts(history, events[..i])
    {
      CopyRow(history, events, i);
      if !events[i].storable || exists h :: h in copied && h.id == events[i].id {
        return false, history;
      }
      assert events[..i + 1] == events[..i] + [events[i]];
      copied := copied + multiset{events[i]};
    }
    assert events[..|events|] == events;
    ok := true;
  }

  lemma {:induction false} SentByOneMore(order: seq<Event>, versions: seq<(Uuid, nat)>, k: nat, c: Command)
    requires k < |versions|
    ensures SentBy(order, versions[..k + 1], c) <==>
            SentBy(order, versions[..k], c) ||
            exists e :: e in order && e.device == versions[k].0 && (c == DataCommand(e, versions[k].1) || c == SetPointer(e.device, versions[k].1))
  {
    assert versions[..k + 1] == versions[..k] + [versions[k]];
    if SentBy(order, versions[..k + 1], c) {
      var e, w :| e in order && (e.device, w) in versions[..k + 1] && (c == DataCommand(e, w) || c == SetPointer(e.device, w));
      assert (e.device, w) in versions[..k] || (e.device, w) == versions[k];
    }
    if SentBy(order, versions[..k], c) {
      var e, w :| e in order && (e.device, w) in versions[..k] && (c == DataCommand(e, w) || c == SetPointer(e.device, w));
      assert (e.device, w) in versions[..k + 1];
    }
    if e :| e in order && e.device == versions[k].0 && (c == DataCommand(e, versions[k].1) || c == SetPointer(e.device, versions[k].1)) {
      assert (e.device, versions[k].1) in versions[..k + 1];
    }
  }

  method IndexByDevice(order: seq<Event>) returns (eventByDevice: map<Uuid, Event>)
    requires Ascending(order)
    ensures forall e :: e in order <==> e.device in eventByDevice && eventByDevice[e.device] == e
    ensures forall d :: d in eventByDevice ==> eventByDevice[d].device == d
  {
    eventByDevice := map[];
    for i := 0 to |order|
      invariant forall d :: d in eventByDevice <==> exists j :: 0 <= j < i && order[j].device == d
      invariant forall j :: 0 <= j < i ==> order[j].device in eventByDevice && eventByDevice[order[j].device] == order[j]
    {
      eventByDevice := eventByDevice[order[i].device := order[i]];
    }
  }

  /** The commands for the pipeline: for every returned version the data key, then the pointer. */
  method FillPipeline(order: seq<Event>, versions: seq<(Uuid, nat)>) returns (commands: seq<Command>)
    requires Ascending(order)
    ensures forall c :: c in commands <==>
              exists e, v :: e in order && (e.device, v) in versions && (c == DataCommand(e, v) || c == SetPointer(e.device, v))
  {
    var eventByDevice := IndexByDevice(order);
    commands := [];
    for k := 0 to |versions|
      invariant forall c :: c in commands <==> SentBy(order, versions[..k], c)
    {
      var (d, v) := versions[k];
      ghost var before := commands;
      if d in eventByDevice {
        assert eventByDevice[d] in order;
        commands := commands + [DataCommand(eventByDevice[d], v), SetPointer(d, v)];
      }
      forall c ensures c in commands <==> SentBy(order, versions[..k + 1], c) {
        SentByOneMore(order, versions, k, c);
        assert c in before <==> SentBy(order, versions[..k], c);
      }
    }
    assert versions[..|versions|] == versions;
    assert forall c :: c in commands <==> SentBy(order, versions, c);
  }

  ghost predicate SentBy(order: seq<Event>, versions: seq<(Uuid, nat)>, c: Command) {
    exists e, v :: e in order && (e.device, v) in versions && (c == DataCommand(e, v) || c == SetPointer(e.device, v))
  }

  /** The statements of the transaction, in their order. One that fails leaves the transaction nothing but a
      rollback: a failed claim returns no ids, and the commit then reports the rollback. */
  method Statements(claimed: set<Uuid>, latest: map<Uuid, Row>, history: multiset<Event>, events: seq<Event>)
    returns (done: bool, won: set<Uuid>, rows: map<Uuid, Row>, copied: multiset<Event>,
             order: seq<Event>, versions: seq<(Uuid, nat)>)
    ensures done <==> ApplyBatch(Store(claimed, latest, history), events).Some?
    ensures done ==>
              && ApplyBatch(Store(claimed, latest, history), events).value == Store(claimed + won, rows, copied)
              && InDeviceOrder(KeepLatest(Fresh(claimed, events)), order)
              && rows == UpsertAll(latest, order) && versions == ReturnedVersions(latest, order)
  {
    done, won := ClaimIds(claimed, events);
    rows, copied, order, versions := latest, history, [], [];
    if !done {
      return;
    }
    var accepted := KeepReturned(won, events);
    var deduped := Deduplicate(accepted);
    KeepLatestDevices(accepted);
    order := SortByDevice(deduped);
    done, rows, versions := UpsertRows(latest, order);
    if !done {
      assert !Storable(accepted) by {
        if Storable(accepted) {
          KeptAreStorable(accepted, order);
        }
      }
      return;
    }
    UpsertedIsBulk(latest, deduped, order);
    done, copied := CopyHistory(history, accepted);
  }

  /** The commands are those of the kept new events of the batch, in device order. */
  ghost predicate SendsFor(before: Store, events: seq<Event>, order: seq<Event>, sent: seq<Command>, latest: map<Uuid, Row>) {
    && InDeviceOrder(KeepLatest(Fresh(before.claimed, events)), order)
    && (set c | c in sent) == CacheCommands(before, order, latest)
  }

  lemma {:induction false} NothingToSend(store: Store, latest: map<Uuid, Row>)
    ensures SendsFor(store, [], [], [], latest)
  {
    assert InDeviceOrder(KeepLatest(Fresh(store.claimed, [])), []);
    assert (set c | c in []) == CacheCommands(store, [], latest);
  }

  lemma {:induction false} SentAreCacheCommands(store: Store, order: seq<Event>, commands: seq<Command>)
    requires Ascending(order)
    requires forall c :: c in commands <==> SentBy(order, ReturnedVersions(store.latest, order), c)
    ensures (set c | c in commands) == CacheCommands(store, order, UpsertAll(store.latest, order))
  {
    var rows := UpsertAll(store.latest, order);
    var versions := ReturnedVersions(store.latest, order);
    forall e | e in order
      ensures e.device in rows && rows[e.device] == UpsertRow(Lookup(store.latest, e.device), e)
      ensures forall v :: (e.device, v) in versions <==> Returned(store, e) && v == rows[e.device].version
    {
      UpsertAllAscending(store.latest, order, e.device);
      forall f | f in order && f.device == e.device ensures f == e {}
      forall v ensures (e.device, v) in versions <==> Returned(store, e) && v == rows[e.device].version {
        ReturnedExactly(store, order, e.device, v);
      }
    }
    forall c ensures c in commands <==> c in CacheCommands(store, order, rows) {
      if c in CacheCommands(store, order, rows) {
        var e :| e in order && Returned(store, e)
                 && (c == DataCommand(e, rows[e.device].version) || c == SetPointer(e.device, rows[e.device].version));
        assert (e.device, rows[e.device].version) in versions;
      }
    }
  }

  /** The pipeline of a committed batch. */
  method CommandsFor(order: seq<Event>, versions: seq<(Uuid, nat)>, ghost before: Store, ghost events: seq<Event>)
    returns (commands: seq<Command>)
    requires InDeviceOrder(KeepLatest(Fresh(before.claimed, events)), order)
    requires versions == ReturnedVersions(before.latest, order)
    ensures SendsFor(before, events, order, commands, UpsertAll(before.latest, order))
  {
    commands := FillPipeline(order, versions);
    SentAreCacheCommands(before, order, commands);
  }

  /** How the database treats the transaction: it fails somewhere, commits, or commits while the
      acknowledgement is lost. */
  datatype Fate = FailsBeforeCommit | Commits | AcknowledgementLost

  class ReadModel {
    var claimed: set<Uuid>
    var latest: map<Uuid, Row>
    var history: multiset<Event>
    var pipeline: seq<Command>

    constructor ()
      ensures Tables() == EmptyStore && pipeline == []
    {
      claimed, latest, history, pipeline := {}, map[], multiset{}, [];
    }

    ghost function Tables(): Store
      reads this
    {
      Store(claimed, latest, history)
    }

    /** The batch handler. The tables end as one atomic batch or stay as they were, and only an
        acknowledged commit reports success and sends cache commands for the rows it wrote. */
    method HandleTelemetryBatch(codec: Codec, payloads: seq<Option<Message>>, fate: Fate) returns (ok: bool)
      modifies this
      ensures DecodeAll(codec, payloads) == [] ==> ok && Tables() == old(Tables()) && pipeline == old(pipeline)
      ensures DecodeAll(codec, payloads) != [] ==>
                var after := ApplyBatch(old(Tables()), DecodeAll(codec, payloads));
                && (after.None? || fate.FailsBeforeCommit? ==> !ok && Tables() == old(Tables()))
                && (after.Some? && !fate.FailsBeforeCommit? ==> ok == fate.Commits? && Tables() == after.value)
      ensures AsSent(codec, old(latest), payloads, latest)
      ensures ok && DecodeAll(codec, payloads) != [] ==> OneAsSent(codec, old(Tables()), payloads, latest)
      ensures !ok ==> pipeline == old(pipeline)
      ensures ok ==>
                exists order, sent :: pipeline == old(pipeline) + sent
                  && SendsFor(old(Tables()), DecodeAll(codec, payloads), order, sent, latest)
    {
      ghost var before := Tables();
      StoredAsSent(codec, before, payloads);
      var events := ParseBatch(codec, payloads);
      if |events| == 0 {
        ok := true;
        NothingToSend(Tables(), latest);
        assert pipeline == pipeline + [];
        return;
      }
      var done, won, rows, copied, order, versions := Statements(claimed, latest, history, events);
      if !done || fate.FailsBeforeCommit? {
        return false;
      }
      var commands := CommandsFor(order, versions, before, events);
      claimed, latest, history := claimed + won, rows, copied;
      if fate.AcknowledgementLost? {
        return false;
      }
      pipeline := pipeline + commands;
      ok := true;
    }
  }
}
