/**
 The outbox relay. A worker locks up to ten of the oldest unpublished rows that nobody else has
 locked, publishes the ones it can decode one after the other, marks them, and commits. Rows that
 cannot be decoded stay where they are.
 */
module Outbox {
  import opened Wrappers
  import opened Collections

  const BATCH_LIMIT := 10

  /** A row; `message` is what decoding and marshalling make of it, None if they fail. */
  datatype Row = Row(message: Option<string>, published: bool)

  // ---------------------------------------------------------------- many workers

  /** A relay transaction: the positions it locked, how many it is through, and what it marked. */
  datatype Relay = Relay(locked: seq<nat>, done: nat, sent: bool, marked: set<nat>)

  /** The table in creation order, the messages on the topics by row, and the open transactions. */
  datatype State = State(rows: seq<Row>, kafka: set<nat>, open: map<nat, Relay>)

  datatype Action =
    | Insert(message: Option<string>)
    | Begin(worker: nat, locked: seq<nat>)
    | Publish(worker: nat, written: bool)
    | Mark(worker: nat)
    | Skip(worker: nat)
    | Rollback(worker: nat)
    | Commit(worker: nat)

  predicate IsFree(s: State, i: nat) {
    i < |s.rows| && !s.rows[i].published && forall w :: w in s.open ==> i !in s.open[w].locked
  }

  /** What the SKIP LOCKED query returns: the oldest free rows, at most ten. */
  predicate OldestFree(s: State, locked: seq<nat>) {
    && |locked| <= BATCH_LIMIT
    && (forall a, b :: 0 <= a < b < |locked| ==> locked[a] < locked[b])
    && (forall i :: i in locked ==> IsFree(s, i))
    && (|locked| < BATCH_LIMIT ==> forall i: nat | i < |s.rows| && IsFree(s, i) :: i in locked)
    && (forall i: nat, j | j in locked && i < j && IsFree(s, i) :: i in locked)
  }

  predicate AtRow(s: State, w: nat) {
    w in s.open && s.open[w].done < |s.open[w].locked| && s.open[w].locked[s.open[w].done] < |s.rows|
  }

  function Current(s: State, w: nat): nat
    requires AtRow(s, w)
  {
    s.open[w].locked[s.open[w].done]
  }

  predicate Enabled(s: State, a: Action) {
    match a
    case Insert(_) => true
    case Begin(w, locked) => w !in s.open && OldestFree(s, locked)
    case Publish(w, _) => AtRow(s, w) && !s.open[w].sent && s.rows[Current(s, w)].message.Some?
    case Mark(w) => AtRow(s, w) && s.open[w].sent
    case Skip(w) => AtRow(s, w) && !s.open[w].sent && s.rows[Current(s, w)].message.None?
    case Rollback(w) => w in s.open
    case Commit(w) => w in s.open && s.open[w].done == |s.open[w].locked|
  }

  /** A write may reach the topic although the worker sees an error; the error ends the transaction, so
      `written` without success is a publication followed by a rollback. */
  function Apply(s: State, a: Action): State
    requires Enabled(s, a)
  {
    match a
    case Insert(m) => s.(rows := s.rows + [Row(m, false)])
    case Begin(w, locked) => s.(open := s.open[w := Relay(locked, 0, false, {})])
    case Publish(w, written) =>
      if written then s.(kafka := s.kafka + {Current(s, w)}, open := s.open[w := s.open[w].(sent := true)])
      else s.(open := s.open - {w})
    case Mark(w) =>
      s.(open := s.open[w := s.open[w].(done := s.open[w].done + 1, sent := false, marked := s.open[w].marked + {Current(s, w)})])
    case Skip(w) => s.(open := s.open[w := s.open[w].(done := s.open[w].done + 1)])
    case Rollback(w) => s.(open := s.open - {w})
    case Commit(w) =>
      s.(rows := seq(|s.rows|, i requires 0 <= i < |s.rows| =>
                       if i in s.open[w].marked then s.rows[i].(published := true) else s.rows[i]),
         open := s.open - {w})
  }

  predicate RelayOk(s: State, w: nat)
    requires w in s.open
  {
    var r := s.open[w];
    && r.done <= |r.locked|
    && r.marked <= s.kafka
    && (forall i :: i in r.marked ==> exists k :: 0 <= k < r.done && r.locked[k] == i)
    && (r.sent ==> r.done < |r.locked| && r.locked[r.done] in s.kafka)
    && (forall i :: i in r.locked ==> i < |s.rows| && !s.rows[i].published)
    && (forall a, b :: 0 <= a < b < |r.locked| ==> r.locked[a] < r.locked[b])
  }

  /** Published rows are on the topic, and no row is in two hands. */
  predicate Inv(s: State) {
    && (forall i :: 0 <= i < |s.rows| && s.rows[i].published ==> i in s.kafka)
    && (forall w :: w in s.open ==> RelayOk(s, w))
    && (forall v, w, i :: v in s.open && w in s.open && v != w && i in s.open[v].locked ==> i !in s.open[w].locked)
  }

  lemma {:induction false} MarkKeepsInv(s: State, w: nat)
    requires Inv(s) && Enabled(s, Mark(w))
    ensures Inv(Apply(s, Mark(w)))
  {
    var s' := Apply(s, Mark(w));
    var r := s'.open[w];
    forall i | i in r.marked ensures exists k :: 0 <= k < r.done && r.locked[k] == i {
      if i in s.open[w].marked {
        var k :| 0 <= k < s.open[w].done && s.open[w].locked[k] == i;
      } else {
        assert r.locked[s.open[w].done] == i;
      }
    }
    forall v | v in s'.open ensures RelayOk(s', v) {
      assert RelayOk(s, v);
    }
  }

  lemma {:induction false} SkipKeepsInv(s: State, w: nat)
    requires Inv(s) && Enabled(s, Skip(w))
    ensures Inv(Apply(s, Skip(w)))
  {
    var s' := Apply(s, Skip(w));
    var r := s'.open[w];
    assert RelayOk(s, w);
    forall i | i in r.marked ensures exists k :: 0 <= k < r.done && r.locked[k] == i {
      var k :| 0 <= k < s.open[w].done && s.open[w].locked[k] == i;
    }
    forall v | v in s'.open ensures RelayOk(s', v) {
      assert RelayOk(s, v);
    }
  }

  lemma {:induction false} CommitKeepsInv(s: State, w: nat)
    requires Inv(s) && Enabled(s, Commit(w))
    ensures Inv(Apply(s, Commit(w)))
  {
    var s' := Apply(s, Commit(w));
    assert RelayOk(s, w);
    forall v | v in s'.open ensures RelayOk(s', v) {
      assert RelayOk(s, v);
      forall i | i in s.open[w].marked ensures i in s.open[w].locked {}
    }
  }

  lemma {:induction false} BeginKeepsInv(s: State, w: nat, locked: seq<nat>)
    requires Inv(s) && Enabled(s, Begin(w, locked))
    ensures Inv(Apply(s, Begin(w, locked)))
  {
    var s' := Apply(s, Begin(w, locked));
    forall v | v in s.open ensures RelayOk(s', v) {
      assert RelayOk(s, v);
    }
  }

  lemma {:induction false} PublishKeepsInv(s: State, w: nat, written: bool)
    requires Inv(s) && Enabled(s, Publish(w, written))
    ensures Inv(Apply(s, Publish(w, written)))
  {
    var s' := Apply(s, Publish(w, written));
    forall v | v in s'.open ensures RelayOk(s', v) {
      assert RelayOk(s, v);
    }
  }

  lemma {:induction false} InsertOrRollbackKeepsInv(s: State, a: Action)
    requires Inv(s) && Enabled(s, a) && (a.Insert? || a.Rollback?)
    ensures Inv(Apply(s, a))
  {
    var s' := Apply(s, a);
    forall v | v in s'.open ensures RelayOk(s', v) {
      assert RelayOk(s, v);
    }
  }

  lemma {:induction false} ActionKeepsInv(s: State, a: Action)
    requires Inv(s) && Enabled(s, a)
    ensures Inv(Apply(s, a))
  {
    match a
    case Begin(w, locked) => BeginKeepsInv(s, w, locked);
    case Publish(w, written) => PublishKeepsInv(s, w, written);
    case Mark(w) => MarkKeepsInv(s, w);
    case Skip(w) => SkipKeepsInv(s, w);
    case Commit(w) => CommitKeepsInv(s, w);
    case Insert(_) => InsertOrRollbackKeepsInv(s, a);
    case Rollback(_) => InsertOrRollbackKeepsInv(s, a);
  }

  ghost predicate ValidRun(s: State, actions: seq<Action>)
    decreases |actions|
  {
    actions == [] || (Enabled(s, actions[0]) && ValidRun(Apply(s, actions[0]), actions[1..]))
  }

  function Run(s: State, actions: seq<Action>): State
    requires ValidRun(s, actions)
    decreases |actions|
  {
    if actions == [] then s else Run(Apply(s, actions[0]), actions[1..])
  }

  lemma {:induction false} RunsKeepInv(s: State, actions: seq<Action>)
    requires Inv(s) && ValidRun(s, actions)
    ensures Inv(Run(s, actions))
    decreases |actions|
  {
    if actions != [] {
      ActionKeepsInv(s, actions[0]);
      RunsKeepInv(Apply(s, actions[0]), actions[1..]);
    }
  }

  /** For any number of workers and any failures, a row that is committed as published has its message
      on the topic. */
  lemma {:induction false} PublishedRowsAreInKafka(actions: seq<Action>, i: nat)
    requires var start := State([], {}, map[]);
             ValidRun(start, actions) && i < |Run(start, actions).rows| && Run(start, actions).rows[i].published
    ensures i in Run(State([], {}, map[]), actions).kafka
  {
    RunsKeepInv(State([], {}, map[]), actions);
  }

  // ---------------------------------------------------------------- one worker, no failures

  /** The unpublished rows in creation order; true stands for a row that can be decoded. */
  type Waiting = seq<bool>

  function Cut(w: Waiting): nat {
    if |w| < BATCH_LIMIT then |w| else BATCH_LIMIT
  }

  /** The undecodable rows of a stretch; a batch leaves exactly these of its rows behind. */
  function Undecodable(w: Waiting): Waiting {
    if w == [] then [] else Undecodable(w[..|w| - 1]) + (if w[|w| - 1] then [] else [false])
  }

  function Decodable(w: Waiting): nat {
    if w == [] then 0 else Decodable(w[..|w| - 1]) + (if w[|w| - 1] then 1 else 0)
  }

  /** One batch without failures: the decodable ones among the ten oldest rows leave the queue. */
  function Batch(w: Waiting): Waiting {
    Undecodable(w[..Cut(w)]) + w[Cut(w)..]
  }

  function Batches(w: Waiting, n: nat): Waiting {
    if n == 0 then w else Batch(Batches(w, n - 1))
  }

  /** Undecodable rows older than the youngest decodable one: the rows that can stand in its way. */
  function InTheWay(w: Waiting): nat {
    if w == [] then 0
    else if w[|w| - 1] then |Undecodable(w)|
    else InTheWay(w[..|w| - 1])
  }

  lemma {:induction false} UndecodableConcat(a: Waiting, b: Waiting)
    ensures Undecodable(a + b) == Undecodable(a) + Undecodable(b)
    ensures Decodable(a + b) == Decodable(a) + Decodable(b)
  {
    if b == [] {
      assert a + b == a;
    } else {
      assert (a + b)[..|a + b| - 1] == a + b[..|b| - 1];
      UndecodableConcat(a, b[..|b| - 1]);
    }
  }

  lemma {:induction false} CountsAddUp(w: Waiting)
    ensures |Undecodable(w)| + Decodable(w) == |w|
    ensures Decodable(Undecodable(w)) == 0 && Undecodable(Undecodable(w)) == Undecodable(w)
  {
    if w != [] {
      var n := |w| - 1;
      CountsAddUp(w[..n]);
      if !w[n] {
        UndecodableConcat(Undecodable(w[..n]), [false]);
        assert [false][..0] == [];
      } else {
        assert Undecodable(w) == Undecodable(w[..n]);
      }
    }
  }

  /** Rows in the way of the youngest decodable row of a + b, when that row lies in b. */
  lemma {:induction false} InTheWayConcat(a: Waiting, b: Waiting)
    ensures Decodable(b) > 0 ==> InTheWay(a + b) == |Undecodable(a)| + InTheWay(b)
    ensures Decodable(b) == 0 ==> InTheWay(a + b) == InTheWay(a)
    ensures InTheWay(b) <= |Undecodable(b)|
  {
    if b == [] {
      assert a + b == a;
    } else {
      var n := |b| - 1;
      assert (a + b)[..|a + b| - 1] == a + b[..n];
      InTheWayConcat(a, b[..n]);
      UndecodableConcat(a, b);
    }
  }

  /** What one batch does to the two numbers that matter. */
  lemma {:induction false} BatchProgress(w: Waiting)
    ensures Decodable(w[Cut(w)..]) == 0 ==> Decodable(Batch(w)) == 0
    ensures Decodable(w[Cut(w)..]) > 0 ==>
              && InTheWay(Batch(w)) == InTheWay(w)
              && Decodable(Batch(w)) + BATCH_LIMIT <= Decodable(w) + InTheWay(w)
              && Decodable(Batch(w)) > 0
  {
    var a, b := w[..Cut(w)], w[Cut(w)..];
    assert w == a + b;
    UndecodableConcat(a, b);
    UndecodableConcat(Undecodable(a), b);
    CountsAddUp(a);
    InTheWayConcat(a, b);
    InTheWayConcat(Undecodable(a), b);
  }

  /** What n batches can take. */
  function Capacity(n: nat, each: nat): nat {
    if n == 0 then 0 else Capacity(n - 1, each) + each
  }

  lemma {:induction false} CapacityIsProduct(n: nat, each: nat)
    ensures Capacity(n, each) == n * each
  {
    if n > 0 {
      CapacityIsProduct(n - 1, each);
      OneMore(n - 1, each);
    }
  }

  lemma {:induction false} DrainStep(w: Waiting, n: nat, each: nat)
    requires n > 0 && each > 0 && InTheWay(w) + each == BATCH_LIMIT && Decodable(w) <= Capacity(n, each)
    ensures Decodable(Batch(w)) == 0 || (InTheWay(Batch(w)) + each == BATCH_LIMIT && Decodable(Batch(w)) <= Capacity(n - 1, each))
  {
    BatchProgress(w);
  }

  /** With fewer than ten rows in the way, n batches publish all decodable rows if each can take its share of
      them beside the rows in the way. */
  lemma {:induction false} BatchesDrain(w: Waiting, n: nat, each: nat)
    requires each > 0 && InTheWay(w) + each == BATCH_LIMIT && Decodable(w) <= Capacity(n, each)
    ensures Decodable(Batches(w, n)) == 0
    decreases n
  {
    if n > 0 {
      DrainStep(w, n, each);
      BatchesShift(w, n - 1);
      if Decodable(Batch(w)) == 0 {
        DrainedStays(Batch(w), n - 1);
      } else {
        BatchesDrain(Batch(w), n - 1, each);
      }
    }
  }

  lemma {:induction false} BatchesShift(w: Waiting, n: nat)
    ensures Batches(Batch(w), n) == Batches(w, n + 1)
  {
    if n > 0 {
      BatchesShift(w, n - 1);
    }
  }

  lemma {:induction false} DrainedStays(w: Waiting, n: nat)
    requires Decodable(w) == 0
    ensures Decodable(Batches(w, n)) == 0
  {
    if n > 0 {
      DrainedStays(w, n - 1);
      var v := Batches(w, n - 1);
      assert v == v[..Cut(v)] + v[Cut(v)..];
      UndecodableConcat(v[..Cut(v)], v[Cut(v)..]);
      BatchProgress(v);
    }
  }

  /** The bound: ceil(n / (10 - k)) batches publish everything that can be decoded. */
  lemma {:induction false} DrainsWithinBound(w: Waiting)
    requires InTheWay(w) < BATCH_LIMIT
    ensures Decodable(Batches(w, CeilDiv(Decodable(w), BATCH_LIMIT - InTheWay(w)))) == 0
  {
    CeilDivCovers(Decodable(w), BATCH_LIMIT - InTheWay(w));
    CapacityIsProduct(CeilDiv(Decodable(w), BATCH_LIMIT - InTheWay(w)), BATCH_LIMIT - InTheWay(w));
    BatchesDrain(w, CeilDiv(Decodable(w), BATCH_LIMIT - InTheWay(w)), BATCH_LIMIT - InTheWay(w));
  }

  /** Ten rows in the way reach beyond the batch, so the youngest decodable row does too. */
  lemma {:induction false} BlockedBeyondBatch(w: Waiting)
    requires InTheWay(w) >= BATCH_LIMIT
    ensures Decodable(w[Cut(w)..]) > 0
  {
    var a, b := w[..Cut(w)], w[Cut(w)..];
    assert w == a + b;
    InTheWayConcat(a, b);
    AllInTheWay(a);
  }

  /** Ten rows in the way block the youngest decodable row for ever. */
  lemma {:induction false} TenInTheWayBlock(w: Waiting, n: nat)
    requires InTheWay(w) >= BATCH_LIMIT
    ensures InTheWay(Batches(w, n)) >= BATCH_LIMIT && Decodable(Batches(w, n)) > 0
  {
    if n > 0 {
      TenInTheWayBlock(w, n - 1);
      BlockedBeyondBatch(Batches(w, n - 1));
      BatchProgress(Batches(w, n - 1));
    } else {
      SomethingIsBlocked(w);
    }
  }

  lemma {:induction false} SomethingIsBlocked(w: Waiting)
    requires InTheWay(w) > 0
    ensures Decodable(w) > 0
  {
    if !w[|w| - 1] {
      SomethingIsBlocked(w[..|w| - 1]);
    }
  }

  /** Rows in the way and the row they block: at most the whole stretch. */
  lemma {:induction false} AllInTheWay(w: Waiting)
    ensures InTheWay(w) < |w| || w == []
  {
    if w != [] {
      AllInTheWay(w[..|w| - 1]);
      CountsAddUp(w);
    }
  }

  /** Exactly when the relay gets through: the decodable rows are all published sooner or later if and
      only if fewer than ten undecodable rows are older than the youngest of them. */
  lemma {:induction false} DrainsIffFewInTheWay(w: Waiting)
    ensures (exists n :: Decodable(Batches(w, n)) == 0) <==> InTheWay(w) < BATCH_LIMIT
  {
    if InTheWay(w) < BATCH_LIMIT {
      DrainsWithinBound(w);
    } else {
      forall n ensures Decodable(Batches(w, n)) > 0 {
        TenInTheWayBlock(w, n);
      }
    }
  }

  const TenAndOne: Waiting := [false, false, false, false, false, false, false, false, false, false, true]

  /** Ten undecodable rows and a decodable one behind them: it is never published. */
  lemma {:induction false} TenAndOneNeverDrain(n: nat)
    ensures Decodable(Batches(TenAndOne, n)) > 0
  {
    var ten := TenAndOne[..10];
    AllUndecodable(ten);
    assert TenAndOne == ten + [true];
    UndecodableConcat(ten, [true]);
    assert [true][..0] == [];
    TenInTheWayBlock(TenAndOne, n);
  }

  lemma {:induction false} AllUndecodable(w: Waiting)
    requires forall i :: 0 <= i < |w| ==> !w[i]
    ensures Undecodable(w) == w
  {
    if w != [] {
      AllUndecodable(w[..|w| - 1]);
    }
  }

  // ---------------------------------------------------------------- arrivals

  /** Batches with rows arriving before each of them, youngest last. */
  function BatchesWith(w: Waiting, arrivals: seq<Waiting>): Waiting {
    if arrivals == [] then w
    else
      var n := |arrivals| - 1;
      Batch(BatchesWith(w, arrivals[..n]) + arrivals[n])
  }

  /** Younger rows change nothing for the older ones: the batch does to them what it does without the others. */
  lemma {:induction false} BatchOfOlder(w: Waiting, younger: Waiting)
    ensures |Batch(w)| <= |Batch(w + younger)| && Batch(w + younger)[..|Batch(w)|] == Batch(w)
  {
    var all := w + younger;
    if |w| >= BATCH_LIMIT {
      assert all[..Cut(all)] == w[..Cut(w)];
      assert all[Cut(all)..] == w[Cut(w)..] + younger;
      assert Batch(all) == Batch(w) + younger;
    } else {
      var k := Cut(all) - |w|;
      assert all[..Cut(all)] == w + younger[..k];
      assert w[..Cut(w)] == w && w[Cut(w)..] == [];
      UndecodableConcat(w, younger[..k]);
      assert Batch(all) == Batch(w) + (Undecodable(younger[..k]) + all[Cut(all)..]);
    }
  }

  lemma {:induction false} OlderComeFirst(w: Waiting, arrivals: seq<Waiting>)
    ensures |Batches(w, |arrivals|)| <= |BatchesWith(w, arrivals)|
    ensures BatchesWith(w, arrivals)[..|Batches(w, |arrivals|)|] == Batches(w, |arrivals|)
  {
    if arrivals != [] {
      var n := |arrivals| - 1;
      OlderComeFirst(w, arrivals[..n]);
      var older, all := Batches(w, n), BatchesWith(w, arrivals[..n]) + arrivals[n];
      assert all == older + all[|older|..];
      BatchOfOlder(older, all[|older|..]);
    }
  }

  /** The bound with rows arriving all the time: of the rows waiting at the start, what is left after
      ceil(n / (10 - k)) batches stands at the front of the queue and holds nothing decodable. */
  lemma {:induction false} DrainsDespiteArrivals(w: Waiting, arrivals: seq<Waiting>)
    requires InTheWay(w) < BATCH_LIMIT
    requires |arrivals| == CeilDiv(Decodable(w), BATCH_LIMIT - InTheWay(w))
    ensures var left := Batches(w, |arrivals|);
            && Decodable(left) == 0
            && |left| <= |BatchesWith(w, arrivals)| && BatchesWith(w, arrivals)[..|left|] == left
  {
    DrainsWithinBound(w);
    OlderComeFirst(w, arrivals);
  }

  // ---------------------------------------------------------------- the worker

  /** The queue of a table. */
  function WaitingOf(rows: seq<Row>): Waiting {
    if rows == [] then []
    else
      var last := rows[|rows| - 1];
      WaitingOf(rows[..|rows| - 1]) + (if last.published then [] else [last.message.Some?])
  }

  /** The row is among the ten oldest unpublished ones. */
  predicate Selected(rows: seq<Row>, i: nat) {
    i < |rows| && !rows[i].published && |WaitingOf(rows[..i])| < BATCH_LIMIT
  }

  /** The table after a committed batch. */
  function Relayed(rows: seq<Row>): seq<Row> {
    seq(|rows|, i requires 0 <= i < |rows| =>
      if Selected(rows, i) && rows[i].message.Some? then rows[i].(published := true) else rows[i])
  }

  lemma {:induction false} BatchLast(w: Waiting, b: bool)
    ensures Batch(w + [b]) == Batch(w) + (if |w| < BATCH_LIMIT && b then [] else [b])
  {
    if |w| < BATCH_LIMIT {
      assert (w + [b])[..Cut(w + [b])] == w + [b] && w[..Cut(w)] == w;
      UndecodableConcat(w, [b]);
      assert [b][..0] == [];
    } else {
      assert (w + [b])[..Cut(w + [b])] == w[..Cut(w)];
      assert (w + [b])[Cut(w)..] == w[Cut(w)..] + [b];
    }
  }

  /** A committed batch of the worker is one batch of the queue. */
  lemma {:induction false} RelayedIsBatch(rows: seq<Row>)
    ensures WaitingOf(Relayed(rows)) == Batch(WaitingOf(rows))
  {
    if rows != [] {
      var n := |rows| - 1;
      RelayedIsBatch(rows[..n]);
      forall i | 0 <= i < n ensures Relayed(rows)[i] == Relayed(rows[..n])[i] {
        assert rows[..n][..i] == rows[..i];
      }
      assert Relayed(rows)[..n] == Relayed(rows[..n]);
      BatchLast(WaitingOf(rows[..n]), rows[n].message.Some?);
      if rows[n].published {
        assert WaitingOf(rows) == WaitingOf(rows[..n]);
      }
    }
  }

  lemma {:induction false} WaitingGrows(rows: seq<Row>, i: nat, j: nat)
    requires i <= j <= |rows|
    ensures |WaitingOf(rows[..i])| <= |WaitingOf(rows[..j])|
  {
    if i < j {
      WaitingGrows(rows, i, j - 1);
      assert rows[..j][..j - 1] == rows[..j - 1];
    }
  }

  /** The rows among the picked ones that can be decoded. */
  function Decoded(rows: seq<Row>, picked: seq<nat>): seq<nat> {
    if picked == [] then []
    else
      var n := |picked| - 1;
      var i := picked[n];
      Decoded(rows, picked[..n]) + if i < |rows| && rows[i].message.Some? then [i] else []
  }

  /** All rows that a batch has to publish, in creation order and each once. */
  ghost predicate IsDue(rows: seq<Row>, due: seq<nat>) {
    && Ascending(due)
    && (forall i: nat :: i in due <==> Selected(rows, i) && rows[i].message.Some?)
  }

  /** Their messages. */
  function Texts(rows: seq<Row>, at: seq<nat>): seq<string> {
    seq(|at|, k requires 0 <= k < |at| =>
      if at[k] < |rows| && rows[at[k]].message.Some? then rows[at[k]].message.value else "")
  }

  predicate Ascending(s: seq<nat>) {
    forall a, b :: 0 <= a < b < |s| ==> s[a] < s[b]
  }

  lemma {:induction false} DecodedMembers(rows: seq<Row>, picked: seq<nat>, i: nat)
    ensures i in Decoded(rows, picked) <==> i in picked && i < |rows| && rows[i].message.Some?
  {
    if picked != [] {
      var n := |picked| - 1;
      DecodedMembers(rows, picked[..n], i);
      assert picked == picked[..n] + [picked[n]];
    }
  }

  lemma {:induction false} DecodedAscends(rows: seq<Row>, picked: seq<nat>)
    requires Ascending(picked)
    ensures Ascending(Decoded(rows, picked))
  {
    if picked != [] {
      var n := |picked| - 1;
      var before := Decoded(rows, picked[..n]);
      DecodedAscends(rows, picked[..n]);
      forall a | 0 <= a < |before| ensures before[a] < picked[n] {
        assert before[a] in before;
        DecodedMembers(rows, picked[..n], before[a]);
      }
    }
  }

  lemma {:induction false} DecodedIsDue(rows: seq<Row>, picked: seq<nat>)
    requires Ascending(picked) && forall i: nat :: i in picked <==> Selected(rows, i)
    ensures IsDue(rows, Decoded(rows, picked))
  {
    DecodedAscends(rows, picked);
    forall i: nat ensures i in Decoded(rows, picked) <==> Selected(rows, i) && rows[i].message.Some? {
      DecodedMembers(rows, picked, i);
    }
  }

  lemma {:induction false} PublishOneMore(rows: seq<Row>, picked: seq<nat>, k: nat)
    requires k < |picked| && picked[k] < |rows|
    ensures Texts(rows, Decoded(rows, picked[..k + 1])) ==
            Texts(rows, Decoded(rows, picked[..k])) +
            if rows[picked[k]].message.Some? then [rows[picked[k]].message.value] else []
  {
    assert picked[..k + 1][..k] == picked[..k];
  }

  /** The messages published so far are the first of those that are due. */
  lemma {:induction false} PublishedPrefix(rows: seq<Row>, picked: seq<nat>, k: nat)
    requires k <= |picked|
    ensures var m, due := |Decoded(rows, picked[..k])|, Decoded(rows, picked);
            m <= |due| && Texts(rows, Decoded(rows, picked[..k])) == Texts(rows, due[..m])
  {
    DecodedPrefix(rows, picked, k);
  }

  lemma {:induction false} DecodedPrefix(rows: seq<Row>, picked: seq<nat>, k: nat)
    requires k <= |picked|
    ensures Decoded(rows, picked[..k]) <= Decoded(rows, picked)
  {
    if k < |picked| {
      var n := |picked| - 1;
      DecodedPrefix(rows, picked[..n], k);
      assert picked[..n][..k] == picked[..k];
    } else {
      assert picked[..k] == picked;
    }
  }

  class OutboxWorker {
    var rows: seq<Row>
    var kafka: seq<string>

    constructor (rows: seq<Row>)
      ensures this.rows == rows && kafka == []
    {
      this.rows, kafka := rows, [];
    }

    /** The query: positions of the ten oldest unpublished rows. */
    method SelectBatch() returns (picked: seq<nat>)
      ensures forall i: nat :: i in picked <==> Selected(rows, i)
      ensures |picked| <= BATCH_LIMIT && Ascending(picked)
    {
      picked := [];
      var i := 0;
      while i < |rows| && |picked| < BATCH_LIMIT
        invariant 0 <= i <= |rows|
        invariant |picked| == |WaitingOf(rows[..i])| <= BATCH_LIMIT
        invariant forall k: nat :: k in picked <==> k < i && Selected(rows, k)
        invariant Ascending(picked)
      {
        assert rows[..i + 1][..i] == rows[..i];
        if !rows[i].published {
          assert forall a :: 0 <= a < |picked| ==> picked[a] in picked;
          picked := picked + [i];
        }
        i := i + 1;
      }
      forall k | i <= k < |rows| ensures !Selected(rows, k) {
        WaitingGrows(rows, i, k);
      }
    }

    /** Publishes the picked rows in order; `writes[k]` tells how the k-th write ends. The first error ends it. */
    method PublishPicked(picked: seq<nat>, writes: seq<bool>) returns (ok: bool, marked: set<nat>)
      requires |writes| >= |picked| && forall i :: i in picked ==> i < |rows|
      modifies this`kafka
      ensures ok ==> kafka == old(kafka) + Texts(rows, Decoded(rows, picked))
      ensures ok ==> forall i: nat :: i in marked <==> i in picked && i < |rows| && rows[i].message.Some?
      ensures !ok ==> exists m :: 0 <= m <= |Decoded(rows, picked)| && kafka == old(kafka) + Texts(rows, Decoded(rows, picked)[..m])
      ensures (forall k :: 0 <= k < |writes| ==> writes[k]) ==> ok
    {
      ok, marked := false, {};
      for k := 0 to |picked|
        invariant kafka == old(kafka) + Texts(rows, Decoded(rows, picked[..k]))
        invariant forall i: nat :: i in marked <==> i in picked[..k] && i < |rows| && rows[i].message.Some?
      {
        var i := picked[k];
        assert i in picked;
        assert picked[..k + 1] == picked[..k] + [i];
        PublishOneMore(rows, picked, k);
        if rows[i].message.Some? {
          if !writes[k] {
            PublishedPrefix(rows, picked, k);
            return;
          }
          kafka := kafka + [rows[i].message.value];
          marked := marked + {i};
        }
      }
      assert picked[..|picked|] == picked;
      ok := true;
    }

    /** One batch. An error abandons the transaction, after which the first of the messages are on the topic
        and no row is marked. */
    method ProcessBatch(writes: seq<bool>, commits: bool) returns (ok: bool, ghost due: seq<nat>)
      requires |writes| >= BATCH_LIMIT
      modifies this
      ensures ok ==> rows == Relayed(old(rows))
      ensures ok ==> WaitingOf(rows) == Batch(old(WaitingOf(rows)))
      ensures !ok ==> rows == old(rows)
      ensures (forall k :: 0 <= k < |writes| ==> writes[k]) && commits ==> ok
      ensures IsDue(old(rows), due)
      ensures ok ==> kafka == old(kafka) + Texts(old(rows), due)
      ensures !ok ==> exists m :: 0 <= m <= |due| && kafka == old(kafka) + Texts(old(rows), due[..m])
    {
      var picked := SelectBatch();
      due := Decoded(rows, picked);
      DecodedIsDue(rows, picked);
      var marked;
      ok, marked := PublishPicked(picked, writes);
      if !ok || !commits {
        assert due[..|due|] == due;
        return false, due;
      }
      RelayedIsBatch(rows);
      rows := seq(|rows|, i requires 0 <= i < |rows| reads this => if i in marked then rows[i].(published := true) else rows[i]);
      assert rows == Relayed(old(rows));
      ok := true;
    }
  }
}
