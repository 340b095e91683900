/**
 Cursor pagination of a tenant's devices, newest first. Creation times count microseconds, as the database
 does; a cursor is an ISO text and so holds whole milliseconds only. The table does not change during a walk.
 */
module CursorPaging {
  import opened Wrappers
  import opened Collections

  datatype Row = Row(id: nat, createdAt: int)

  datatype Page = Page(items: seq<Row>, hasNextPage: bool, endCursor: Option<int>)

  function Millisecond(t: int): int {
    t / 1000
  }

  /** The time a cursor stands for, in microseconds. */
  function Cursor(r: Row): int {
    Millisecond(r.createdAt) * 1000
  }

  /** ORDER BY created_at DESC. */
  predicate NewestFirst(rows: seq<Row>) {
    forall i, j :: 0 <= i < j < |rows| ==> rows[i].createdAt >= rows[j].createdAt
  }

  /** WHERE created_at < cursor, in table order. */
  function Older(rows: seq<Row>, cursor: int): (older: seq<Row>)
    ensures |older| <= |rows|
  {
    if rows == [] then []
    else (if rows[0].createdAt < cursor then [rows[0]] else []) + Older(rows[1..], cursor)
  }

  function Matching(rows: seq<Row>, after: Option<int>): seq<Row> {
    if after.None? then rows else Older(rows, after.value)
  }

  function Limit(rows: seq<Row>, n: nat): seq<Row> {
    if |rows| <= n then rows else rows[..n]
  }

  /** One request: fetch one row more than asked for, to learn whether there is another page. */
  function GetDevicesWithCursor(rows: seq<Row>, first: nat, after: Option<int>): Page {
    var fetched := Limit(Matching(rows, after), first + 1);
    var items := if |fetched| > first then fetched[..first] else fetched;
    Page(items, |fetched| > first, if |items| > 0 then Some(Cursor(items[|items| - 1])) else None)
  }

  // ---------------------------------------------------------------- a sorted table

  predicate AllBelow(rows: seq<Row>, bound: int) {
    forall i :: 0 <= i < |rows| ==> rows[i].createdAt < bound
  }

  predicate NoneBelow(rows: seq<Row>, bound: int) {
    forall i :: 0 <= i < |rows| ==> rows[i].createdAt >= bound
  }

  lemma {:induction false} OlderOfAll(rows: seq<Row>, cursor: int)
    requires AllBelow(rows, cursor)
    ensures Older(rows, cursor) == rows
  {
    if rows != [] {
      OlderOfAll(rows[1..], cursor);
    }
  }

  lemma {:induction false} OlderSkips(newer: seq<Row>, rows: seq<Row>, cursor: int)
    requires NoneBelow(newer, cursor)
    ensures Older(newer + rows, cursor) == Older(rows, cursor)
  {
    if newer == [] {
      assert newer + rows == rows;
    } else {
      assert (newer + rows)[1..] == newer[1..] + rows;
      OlderSkips(newer[1..], rows, cursor);
    }
  }

  /** In a sorted table the rows older than a cursor are a suffix. */
  lemma {:induction false} OlderIsSuffix(rows: seq<Row>, cursor: int) returns (k: nat)
    requires NewestFirst(rows)
    ensures k <= |rows| && Older(rows, cursor) == rows[k..] && AllBelow(rows[k..], cursor)
    ensures k > 0 ==> rows[0].createdAt >= cursor
  {
    if rows == [] || rows[0].createdAt < cursor {
      k := 0;
      assert rows[0..] == rows;
      OlderOfAll(rows, cursor);
    } else {
      k := OlderIsSuffix(rows[1..], cursor);
      assert rows[1..][k..] == rows[k + 1..];
      k := k + 1;
    }
  }

  lemma {:induction false} CursorAtMost(r: Row)
    ensures Cursor(r) <= r.createdAt
    ensures forall t: int :: t < Cursor(r) <==> Millisecond(t) < Millisecond(r.createdAt)
  {
  }

  /** Older rows of a table are older rows of what is left after the page. */
  lemma {:induction false} NextPageStartsLater(rows: seq<Row>, start: nat, first: nat)
    requires NewestFirst(rows) && first >= 1 && start + first < |rows|
    ensures var cursor := Cursor(rows[start + first - 1]);
            Older(rows, cursor) == Older(rows[start + first..], cursor)
    ensures |Older(rows, Cursor(rows[start + first - 1]))| < |rows[start..]|
  {
    var p := start + first;
    CursorAtMost(rows[p - 1]);
    OlderSkips(rows[..p], rows[p..], Cursor(rows[p - 1]));
    assert rows == rows[..p] + rows[p..];
  }

  // ---------------------------------------------------------------- walking

  /** Following endCursor until there is no next page. */
  function Walk(rows: seq<Row>, first: nat, after: Option<int>): (pages: seq<Page>)
    requires NewestFirst(rows) && first >= 1
    ensures pages != []
    decreases |Matching(rows, after)|
  {
    var page := GetDevicesWithCursor(rows, first, after);
    if page.hasNextPage then
      WalkShrinks(rows, first, after);
      [page] + Walk(rows, first, page.endCursor)
    else [page]
  }

  lemma {:induction false} WalkShrinks(rows: seq<Row>, first: nat, after: Option<int>)
    requires NewestFirst(rows) && first >= 1 && GetDevicesWithCursor(rows, first, after).hasNextPage
    ensures |Matching(rows, GetDevicesWithCursor(rows, first, after).endCursor)| < |Matching(rows, after)|
  {
    var start := 0;
    if after.Some? {
      start := OlderIsSuffix(rows, after.value);
    }
    assert rows[0..] == rows;
    assert Matching(rows, after)[first - 1] == rows[start + first - 1];
    NextPageStartsLater(rows, start, first);
  }

  function Items(pages: seq<Page>): seq<Row> {
    if pages == [] then [] else pages[0].items + Items(pages[1..])
  }

  /** What is left to read after a full page. */
  function Next(left: seq<Row>, first: nat): (next: seq<Row>)
    requires 1 <= first < |left|
    ensures |next| < |left|
  {
    Older(left[first..], Cursor(left[first - 1]))
  }

  /** The rows a walk visits, as a function of the rows still to read. */
  function Visited(left: seq<Row>, first: nat): seq<Row>
    requires first >= 1
    decreases |left|
  {
    if |left| <= first then left else left[..first] + Visited(Next(left, first), first)
  }

  function PageCount(left: seq<Row>, first: nat): nat
    requires first >= 1
    decreases |left|
  {
    if |left| <= first then 1 else 1 + PageCount(Next(left, first), first)
  }

  lemma {:induction false} WalkVisits(rows: seq<Row>, first: nat, after: Option<int>)
    requires NewestFirst(rows) && first >= 1
    ensures Items(Walk(rows, first, after)) == Visited(Matching(rows, after), first)
    ensures |Walk(rows, first, after)| == PageCount(Matching(rows, after), first)
    decreases |Matching(rows, after)|
  {
    var left := Matching(rows, after);
    var page := GetDevicesWithCursor(rows, first, after);
    if page.hasNextPage {
      WalkShrinks(rows, first, after);
      WalkVisits(rows, first, page.endCursor);
      OnePage(rows, first, after);
      assert ([page] + Walk(rows, first, page.endCursor))[1..] == Walk(rows, first, page.endCursor);
    } else {
      assert [page][1..] == [];
      assert page.items == left;
    }
  }

  lemma {:induction false} OnePage(rows: seq<Row>, first: nat, after: Option<int>)
    requires NewestFirst(rows) && first >= 1 && GetDevicesWithCursor(rows, first, after).hasNextPage
    ensures var left, page := Matching(rows, after), GetDevicesWithCursor(rows, first, after);
            && |left| > first && page.items == left[..first]
            && page.endCursor == Some(Cursor(left[first - 1]))
            && Matching(rows, page.endCursor) == Next(left, first)
  {
    var left := Matching(rows, after);
    var start := 0;
    if after.Some? {
      start := OlderIsSuffix(rows, after.value);
    }
    assert rows[0..] == rows;
    assert left == rows[start..];
    assert left[first..] == rows[start + first..];
    assert left[..first + 1][..first] == left[..first];
    NextPageStartsLater(rows, start, first);
  }

  // ---------------------------------------------------------------- what a walk visits

  lemma {:induction false} OlderFromRows(rows: seq<Row>, cursor: int)
    ensures multiset(Older(rows, cursor)) <= multiset(rows)
  {
    if rows != [] {
      OlderFromRows(rows[1..], cursor);
      assert rows == [rows[0]] + rows[1..];
    }
  }

  lemma {:induction false} PageAndRest(left: seq<Row>, first: nat, rest: seq<Row>)
    requires first <= |left| && multiset(rest) <= multiset(left[first..])
    ensures multiset(left[..first] + rest) <= multiset(left)
  {
    assert left == left[..first] + left[first..];
  }

  /** No row is visited more often than it is in the table: a walk never repeats a row. */
  lemma {:induction false} VisitedFromRows(left: seq<Row>, first: nat)
    requires first >= 1
    ensures multiset(Visited(left, first)) <= multiset(left)
    decreases |left|
  {
    if |left| > first {
      var next := Next(left, first);
      VisitedFromRows(next, first);
      OlderFromRows(left[first..], Cursor(left[first - 1]));
      PageAndRest(left, first, Visited(next, first));
    }
  }

  lemma {:induction false} NeverRepeats(rows: seq<Row>, first: nat, r: Row)
    requires NewestFirst(rows) && first >= 1 && multiset(rows)[r] <= 1
    ensures multiset(Items(Walk(rows, first, None)))[r] <= 1
  {
    WalkVisits(rows, first, None);
    VisitedFromRows(rows, first);
  }

  lemma {:induction false} VisitedBelow(left: seq<Row>, first: nat, bound: int)
    requires first >= 1 && NewestFirst(left) && AllBelow(left, bound)
    ensures AllBelow(Visited(left, first), bound)
    decreases |left|
  {
    if |left| > first {
      NextIsSorted(left, first);
      VisitedBelow(Next(left, first), first, bound);
    }
  }

  /** What comes after a full page: sorted, and older than the page's cursor. */
  lemma {:induction false} NextIsSorted(left: seq<Row>, first: nat)
    requires NewestFirst(left) && 1 <= first < |left|
    ensures NewestFirst(Next(left, first)) && AllBelow(Next(left, first), Cursor(left[first - 1]))
    ensures NewestFirst(left[..first]) && NoneBelow(left[..first], Cursor(left[first - 1]))
    ensures forall bound :: AllBelow(left, bound) ==> AllBelow(left[..first], bound) && AllBelow(Next(left, first), bound)
  {
    var k := OlderIsSuffix(left[first..], Cursor(left[first - 1]));
    CursorAtMost(left[first - 1]);
  }

  lemma {:induction false} SortedConcat(newer: seq<Row>, older: seq<Row>, cursor: int)
    requires NewestFirst(newer) && NewestFirst(older) && NoneBelow(newer, cursor) && AllBelow(older, cursor)
    ensures NewestFirst(newer + older)
  {
  }

  /** Walks go from newer to older. */
  lemma {:induction false} VisitedIsSorted(left: seq<Row>, first: nat)
    requires first >= 1 && NewestFirst(left)
    ensures NewestFirst(Visited(left, first))
    decreases |left|
  {
    if |left| > first {
      var cursor, next := Cursor(left[first - 1]), Next(left, first);
      NextIsSorted(left, first);
      VisitedIsSorted(next, first);
      VisitedBelow(next, first, cursor);
      SortedConcat(left[..first], Visited(next, first), cursor);
    }
  }

  // ---------------------------------------------------------------- when a walk is complete

  /** The rows on both sides of a page boundary were created in different milliseconds. */
  predicate Separated(rows: seq<Row>, p: nat)
    requires 0 < p < |rows|
  {
    Millisecond(rows[p].createdAt) < Millisecond(rows[p - 1].createdAt)
  }

  predicate AllSeparated(rows: seq<Row>, first: nat)
    requires first >= 1
  {
    forall p :: 0 < p < |rows| && p % first == 0 ==> Separated(rows, p)
  }

  lemma {:induction false} ShiftMod(p: int, first: nat)
    requires first >= 1
    ensures (p + first) % first == p % first
  {
    DivUnique(p + first, first, p / first + 1, p % first);
  }

  lemma {:induction false} SeparatedRest(rows: seq<Row>, first: nat)
    requires first >= 1 && |rows| > first
    ensures AllSeparated(rows, first) <==> Separated(rows, first) && AllSeparated(rows[first..], first)
  {
    ShiftMod(0, first);
    assert first % first == 0 by { DivUnique(first, first, 1, 0); }
    if AllSeparated(rows, first) {
      forall p | 0 < p < |rows[first..]| && p % first == 0 ensures Separated(rows[first..], p) {
        ShiftMod(p, first);
        assert Separated(rows, p + first);
      }
    }
    if Separated(rows, first) && AllSeparated(rows[first..], first) {
      forall p | 0 < p < |rows| && p % first == 0 ensures Separated(rows, p) {
        if p > first {
          ShiftMod(p - first, first);
          assert Separated(rows[first..], p - first);
        } else {
          AtLeastFirst(p, first);
        }
      }
    }
  }

  /** Nothing is skipped at the first boundary exactly when it separates milliseconds. */
  lemma {:induction false} BoundaryKeepsAll(left: seq<Row>, first: nat)
    requires NewestFirst(left) && first >= 1 && |left| > first
    ensures Separated(left, first) ==> Next(left, first) == left[first..]
    ensures !Separated(left, first) ==> |Next(left, first)| < |left[first..]|
  {
    CursorAtMost(left[first - 1]);
    assert left[first..][0] == left[first];
    if Separated(left, first) {
      OlderOfAll(left[first..], Cursor(left[first - 1]));
    }
  }

  /** The same condition, page by page. */
  predicate PagesSeparated(left: seq<Row>, first: nat)
    requires first >= 1
  {
    |left| <= first || (Separated(left, first) && PagesSeparated(left[first..], first))
  }

  lemma {:induction false} PageByPage(left: seq<Row>, first: nat)
    requires first >= 1
    ensures PagesSeparated(left, first) <==> AllSeparated(left, first)
    decreases |left|
  {
    if |left| > first {
      SeparatedRest(left, first);
      PageByPage(left[first..], first);
    } else {
      forall p | 0 < p < |left| ensures p % first != 0 {
        DivUnique(p, first, 0, p);
      }
    }
  }

  lemma {:induction false} AtLeastFirst(p: int, first: nat)
    requires first >= 1 && 0 < p && p % first == 0
    ensures p >= first
  {
    if p < first {
      DivUnique(p, first, 0, p);
    }
  }

  lemma {:induction false} VisitedLength(left: seq<Row>, first: nat)
    requires first >= 1
    ensures |Visited(left, first)| <= |left|
    decreases |left|
  {
    if |left| > first {
      VisitedLength(Next(left, first), first);
    }
  }

  lemma {:induction false} NothingSkipped(left: seq<Row>, first: nat)
    requires 1 <= first < |left| && Next(left, first) == left[first..] && Visited(left[first..], first) == left[first..]
    ensures Visited(left, first) == left
  {
    assert left == left[..first] + left[first..];
  }

  lemma {:induction false} SeparatedIsComplete(left: seq<Row>, first: nat)
    requires NewestFirst(left) && first >= 1 && PagesSeparated(left, first)
    ensures Visited(left, first) == left
    decreases |left|
  {
    if |left| > first {
      BoundaryKeepsAll(left, first);
      NextIsSorted(left, first);
      SeparatedIsComplete(left[first..], first);
      NothingSkipped(left, first);
    }
  }

  lemma {:induction false} UnseparatedIsShorter(left: seq<Row>, first: nat)
    requires NewestFirst(left) && first >= 1 && !PagesSeparated(left, first)
    ensures |Visited(left, first)| < |left|
    decreases |left|
  {
    BoundaryKeepsAll(left, first);
    if Separated(left, first) {
      UnseparatedIsShorter(left[first..], first);
    } else {
      VisitedLength(Next(left, first), first);
    }
  }

  /** A walk visits every row of the table once, newest first, exactly when every page boundary falls between
      two milliseconds; distinct milliseconds are enough, but not needed. */
  lemma {:induction false} WalkIsCompleteIff(rows: seq<Row>, first: nat)
    requires NewestFirst(rows) && first >= 1
    ensures Items(Walk(rows, first, None)) == rows <==> AllSeparated(rows, first)
    ensures NewestFirst(Items(Walk(rows, first, None)))
  {
    WalkVisits(rows, first, None);
    PageByPage(rows, first);
    if AllSeparated(rows, first) {
      SeparatedIsComplete(rows, first);
    } else {
      UnseparatedIsShorter(rows, first);
    }
    VisitedIsSorted(rows, first);
  }

  lemma {:induction false} CompletePageCount(left: seq<Row>, first: nat)
    requires NewestFirst(left) && first >= 1 && PagesSeparated(left, first)
    ensures PageCount(left, first) == if left == [] then 1 else CeilDiv(|left|, first)
    decreases |left|
  {
    if |left| > first {
      BoundaryKeepsAll(left, first);
      CompletePageCount(left[first..], first);
      CeilStep(|left|, first);
    } else if left != [] {
      CeilOne(|left|, first);
    }
  }

  /** A complete walk takes ceil(n / first) pages, and one page for an empty table. */
  lemma {:induction false} WalkPageCount(rows: seq<Row>, first: nat)
    requires NewestFirst(rows) && first >= 1 && AllSeparated(rows, first)
    ensures |Walk(rows, first, None)| == if rows == [] then 1 else CeilDiv(|rows|, first)
  {
    WalkVisits(rows, first, None);
    PageByPage(rows, first);
    CompletePageCount(rows, first);
  }

  lemma {:induction false} DistinctMillisecondsSuffice(rows: seq<Row>, first: nat)
    requires NewestFirst(rows) && first >= 1
    requires forall i, j :: 0 <= i < j < |rows| ==> Millisecond(rows[i].createdAt) != Millisecond(rows[j].createdAt)
    ensures Items(Walk(rows, first, None)) == rows
    ensures |Walk(rows, first, None)| == if rows == [] then 1 else CeilDiv(|rows|, first)
  {
    forall p | 0 < p < |rows| ensures Separated(rows, p) {
      assert rows[p - 1].createdAt >= rows[p].createdAt;
    }
    WalkIsCompleteIff(rows, first);
    WalkPageCount(rows, first);
  }

  /** Two devices created in the same millisecond: the second one is never shown with pages of one. */
  lemma {:induction false} SameMillisecondIsSkipped()
    ensures Items(Walk([Row(1, 1700), Row(2, 1300)], 1, None)) == [Row(1, 1700)]
  {
    var rows := [Row(1, 1700), Row(2, 1300)];
    WalkVisits(rows, 1, None);
    assert rows[1..] == [Row(2, 1300)];
    assert Older([Row(2, 1300)], 1000) == [];
    assert Visited(rows, 1) == rows[..1] + Visited([], 1);
  }
}
