/** Keyset pagination of incidents and of incident timelines: pages are cut from the descending
    (time, id) order at a cursor, under a snapshot time fixed by the first page. */
module Paging {
  import opened Basics

  /** One row as a list query sees it: the time it is ordered by, the time the snapshot is compared
      with, and whether it passes the filter. Incidents use `updated_at` for both times; timeline
      entries are ordered by `occurred_at` and compared by `created_at`. */
  datatype Row = Row(id: nat, at: Time, stampedAt: Time, matches: bool)

  datatype Position = Position(at: Time, id: nat)

  function PositionOf(r: Row): Position {
    Position(r.at, r.id)
  }

  /** The row comparison of the query: by time, then by identifier. */
  predicate Below(a: Position, b: Position) {
    a.at < b.at || (a.at == b.at && a.id < b.id)
  }

  predicate Descending(rows: seq<Row>) {
    forall i, j :: 0 <= i < j < |rows| ==> Below(PositionOf(rows[j]), PositionOf(rows[i]))
  }

  ghost predicate UniqueIds(table: seq<Row>) {
    forall i, j :: 0 <= i < j < |table| ==> table[i].id != table[j].id
  }

  /** The WHERE clause. */
  predicate Eligible(r: Row, snapshot: Time, cursor: Option<Position>) {
    r.stampedAt <= snapshot && r.matches && (cursor.Some? ==> Below(PositionOf(r), cursor.value))
  }

  function Place(r: Row, sorted: seq<Row>): seq<Row> {
    if sorted == [] then [r]
    else if Below(PositionOf(sorted[0]), PositionOf(r)) then [r] + sorted
    else [sorted[0]] + Place(r, sorted[1..])
  }

  /** The query without its limit: the eligible rows in descending order. */
  function Listing(table: seq<Row>, snapshot: Time, cursor: Option<Position>): seq<Row> {
    if table == [] then []
    else
      var rest := Listing(table[1..], snapshot, cursor);
      if Eligible(table[0], snapshot, cursor) then Place(table[0], rest) else rest
  }

  datatype Page = Page(items: seq<Row>, next: Option<Position>)

  const DEFAULT_LIMIT := 50
  const MAXIMUM_LIMIT := 200

  function NormalLimit(limit: int): (r: nat)
    ensures 1 <= r <= 200 && (1 <= limit <= 200 ==> r == limit)
    ensures (limit <= 0 ==> r == 50) && (limit > 200 ==> r == 200)
  {
    if limit <= 0 then DEFAULT_LIMIT else if limit > MAXIMUM_LIMIT then MAXIMUM_LIMIT else limit
  }

  function Take(rows: seq<Row>, n: nat): seq<Row> {
    if |rows| > n then rows[..n] else rows
  }

  /** `Incidents` and `Timeline`: fetch one row too many, and cut a cursor when there is one. */
  function FetchPage(table: seq<Row>, snapshot: Time, cursor: Option<Position>, limit: nat): Page
    requires limit >= 1
  {
    var fetched := Take(Listing(table, snapshot, cursor), limit + 1);
    if |fetched| > limit then Page(fetched[..limit], Some(PositionOf(fetched[limit - 1]))) else Page(fetched, None)
  }

  // ---------------------------------------------------------------------------
  // The listing
  // ---------------------------------------------------------------------------

  lemma {:induction false} PlaceHolds(r: Row, sorted: seq<Row>)
    requires Descending(sorted) && forall i :: 0 <= i < |sorted| ==> sorted[i].id != r.id
    ensures Descending(Place(r, sorted))
    ensures forall x :: x in Place(r, sorted) <==> x == r || x in sorted
    ensures |Place(r, sorted)| == |sorted| + 1
  {
    if sorted != [] && !Below(PositionOf(sorted[0]), PositionOf(r)) {
      PlaceHolds(r, sorted[1..]);
      var placed := Place(r, sorted[1..]);
      forall j | 0 <= j < |placed|
        ensures Below(PositionOf(placed[j]), PositionOf(sorted[0]))
      {
        assert placed[j] == r || placed[j] in sorted[1..];
      }
    }
  }

  /** The row was stamped by the snapshot, passes the filter and is older than the cursor, or as old
      with a smaller identifier. */
  predicate Belongs(r: Row, snapshot: Time, cursor: Option<Position>) {
    && r.stampedAt <= snapshot && r.matches
    && (cursor.Some? ==> r.at <= cursor.value.at && (r.at == cursor.value.at ==> r.id < cursor.value.id))
  }

  /** The listing holds exactly the rows that belong to it, the newest first and rows of one time by
      descending identifier. */
  lemma {:induction false} ListingHolds(table: seq<Row>, snapshot: Time, cursor: Option<Position>)
    requires UniqueIds(table)
    ensures Descending(Listing(table, snapshot, cursor))
    ensures var all := Listing(table, snapshot, cursor);
            forall i, j :: 0 <= i < j < |all| ==>
              all[i].at >= all[j].at && (all[i].at == all[j].at ==> all[i].id > all[j].id)
    ensures forall x :: x in Listing(table, snapshot, cursor) <==> x in table && Belongs(x, snapshot, cursor)
  {
    if table != [] {
      ListingHolds(table[1..], snapshot, cursor);
      var rest := Listing(table[1..], snapshot, cursor);
      if Eligible(table[0], snapshot, cursor) {
        forall i | 0 <= i < |rest|
          ensures rest[i].id != table[0].id
        {
          assert rest[i] in table[1..];
        }
        PlaceHolds(table[0], rest);
      }
    }
  }

  /** Descending lists with the same rows are the same list. */
  lemma {:induction false} DescendingIsUnique(a: seq<Row>, b: seq<Row>)
    requires Descending(a) && Descending(b) && forall x :: x in a <==> x in b
    ensures a == b
  {
    assert b != [] ==> b[0] in b;
    if a != [] {
      assert a[0] in b && b != [];
      assert b[0] in a;
      assert a[0] == b[0];
      forall x
        ensures x in a[1..] <==> x in b[1..]
      {
        if x in a[1..] {
          assert x in b && x != b[0];
        }
        if x in b[1..] {
          assert x in a && x != a[0];
        }
      }
      DescendingIsUnique(a[1..], b[1..]);
    }
  }

  /** Cutting at a row's position leaves exactly what follows it. */
  lemma {:induction false} ListingBelow(table: seq<Row>, snapshot: Time, cursor: Option<Position>, n: nat)
    requires UniqueIds(table) && n < |Listing(table, snapshot, cursor)|
    ensures var all := Listing(table, snapshot, cursor);
            Listing(table, snapshot, Some(PositionOf(all[n]))) == all[n + 1..]
  {
    var all := Listing(table, snapshot, cursor);
    var cut := Listing(table, snapshot, Some(PositionOf(all[n])));
    ListingHolds(table, snapshot, cursor);
    ListingHolds(table, snapshot, Some(PositionOf(all[n])));
    forall x
      ensures x in cut <==> x in all[n + 1..]
    {
      if x in cut {
        assert all[n] in all;
        assert x in all;
        var j :| 0 <= j < |all| && all[j] == x;
        assert j > n;
        assert x == all[n + 1..][j - n - 1];
      }
      if x in all[n + 1..] {
        assert x in all;
      }
    }
    DescendingIsUnique(cut, all[n + 1..]);
  }

  // ---------------------------------------------------------------------------
  // A fixed table
  // ---------------------------------------------------------------------------

  /** A page holds the next rows of the listing, and its cursor stands for the rest. */
  lemma {:induction false} PageSplitsListing(table: seq<Row>, snapshot: Time, cursor: Option<Position>, limit: nat)
    requires UniqueIds(table) && limit >= 1
    ensures var page := FetchPage(table, snapshot, cursor, limit);
            var all := Listing(table, snapshot, cursor);
            && page.items <= all && |page.items| <= limit
            && (page.next.None? ==> page.items == all)
            && (page.next.Some? ==>
                  && |page.items| == limit
                  && page.next == Some(Position(page.items[limit - 1].at, page.items[limit - 1].id))
                  && 0 < |Listing(table, snapshot, page.next)| < |all|
                  && all == page.items + Listing(table, snapshot, page.next))
  {
    var all := Listing(table, snapshot, cursor);
    if |all| > limit {
      ListingBelow(table, snapshot, cursor, limit - 1);
      assert all == all[..limit] + all[limit..];
    }
  }

  /** Follow cursors from the first page to the last: the walk ends, and its pages joined are
      exactly the filtered descending list. */
  method FollowCursors(table: seq<Row>, snapshot: Time, limit: int) returns (items: seq<Row>, pages: nat)
    requires UniqueIds(table)
    ensures items == Listing(table, snapshot, None)
    ensures Descending(items) && forall x :: x in items <==> x in table && x.stampedAt <= snapshot && x.matches
    ensures forall i, j :: 0 <= i < j < |items| ==>
              items[i].at >= items[j].at && (items[i].at == items[j].at ==> items[i].id > items[j].id)
    ensures pages >= 1 && |items| <= pages * NormalLimit(limit) && (pages - 1) * NormalLimit(limit) <= |items|
    ensures items != [] ==> (pages - 1) * NormalLimit(limit) < |items|
  {
    var size := NormalLimit(limit);
    ListingHolds(table, snapshot, None);
    PageSplitsListing(table, snapshot, None, size);
    var page := FetchPage(table, snapshot, None, size);
    items, pages := page.items, 1;
    while page.next.Some?
      invariant Listing(table, snapshot, None) ==
                items + if page.next.Some? then Listing(table, snapshot, page.next) else []
      invariant pages >= 1 && |items| <= pages * size && (pages - 1) * size <= |items|
      invariant page.next.Some? ==> |items| == pages * size && Listing(table, snapshot, page.next) != []
      invariant page.next.None? && items != [] ==> (pages - 1) * size < |items|
      decreases if page.next.Some? then |Listing(table, snapshot, page.next)| + 1 else 0
    {
      PageSplitsListing(table, snapshot, page.next, size);
      page := FetchPage(table, snapshot, page.next, size);
      items, pages := items + page.items, pages + 1;
    }
  }

  // ---------------------------------------------------------------------------
  // A table that changes between pages
  // ---------------------------------------------------------------------------

  /** Writers may add rows and rewrite rows, as long as no row's time moves back. */
  ghost predicate MovesForward(before: seq<Row>, after: seq<Row>) {
    forall i :: 0 <= i < |before| ==> KeptSince(before[i], after)
  }

  /** The table still has the row, at the same time or a later one. */
  ghost predicate KeptSince(r: Row, table: seq<Row>) {
    exists j :: 0 <= j < |table| && table[j].id == r.id && table[j].at >= r.at
  }

  ghost predicate Evolving(tables: seq<seq<Row>>) {
    && (forall n :: 0 <= n < |tables| ==> UniqueIds(tables[n]))
    && (forall a, b :: 0 <= a < b < |tables| && b == a + 1 ==> MovesForward(tables[a], tables[b]))
  }

  /** The pages fetched one after the other, page `n` from table `n`. */
  function Walk(tables: seq<seq<Row>>, snapshot: Time, limit: nat): Page
    requires limit >= 1 && tables != []
  {
    var last := |tables| - 1;
    if last == 0 then FetchPage(tables[0], snapshot, None, limit)
    else
      var before := Walk(tables[..last], snapshot, limit);
      if before.next.None? then before
      else
        var page := FetchPage(tables[last], snapshot, before.next, limit);
        Page(before.items + page.items, page.next)
  }

  /** Every row of the table that shares an identifier with a row handed out lies at or above the cursor. */
  ghost predicate SeenAbove(seen: seq<Row>, table: seq<Row>, cursor: Position) {
    forall i, j :: 0 <= i < |seen| && 0 <= j < |table| && table[j].id == seen[i].id ==>
      !Below(PositionOf(table[j]), cursor)
  }

  ghost predicate NoRepeats(items: seq<Row>) {
    forall i, j :: 0 <= i < j < |items| ==> items[i].id != items[j].id
  }

  /** A page hands out eligible rows in order, none of them below its cursor. */
  lemma {:induction false} PageItems(table: seq<Row>, snapshot: Time, cursor: Option<Position>, limit: nat)
    requires UniqueIds(table) && limit >= 1
    ensures var page := FetchPage(table, snapshot, cursor, limit);
            && (forall i :: 0 <= i < |page.items| ==>
                  page.items[i] in table && Eligible(page.items[i], snapshot, cursor))
            && Descending(page.items)
            && (page.next.Some? ==> page.items != [] && page.next.value == PositionOf(page.items[|page.items| - 1]))
  {
    var all := Listing(table, snapshot, cursor);
    var page := FetchPage(table, snapshot, cursor, limit);
    ListingHolds(table, snapshot, cursor);
    assert page.items == all[..|page.items|];
    forall i | 0 <= i < |page.items|
      ensures page.items[i] in table && Eligible(page.items[i], snapshot, cursor)
    {
      assert page.items[i] == all[i] && all[i] in all;
    }
  }

  lemma {:induction false} CursorIsLowest(items: seq<Row>)
    requires Descending(items) && items != []
    ensures forall i :: 0 <= i < |items| ==> !Below(PositionOf(items[i]), PositionOf(items[|items| - 1]))
  {
  }

  /** A page misses no eligible row: it hands the row out or leaves it below its cursor. */
  lemma {:induction false} PageMissesNothing(
      table: seq<Row>, snapshot: Time, cursor: Option<Position>, limit: nat, x: Row)
    requires UniqueIds(table) && limit >= 1 && x in table && Eligible(x, snapshot, cursor)
    ensures var page := FetchPage(table, snapshot, cursor, limit);
            x in page.items || (page.next.Some? && Below(PositionOf(x), page.next.value))
  {
    var all := Listing(table, snapshot, cursor);
    var page := FetchPage(table, snapshot, cursor, limit);
    ListingHolds(table, snapshot, cursor);
    PageSplitsListing(table, snapshot, cursor, limit);
    var n :| 0 <= n < |all| && all[n] == x;
    if n < |page.items| {
      assert page.items[n] == x;
    } else {
      assert page.next == Some(PositionOf(all[limit - 1]));
    }
  }

  lemma {:induction false} UniqueRow(table: seq<Row>, x: Row, y: Row)
    requires UniqueIds(table) && x in table && y in table
    ensures x.id == y.id ==> x == y
  {
  }

  /** Rows handed out stay at or above the cursor while no row moves back. */
  lemma {:induction false} SeenStaysAbove(seen: seq<Row>, before: seq<Row>, after: seq<Row>, cursor: Position)
    requires UniqueIds(before) && UniqueIds(after) && MovesForward(before, after) && SeenAbove(seen, before, cursor)
    requires forall i :: 0 <= i < |seen| ==> HasId(before, seen[i].id)
    ensures SeenAbove(seen, after, cursor)
    ensures forall i :: 0 <= i < |seen| ==> HasId(after, seen[i].id)
  {
    forall i | 0 <= i < |seen|
      ensures HasId(after, seen[i].id)
      ensures forall j :: 0 <= j < |after| && after[j].id == seen[i].id ==> !Below(PositionOf(after[j]), cursor)
    {
      var b :| 0 <= b < |before| && before[b].id == seen[i].id;
      assert !Below(PositionOf(before[b]), cursor);
      assert KeptSince(before[b], after);
      var a :| 0 <= a < |after| && after[a].id == before[b].id && after[a].at >= before[b].at;
      forall j | 0 <= j < |after| && after[j].id == seen[i].id
        ensures !Below(PositionOf(after[j]), cursor)
      {
        UniqueRow(after, after[a], after[j]);
      }
    }
  }

  ghost predicate HasId(table: seq<Row>, id: nat) {
    exists j :: 0 <= j < |table| && table[j].id == id
  }

  /** Rows of the table that lie below the cursor, when there is one. */
  ghost predicate Cut(items: seq<Row>, table: seq<Row>, cursor: Option<Position>) {
    forall i :: 0 <= i < |items| ==> items[i] in table && (cursor.Some? ==> Below(PositionOf(items[i]), cursor.value))
  }

  ghost predicate Handed(seen: seq<Row>, table: seq<Row>, cursor: Option<Position>) {
    && NoRepeats(seen) && (forall i :: 0 <= i < |seen| ==> HasId(table, seen[i].id))
    && if cursor.Some? then SeenAbove(seen, table, cursor.value) else seen == []
  }

  lemma {:induction false} CutRepeatsNothing(seen: seq<Row>, items: seq<Row>, table: seq<Row>, cursor: Option<Position>)
    requires UniqueIds(table) && Handed(seen, table, cursor) && Cut(items, table, cursor) && Descending(items)
    ensures NoRepeats(seen + items)
    ensures forall i :: 0 <= i < |seen + items| ==> HasId(table, (seen + items)[i].id)
  {
    forall n | 0 <= n < |items|
      ensures HasId(table, items[n].id)
      ensures forall i :: 0 <= i < |seen| ==> seen[i].id != items[n].id
      ensures forall m :: n < m < |items| ==> items[n].id != items[m].id
    {
      var j :| 0 <= j < |table| && table[j] == items[n];
      forall m | n < m < |items|
        ensures items[n].id != items[m].id
      {
        UniqueRow(table, items[n], items[m]);
      }
    }
  }

  lemma {:induction false} CutStaysAbove(seen: seq<Row>, items: seq<Row>, table: seq<Row>, cursor: Option<Position>)
    requires UniqueIds(table) && Handed(seen, table, cursor) && Cut(items, table, cursor) && Descending(items) &&
               items != []
    ensures SeenAbove(seen + items, table, PositionOf(items[|items| - 1]))
  {
    var all, next := seen + items, PositionOf(items[|items| - 1]);
    CursorIsLowest(items);
    forall i, j | 0 <= i < |all| && 0 <= j < |table| && table[j].id == all[i].id
      ensures !Below(PositionOf(table[j]), next)
    {
      if i < |seen| {
        assert !Below(PositionOf(table[j]), cursor.value) && Below(next, cursor.value);
      } else {
        assert all[i] == items[i - |seen|];
        UniqueRow(table, table[j], all[i]);
      }
    }
  }

  /** One more page over a changed table repeats nothing and leaves everything handed out above its cursor. */
  lemma {:induction false} NextPageRepeatsNothing(
      seen: seq<Row>, table: seq<Row>, snapshot: Time, cursor: Option<Position>, limit: nat)
    requires UniqueIds(table) && limit >= 1 && Handed(seen, table, cursor)
    ensures var page := FetchPage(table, snapshot, cursor, limit);
            && NoRepeats(seen + page.items)
            && (page.next.Some? ==> Handed(seen + page.items, table, page.next))
  {
    var page := FetchPage(table, snapshot, cursor, limit);
    PageItems(table, snapshot, cursor, limit);
    assert Cut(page.items, table, cursor);
    CutRepeatsNothing(seen, page.items, table, cursor);
    if page.next.Some? {
      CutStaysAbove(seen, page.items, table, cursor);
    }
  }

  /** The same after the table has moved on since the cursor was handed out. */
  lemma {:induction false} NextPageOfMovedTable(
      seen: seq<Row>, before: seq<Row>, table: seq<Row>, snapshot: Time, cursor: Option<Position>, limit: nat)
    requires UniqueIds(before) && UniqueIds(table) && MovesForward(before, table) && limit >= 1
    requires cursor.Some? && Handed(seen, before, cursor)
    ensures var page := FetchPage(table, snapshot, cursor, limit);
            && NoRepeats(seen + page.items)
            && (page.next.Some? ==> Handed(seen + page.items, table, page.next))
  {
    SeenStaysAbove(seen, before, table, cursor.value);
    NextPageRepeatsNothing(seen, table, snapshot, cursor, limit);
  }

  /** While writers only add rows or rewrite them at no earlier time, a walk never shows a row twice. */
  lemma {:induction false} WalkNeverRepeats(tables: seq<seq<Row>>, snapshot: Time, limit: nat)
    requires limit >= 1 && tables != [] && Evolving(tables)
    ensures var w := Walk(tables, snapshot, limit);
            var table := tables[|tables| - 1];
            && NoRepeats(w.items)
            && (w.next.Some? ==> Handed(w.items, table, w.next))
  {
    var last := |tables| - 1;
    if last == 0 {
      NextPageRepeatsNothing([], tables[0], snapshot, None, limit);
      assert [] + FetchPage(tables[0], snapshot, None, limit).items ==
               FetchPage(tables[0], snapshot, None, limit).items;
    } else {
      WalkNeverRepeats(tables[..last], snapshot, limit);
      var before := Walk(tables[..last], snapshot, limit);
      if before.next.Some? {
        NextPageOfMovedTable(before.items, tables[last - 1], tables[last], snapshot, before.next, limit);
      }
    }
  }

  /** A row that stays untouched and passes the filter has been shown, or still lies below the cursor. */
  lemma {:induction false} UntouchedRowIsKept(tables: seq<seq<Row>>, snapshot: Time, limit: nat, r: Row)
    requires limit >= 1 && tables != [] && Evolving(tables)
    requires Eligible(r, snapshot, None) && forall n :: 0 <= n < |tables| ==> r in tables[n]
    ensures var w := Walk(tables, snapshot, limit);
            r in w.items || (w.next.Some? && Below(PositionOf(r), w.next.value))
  {
    var last := |tables| - 1;
    if last == 0 {
      PageMissesNothing(tables[0], snapshot, None, limit, r);
    } else {
      UntouchedRowIsKept(tables[..last], snapshot, limit, r);
      var before := Walk(tables[..last], snapshot, limit);
      if before.next.Some? {
        if Below(PositionOf(r), before.next.value) {
          PageMissesNothing(tables[last], snapshot, before.next, limit, r);
        }
      }
    }
  }

  /** A finished walk over a moving table shows every untouched row that passes the filter exactly once. */
  lemma {:induction false} UntouchedRowAppearsOnce(tables: seq<seq<Row>>, snapshot: Time, limit: nat, r: Row)
    requires limit >= 1 && tables != [] && Evolving(tables) && Walk(tables, snapshot, limit).next.None?
    requires Eligible(r, snapshot, None) && forall n :: 0 <= n < |tables| ==> r in tables[n]
    ensures var items := Walk(tables, snapshot, limit).items;
            exists n :: 0 <= n < |items| && items[n] == r &&
              forall m :: 0 <= m < |items| && items[m].id == r.id ==> m == n
  {
    var items := Walk(tables, snapshot, limit).items;
    WalkNeverRepeats(tables, snapshot, limit);
    UntouchedRowIsKept(tables, snapshot, limit, r);
    var n :| 0 <= n < |items| && items[n] == r;
  }

  lemma {:induction false} ListingOfTwo(a: Row, b: Row, snapshot: Time, cursor: Option<Position>)
    requires Below(PositionOf(b), PositionOf(a)) && Eligible(b, snapshot, cursor)
    ensures Listing([a, b], snapshot, cursor) == if Eligible(a, snapshot, cursor) then [a, b] else [b]
  {
    assert [a, b][1..] == [b] && [b][1..] == [];
    assert Listing([b], snapshot, cursor) == [b];
    assert Place(a, [b]) == [a] + [b];
  }

  /** The direction matters: a row `a` that a writer moves back, to `c`, below the cursor is shown twice. */
  lemma {:induction false} BackwardMoveRepeats(tables: seq<seq<Row>>, a: Row, b: Row, c: Row, snapshot: Time)
    requires tables == [[a, b], [b, c], [b, c]] && a.id == c.id && a.id != b.id
    requires Below(PositionOf(c), PositionOf(b)) && Below(PositionOf(b), PositionOf(a)) && c.at < a.at
    requires Eligible(a, snapshot, None) && Eligible(b, snapshot, None) && Eligible(c, snapshot, None)
    ensures Walk(tables, snapshot, 1) == Page([a, b, c], None) && !NoRepeats([a, b, c])
    ensures !Evolving(tables)
  {
    assert tables[..2][..1] == [[a, b]] && tables[..2] == [[a, b], [b, c]];
    ListingOfTwo(a, b, snapshot, None);
    assert Walk(tables[..2][..1], snapshot, 1) == Page([a], Some(PositionOf(a)));
    ListingOfTwo(b, c, snapshot, Some(PositionOf(a)));
    assert Walk(tables[..2], snapshot, 1) == Page([a, b], Some(PositionOf(b)));
    ListingOfTwo(b, c, snapshot, Some(PositionOf(b)));
    assert [a, b] + [c] == [a, b, c];
    assert [a, b, c][0].id == [a, b, c][2].id;
    assert Evolving(tables) ==> MovesForward(tables[0], tables[1]);
    assert tables[0][0] == a;
  }
}
