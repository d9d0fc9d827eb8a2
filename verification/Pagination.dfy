/** Keyset pagination: pages cut by a (sort key, id) cursor, while the table changes between fetches. */
module Pagination {
  import opened Domain

  /** A listing as the search sees it. `rating` is in tenths, `createdAt` in microseconds, as Postgres keeps it. */
  datatype Row = Row(id: Id, price: int, rating: int, createdAt: int, live: bool)

  datatype Sort = PriceAsc | PriceDesc | Rating | Recommended

  function SortKey(sort: Sort, row: Row): int {
    match sort
    case PriceAsc => row.price
    case PriceDesc => row.price
    case Rating => row.rating
    case Recommended => row.createdAt
  }

  predicate Ascending(sort: Sort) { sort == PriceAsc }

  datatype Cursor = Cursor(key: int, id: Id)

  function CursorOf(sort: Sort, row: Row): Cursor { Cursor(SortKey(sort, row), row.id) }

  /** Row-value comparison `(key, id) < (key, id)`. */
  predicate Less(a: Cursor, b: Cursor) { a.key < b.key || (a.key == b.key && a.id < b.id) }

  /** A time as a JavaScript Date holds it: whole milliseconds. */
  function Trunc(time: int): int { time - time % 1000 }

  /** The cursor a page sends for a row: exact, except that a creation time goes through a Date. */
  function Sent(sort: Sort, c: Cursor): Cursor {
    if sort == Recommended then Cursor(Trunc(c.key), c.id) else c
  }

  /** Strictly earlier in the listing order: both columns follow the sort direction. */
  predicate Precedes(sort: Sort, a: Cursor, b: Cursor) { if Ascending(sort) then Less(a, b) else Less(b, a) }

  // ---------- the query ----------

  function Insert(sort: Sort, row: Row, rows: seq<Row>): seq<Row> {
    if rows == [] then [row]
    else if Precedes(sort, CursorOf(sort, rows[0]), CursorOf(sort, row)) then [rows[0]] + Insert(sort, row, rows[1..])
    else [row] + rows
  }

  /** ORDER BY key, id. */
  function Sorted(sort: Sort, rows: seq<Row>): seq<Row> {
    if rows == [] then [] else Insert(sort, rows[0], Sorted(sort, rows[1..]))
  }

  predicate Past(sort: Sort, cursor: Option<Cursor>, row: Row) {
    cursor.Some? ==> Precedes(sort, cursor.value, CursorOf(sort, row))
  }

  /** The WHERE clause: the filters `where` and, if there is a cursor, what lies past it. */
  function Matching(sort: Sort, table: seq<Row>, where: Row -> bool, cursor: Option<Cursor>): seq<Row> {
    if table == [] then []
    else
      (if where(table[0]) && Past(sort, cursor, table[0]) then [table[0]] else [])
      + Matching(sort, table[1..], where, cursor)
  }

  function Take(rows: seq<Row>, n: nat): seq<Row> { if |rows| <= n then rows else rows[..n] }

  datatype Page = Page(data: seq<Row>, hasMore: bool, nextCursor: Option<Cursor>)

  /** One page: fetch limit + 1 rows, keep limit, and point past the last one kept. */
  function Search(sort: Sort, table: seq<Row>, where: Row -> bool, cursor: Option<Cursor>, limit: Positive): Page {
    var rows := Take(Sorted(sort, Matching(sort, table, where, cursor)), limit + 1);
    var hasMore := |rows| > limit;
    var data := if hasMore then rows[..limit] else rows;
    Page(data, hasMore, if hasMore then Some(Sent(sort, CursorOf(sort, data[|data| - 1]))) else None)
  }

  // ---------- the order ----------

  ghost predicate Ordered(sort: Sort, rows: seq<Row>) {
    forall i, j :: 0 <= i < j < |rows| ==> Precedes(sort, CursorOf(sort, rows[i]), CursorOf(sort, rows[j]))
  }

  /** Ids are primary keys. */
  ghost predicate DistinctIds(rows: seq<Row>) {
    forall i, j :: 0 <= i < j < |rows| ==> rows[i].id != rows[j].id
  }

  lemma Total(sort: Sort, a: Cursor, b: Cursor)
    ensures a.id != b.id ==> Precedes(sort, a, b) || Precedes(sort, b, a)
    ensures !(Precedes(sort, a, b) && Precedes(sort, b, a))
  {
  }

  lemma Transitive(sort: Sort, a: Cursor, b: Cursor, c: Cursor)
    requires Precedes(sort, a, b) && Precedes(sort, b, c)
    ensures Precedes(sort, a, c)
  {
  }

  lemma ConsOrdered(sort: Sort, row: Row, rows: seq<Row>)
    requires Ordered(sort, rows)
    requires forall r :: r in rows ==> Precedes(sort, CursorOf(sort, row), CursorOf(sort, r))
    ensures Ordered(sort, [row] + rows)
  {
  }

  lemma {:induction false} InsertOrdered(sort: Sort, row: Row, rows: seq<Row>)
    requires Ordered(sort, rows) && forall k :: 0 <= k < |rows| ==> rows[k].id != row.id
    ensures Ordered(sort, Insert(sort, row, rows))
    ensures multiset(Insert(sort, row, rows)) == multiset(rows) + multiset{row}
  {
    if rows == [] {
    } else {
      var head, tail := rows[0], rows[1..];
      assert rows == [head] + tail;
      if Precedes(sort, CursorOf(sort, head), CursorOf(sort, row)) {
        InsertOrdered(sort, row, tail);
        var rest := Insert(sort, row, tail);
        forall r | r in rest ensures Precedes(sort, CursorOf(sort, head), CursorOf(sort, r)) {
          assert r in multiset(rest);
        }
        ConsOrdered(sort, head, rest);
      } else {
        Total(sort, CursorOf(sort, head), CursorOf(sort, row));
        forall r | r in rows ensures Precedes(sort, CursorOf(sort, row), CursorOf(sort, r)) {
          if r != head { Transitive(sort, CursorOf(sort, row), CursorOf(sort, head), CursorOf(sort, r)); }
        }
        ConsOrdered(sort, row, rows);
      }
    }
  }

  /** Sorting orders strictly and loses nothing. */
  lemma {:induction false} SortedOrders(sort: Sort, rows: seq<Row>)
    requires DistinctIds(rows)
    ensures Ordered(sort, Sorted(sort, rows)) && multiset(Sorted(sort, rows)) == multiset(rows)
  {
    if rows == [] {
    } else {
      assert rows == [rows[0]] + rows[1..];
      SortedOrders(sort, rows[1..]);
      var rest := Sorted(sort, rows[1..]);
      forall k | 0 <= k < |rest| ensures rest[k].id != rows[0].id {
        assert rest[k] in multiset(rest);
        assert rest[k] in rows[1..];
      }
      InsertOrdered(sort, rows[0], rest);
    }
  }

  /** Two strictly ordered sequences with the same rows are the same sequence. */
  lemma {:induction false} OrderedUnique(sort: Sort, xs: seq<Row>, ys: seq<Row>)
    requires Ordered(sort, xs) && Ordered(sort, ys) && forall r :: r in xs <==> r in ys
    ensures xs == ys
    decreases |xs|
  {
    if ys == [] {
    } else {
      assert ys[0] in ys;
    }
    if xs != [] {
      assert xs[0] in xs && xs[0] in ys;
      assert ys[0] in ys && ys[0] in xs;
      var i :| 0 <= i < |ys| && ys[i] == xs[0];
      var j :| 0 <= j < |xs| && xs[j] == ys[0];
      if i > 0 { Total(sort, CursorOf(sort, xs[0]), CursorOf(sort, ys[0])); }
      assert xs[0] == ys[0];
      forall r ensures r in xs[1..] <==> r in ys[1..] {
        TailMembers(sort, xs, r);
        TailMembers(sort, ys, r);
      }
      OrderedUnique(sort, xs[1..], ys[1..]);
    }
  }

  lemma TailMembers(sort: Sort, xs: seq<Row>, r: Row)
    requires xs != [] && Ordered(sort, xs)
    ensures r in xs[1..] <==> r in xs && r != xs[0]
  {
    assert xs == [xs[0]] + xs[1..];
    if r in xs[1..] {
      var k :| 0 <= k < |xs[1..]| && xs[1..][k] == r;
      assert xs[k + 1] == r;
      Total(sort, CursorOf(sort, xs[0]), CursorOf(sort, xs[k + 1]));
    }
  }

  lemma {:induction false} MatchingMembers(sort: Sort, table: seq<Row>, where: Row -> bool, cursor: Option<Cursor>)
    ensures forall r :: r in Matching(sort, table, where, cursor) <==> r in table && where(r) && Past(sort, cursor, r)
    ensures DistinctIds(table) ==> DistinctIds(Matching(sort, table, where, cursor))
  {
    if table == [] {
    } else {
      assert table == [table[0]] + table[1..];
      MatchingMembers(sort, table[1..], where, cursor);
      var rest := Matching(sort, table[1..], where, cursor);
      if DistinctIds(table) {
        forall k | 0 <= k < |rest| ensures rest[k].id != table[0].id {
          assert rest[k] in rest && rest[k] in table[1..];
        }
      }
    }
  }

  /** The full result: every matching row past the cursor, in order. */
  function Result(sort: Sort, table: seq<Row>, where: Row -> bool, cursor: Option<Cursor>): seq<Row> {
    Sorted(sort, Matching(sort, table, where, cursor))
  }

  lemma ResultSpec(sort: Sort, table: seq<Row>, where: Row -> bool, cursor: Option<Cursor>)
    requires DistinctIds(table)
    ensures Ordered(sort, Result(sort, table, where, cursor))
    ensures forall r :: r in Result(sort, table, where, cursor) <==> r in table && where(r) && Past(sort, cursor, r)
  {
    MatchingMembers(sort, table, where, cursor);
    SortedOrders(sort, Matching(sort, table, where, cursor));
    assert forall r :: r in Result(sort, table, where, cursor)
                  <==> r in multiset(Result(sort, table, where, cursor));
    assert forall r :: r in Matching(sort, table, where, cursor)
                  <==> r in multiset(Matching(sort, table, where, cursor));
  }

  lemma AfterMembers(sort: Sort, all: seq<Row>, k: nat, r: Row)
    requires Ordered(sort, all) && 0 < k <= |all|
    ensures r in all[k..] <==> r in all && Precedes(sort, CursorOf(sort, all[k - 1]), CursorOf(sort, r))
  {
    if r in all && Precedes(sort, CursorOf(sort, all[k - 1]), CursorOf(sort, r)) {
      var i :| 0 <= i < |all| && all[i] == r;
      if i < k {
        if i < k - 1 { Total(sort, CursorOf(sort, all[i]), CursorOf(sort, all[k - 1])); }
        Total(sort, CursorOf(sort, all[k - 1]), CursorOf(sort, all[k - 1]));
      }
      assert all[k..][i - k] == r;
    }
  }

  // ---------- what a cut cursor loses ----------

  /**
   * Row `c` comes after row `last`, but not after the cursor sent for `last`: both fall into one millisecond,
   * `last` not at its start, and `c` neither at its start with a smaller id.
   */
  predicate Lost(sort: Sort, last: Cursor, c: Cursor) {
    && sort == Recommended && Precedes(sort, last, c)
    && Trunc(c.key) == Trunc(last.key) && last.key != Trunc(last.key)
    && (c.key != Trunc(c.key) || c.id >= last.id)
  }

  lemma LostIff(sort: Sort, last: Cursor, c: Cursor)
    requires Precedes(sort, last, c)
    ensures Lost(sort, last, c) <==> !Precedes(sort, Sent(sort, last), c)
  {
  }

  /** What the sent cursor lets through comes after the row: a page never repeats one. */
  lemma SentIsLater(sort: Sort, last: Cursor, c: Cursor)
    requires Precedes(sort, Sent(sort, last), c)
    ensures Precedes(sort, last, c)
  {
  }

  /** How many of the rows right after `last` the next page passes over. */
  function Skipped(sort: Sort, last: Cursor, rest: seq<Row>): (n: nat)
    ensures n <= |rest|
  {
    if rest == [] || !Lost(sort, last, CursorOf(sort, rest[0])) then 0 else 1 + Skipped(sort, last, rest[1..])
  }

  /** They are all that is lost. */
  lemma {:induction false} SkippedAreLost(sort: Sort, last: Cursor, rest: seq<Row>)
    requires Ordered(sort, rest) && forall k :: 0 <= k < |rest| ==> Precedes(sort, last, CursorOf(sort, rest[k]))
    ensures forall k :: 0 <= k < |rest| ==> (Lost(sort, last, CursorOf(sort, rest[k]))
                                             <==> k < Skipped(sort, last, rest))
  {
    if rest == [] {
    } else if Lost(sort, last, CursorOf(sort, rest[0])) {
      SkippedAreLost(sort, last, rest[1..]);
      forall k | 0 < k < |rest|
        ensures Lost(sort, last, CursorOf(sort, rest[k])) <==> k < Skipped(sort, last, rest)
      {
        assert rest[1..][k - 1] == rest[k];
      }
    } else {
      LostIff(sort, last, CursorOf(sort, rest[0]));
      forall k | 0 <= k < |rest| ensures !Lost(sort, last, CursorOf(sort, rest[k])) {
        if k > 0 { Transitive(sort, Sent(sort, last), CursorOf(sort, rest[0]), CursorOf(sort, rest[k])); }
        LostIff(sort, last, CursorOf(sort, rest[k]));
      }
    }
  }

  /** Continuing from the cursor sent for a row gives the rows after it but for the lost ones. */
  lemma {:induction false} ResultAfter(sort: Sort, table: seq<Row>, where: Row -> bool, cursor: Option<Cursor>, k: nat)
    requires DistinctIds(table) && 0 < k <= |Result(sort, table, where, cursor)|
    ensures var all := Result(sort, table, where, cursor);
            var last := CursorOf(sort, all[k - 1]);
            Result(sort, table, where, Some(Sent(sort, last))) == all[k..][Skipped(sort, last, all[k..])..]
  {
    var all := Result(sort, table, where, cursor);
    var last := CursorOf(sort, all[k - 1]);
    var next := Some(Sent(sort, last));
    var rest, left := Result(sort, table, where, next), all[k..][Skipped(sort, last, all[k..])..];
    ResultSpec(sort, table, where, cursor);
    ResultSpec(sort, table, where, next);
    forall r ensures r in rest <==> r in left {
      LeftMembers(sort, all, k, r);
      assert all[k - 1] in all;
      if r in rest {
        SentIsLater(sort, last, CursorOf(sort, r));
        if cursor.Some? { Transitive(sort, cursor.value, last, CursorOf(sort, r)); }
      }
    }
    OrderedUnique(sort, rest, left);
  }

  lemma {:induction false} LeftMembers(sort: Sort, all: seq<Row>, k: nat, r: Row)
    requires Ordered(sort, all) && 0 < k <= |all|
    ensures var last := CursorOf(sort, all[k - 1]);
            r in all[k..][Skipped(sort, last, all[k..])..]
            <==> r in all && Precedes(sort, Sent(sort, last), CursorOf(sort, r))
  {
    var last, rest := CursorOf(sort, all[k - 1]), all[k..];
    var n := Skipped(sort, last, rest);
    SkippedAreLost(sort, last, rest);
    if r in rest[n..] {
      var i :| 0 <= i < |rest[n..]| && rest[n..][i] == r;
      assert rest[n + i] == r && all[k + n + i] == r;
      LostIff(sort, last, CursorOf(sort, r));
    }
    if r in all && Precedes(sort, Sent(sort, last), CursorOf(sort, r)) {
      SentIsLater(sort, last, CursorOf(sort, r));
      AfterMembers(sort, all, k, r);
      var i :| 0 <= i < |rest| && rest[i] == r;
      LostIff(sort, last, CursorOf(sort, r));
      assert rest[n..][i - n] == r;
    }
  }

  /** The next page starts right after the row exactly when the row that follows is not lost. */
  lemma ResultAfterIff(sort: Sort, table: seq<Row>, where: Row -> bool, cursor: Option<Cursor>, k: nat)
    requires DistinctIds(table) && 0 < k <= |Result(sort, table, where, cursor)|
    ensures var all := Result(sort, table, where, cursor);
            var last := CursorOf(sort, all[k - 1]);
            Result(sort, table, where, Some(Sent(sort, last))) == all[k..]
            <==> forall j :: k <= j < |all| ==> !Lost(sort, last, CursorOf(sort, all[j]))
  {
    var all := Result(sort, table, where, cursor);
    var last := CursorOf(sort, all[k - 1]);
    ResultSpec(sort, table, where, cursor);
    ResultAfter(sort, table, where, cursor, k);
    SkippedAreLost(sort, last, all[k..]);
    if Skipped(sort, last, all[k..]) == 0 {
      forall j | k <= j < |all| ensures !Lost(sort, last, CursorOf(sort, all[j])) { assert all[k..][j - k] == all[j]; }
    } else {
      assert Lost(sort, last, CursorOf(sort, all[k]));
    }
  }

  // ---------- one page ----------

  lemma SearchSpec(sort: Sort, table: seq<Row>, where: Row -> bool, cursor: Option<Cursor>, limit: Positive)
    requires DistinctIds(table)
    ensures var page, all := Search(sort, table, where, cursor, limit), Result(sort, table, where, cursor);
            && page.hasMore == (|all| > limit)
            && page.data == Take(all, limit)
            && page.nextCursor == if page.hasMore then Some(Sent(sort, CursorOf(sort, all[limit - 1]))) else None
  {
  }

  lemma PageSpec(sort: Sort, table: seq<Row>, where: Row -> bool, cursor: Option<Cursor>, limit: Positive)
    requires DistinctIds(table)
    ensures var page := Search(sort, table, where, cursor, limit);
            && Ordered(sort, page.data) && |page.data| <= limit
            && (forall r :: r in page.data ==> r in table && where(r) && Past(sort, cursor, r))
            && (page.hasMore ==> && |page.data| == limit
                                 && page.nextCursor == Some(Sent(sort, CursorOf(sort, page.data[limit - 1]))))
  {
    ResultSpec(sort, table, where, cursor);
    SearchSpec(sort, table, where, cursor, limit);
    var all, page := Result(sort, table, where, cursor), Search(sort, table, where, cursor, limit);
    forall r | r in page.data ensures r in all { }
  }

  // ---------- which way each sort runs ----------

  /** `x` is listed before `y`, told by their columns. */
  predicate ListedBefore(sort: Sort, x: Row, y: Row) {
    match sort
    case PriceAsc => x.price < y.price || (x.price == y.price && x.id < y.id)
    case PriceDesc => x.price > y.price || (x.price == y.price && x.id > y.id)
    case Rating => x.rating > y.rating || (x.rating == y.rating && x.id > y.id)
    case Recommended => x.createdAt > y.createdAt || (x.createdAt == y.createdAt && x.id > y.id)
  }

  /** The row lies past a cursor: above it for ascending prices, below it otherwise. */
  predicate LiesPast(sort: Sort, c: Cursor, row: Row) {
    match sort
    case PriceAsc => row.price > c.key || (row.price == c.key && row.id > c.id)
    case PriceDesc => row.price < c.key || (row.price == c.key && row.id < c.id)
    case Rating => row.rating < c.key || (row.rating == c.key && row.id < c.id)
    case Recommended => row.createdAt < c.key || (row.createdAt == c.key && row.id < c.id)
  }

  /** The cursor names the row, a creation time by its millisecond. */
  predicate Names(sort: Sort, c: Cursor, row: Row) {
    && c.id == row.id
    && match sort
       case PriceAsc => c.key == row.price
       case PriceDesc => c.key == row.price
       case Rating => c.key == row.rating
       case Recommended => c.key % 1000 == 0 && c.key <= row.createdAt < c.key + 1000
  }

  /**
   * A page, told by columns: rows of the table that match and lie past the cursor, listed in order, with no matching
   * row past the cursor left out before its last one, or at all if nothing more is announced; never more than the
   * limit, and the next cursor names its last row.
   */
  lemma PageByColumns(sort: Sort, table: seq<Row>, where: Row -> bool, cursor: Option<Cursor>, limit: Positive)
    requires DistinctIds(table)
    ensures var page := Search(sort, table, where, cursor, limit);
            && |page.data| <= limit && (page.hasMore ==> |page.data| == limit)
            && (forall i, j :: 0 <= i < j < |page.data| ==> ListedBefore(sort, page.data[i], page.data[j]))
            && (forall r :: r in page.data ==>
                  r in table && where(r) && (cursor.Some? ==> LiesPast(sort, cursor.value, r)))
            && (forall r :: r in table && where(r) && (cursor.Some? ==> LiesPast(sort, cursor.value, r)) ==>
                  || r in page.data
                  || (page.hasMore && ListedBefore(sort, page.data[limit - 1], r)))
            && (page.hasMore <==> page.nextCursor.Some?)
            && (page.hasMore ==> Names(sort, page.nextCursor.value, page.data[limit - 1]))
  {
    var page, all := Search(sort, table, where, cursor, limit), Result(sort, table, where, cursor);
    PageSpec(sort, table, where, cursor, limit);
    ResultSpec(sort, table, where, cursor);
    SearchSpec(sort, table, where, cursor, limit);
    forall i, j | 0 <= i < j < |page.data| ensures ListedBefore(sort, page.data[i], page.data[j]) {
      assert Precedes(sort, CursorOf(sort, page.data[i]), CursorOf(sort, page.data[j]));
    }
    forall r | r in table && where(r) && (cursor.Some? ==> LiesPast(sort, cursor.value, r))
      ensures r in page.data || (page.hasMore && ListedBefore(sort, page.data[limit - 1], r))
    {
      assert Past(sort, cursor, r) && r in all;
      var k :| 0 <= k < |all| && all[k] == r;
      if k < |page.data| {
        assert page.data[k] == r;
      } else {
        assert Precedes(sort, CursorOf(sort, all[limit - 1]), CursorOf(sort, all[k]));
      }
    }
  }

  /** There is more exactly if the matching rows past the cursor are more than the limit. */
  lemma MoreIff(sort: Sort, table: seq<Row>, where: Row -> bool, cursor: Option<Cursor>, limit: Positive)
    requires DistinctIds(table)
    ensures var page := Search(sort, table, where, cursor, limit);
            page.hasMore <==> exists r :: r in table && where(r) && (cursor.Some? ==> LiesPast(sort, cursor.value, r))
                                          && r !in page.data
  {
    var page, all := Search(sort, table, where, cursor, limit), Result(sort, table, where, cursor);
    PageByColumns(sort, table, where, cursor, limit);
    ResultSpec(sort, table, where, cursor);
    SearchSpec(sort, table, where, cursor, limit);
    if page.hasMore {
      var r := all[limit];
      assert r in all;
      forall i | 0 <= i < limit ensures page.data[i] != r {
        assert Precedes(sort, CursorOf(sort, all[i]), CursorOf(sort, r));
        Total(sort, CursorOf(sort, r), CursorOf(sort, r));
      }
      assert r in table && where(r) && r !in page.data;
    }
  }

  /** In order means once: a row comes back a second time only if its sort key was edited in between. */
  lemma OrderedIsOnce(sort: Sort, rows: seq<Row>, i: nat, j: nat)
    requires Ordered(sort, rows) && i < j < |rows|
    ensures CursorOf(sort, rows[i]) != CursorOf(sort, rows[j])
    ensures rows[i].id == rows[j].id ==>
              if Ascending(sort) then SortKey(sort, rows[i]) < SortKey(sort, rows[j])
              else SortKey(sort, rows[j]) < SortKey(sort, rows[i])
  {
    Total(sort, CursorOf(sort, rows[i]), CursorOf(sort, rows[j]));
  }
}
