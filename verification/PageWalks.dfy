/** Walking a list page by page: what comes back, in order, and exactly what does not. */
module PageWalks {
  import opened Domain
  import opened Pagination

  // ---------- walking a fixed table ----------

  /** What the pages put together are: after each full page, the rows its cursor loses are missing. */
  function Walked(sort: Sort, limit: Positive, all: seq<Row>): seq<Row>
    decreases |all|
  {
    if |all| <= limit then all
    else
      var rest := all[limit..];
      all[..limit] + Walked(sort, limit, rest[Skipped(sort, CursorOf(sort, all[limit - 1]), rest)..])
  }

  /** Do `k` rows fill a number of pages? */
  predicate WholePages(k: nat, limit: Positive) { k == 0 || (k >= limit && WholePages(k - limit, limit)) }

  /** No row that starts a page is lost to the row that ends the page before. */
  ghost predicate Unbroken(sort: Sort, limit: Positive, all: seq<Row>) {
    forall k :: limit <= k < |all| && WholePages(k, limit) ==>
      !Lost(sort, CursorOf(sort, all[k - 1]), CursorOf(sort, all[k]))
  }

  lemma {:induction false} WalkedSize(sort: Sort, limit: Positive, all: seq<Row>)
    ensures |Walked(sort, limit, all)| <= |all|
    decreases |all|
  {
    if |all| <= limit {
    } else {
      var rest := all[limit..];
      WalkedSize(sort, limit, rest[Skipped(sort, CursorOf(sort, all[limit - 1]), rest)..]);
    }
  }

  lemma SamePrefix(prefix: seq<Row>, xs: seq<Row>, ys: seq<Row>)
    ensures prefix + xs == prefix + ys <==> xs == ys
  {
    if prefix + xs == prefix + ys {
      assert xs == (prefix + xs)[|prefix|..] && ys == (prefix + ys)[|prefix|..];
    }
  }

  /** The last row of the first page does not lose the first of the second. */
  predicate FirstJoins(sort: Sort, limit: Positive, all: seq<Row>)
    requires |all| > limit
  {
    !Lost(sort, CursorOf(sort, all[limit - 1]), CursorOf(sort, all[limit]))
  }

  lemma UnbrokenRest(sort: Sort, limit: Positive, all: seq<Row>)
    requires |all| > limit && Unbroken(sort, limit, all)
    ensures FirstJoins(sort, limit, all) && Unbroken(sort, limit, all[limit..])
  {
    var rest := all[limit..];
    assert WholePages(limit, limit);
    forall k | limit <= k < |rest| && WholePages(k, limit)
      ensures !Lost(sort, CursorOf(sort, rest[k - 1]), CursorOf(sort, rest[k]))
    {
      assert WholePages(k + limit, limit);
      assert rest[k] == all[k + limit] && rest[k - 1] == all[k + limit - 1];
    }
  }

  lemma UnbrokenAll(sort: Sort, limit: Positive, all: seq<Row>)
    requires |all| > limit && FirstJoins(sort, limit, all) && Unbroken(sort, limit, all[limit..])
    ensures Unbroken(sort, limit, all)
  {
    var rest := all[limit..];
    forall k | limit <= k < |all| && WholePages(k, limit)
      ensures !Lost(sort, CursorOf(sort, all[k - 1]), CursorOf(sort, all[k]))
    {
      if k > limit {
        assert WholePages(k - limit, limit) && k - limit >= limit;
        assert rest[k - limit] == all[k] && rest[k - limit - 1] == all[k - 1];
      }
    }
  }

  /** Nothing is missing exactly when no page boundary loses a row. */
  lemma {:induction false} WalkedIff(sort: Sort, limit: Positive, all: seq<Row>)
    ensures Walked(sort, limit, all) == all <==> Unbroken(sort, limit, all)
    decreases |all|
  {
    if |all| <= limit {
    } else {
      var rest := all[limit..];
      var left := rest[Skipped(sort, CursorOf(sort, all[limit - 1]), rest)..];
      assert all == all[..limit] + rest;
      if FirstJoins(sort, limit, all) {
        assert left == rest;
        WalkedIff(sort, limit, rest);
        SamePrefix(all[..limit], Walked(sort, limit, rest), rest);
        if Unbroken(sort, limit, rest) { UnbrokenAll(sort, limit, all); }
      } else {
        WalkedSize(sort, limit, left);
        assert |Walked(sort, limit, all)| < |all|;
      }
      if Unbroken(sort, limit, all) { UnbrokenRest(sort, limit, all); }
    }
  }

  /** What comes back is in order and part of the result. */
  lemma {:induction false} WalkedOrdered(sort: Sort, limit: Positive, all: seq<Row>)
    requires Ordered(sort, all)
    ensures Ordered(sort, Walked(sort, limit, all)) && forall r :: r in Walked(sort, limit, all) ==> r in all
    decreases |all|
  {
    if |all| <= limit {
    } else {
      var rest := all[limit..];
      var n := limit + Skipped(sort, CursorOf(sort, all[limit - 1]), rest);
      assert rest[n - limit..] == all[n..];
      WalkedOrdered(sort, limit, all[n..]);
      JoinOrdered(sort, all, limit, n, Walked(sort, limit, all[n..]));
    }
  }

  /** A stretch of an ordered sequence, and then rows from further on in it. */
  lemma JoinOrdered(sort: Sort, all: seq<Row>, m: nat, n: nat, later: seq<Row>)
    requires Ordered(sort, all) && m <= n <= |all| && Ordered(sort, later) && forall r :: r in later ==> r in all[n..]
    ensures Ordered(sort, all[..m] + later) && forall r :: r in all[..m] + later ==> r in all
  {
    forall i, j | 0 <= i < m && 0 <= j < |later|
      ensures Precedes(sort, CursorOf(sort, all[i]), CursorOf(sort, later[j]))
    {
      assert later[j] in all[n..];
      var k :| n <= k < |all| && all[k] == later[j];
    }
  }

  /** A sort whose cursors are exact loses nothing, and neither do creation times that are whole milliseconds. */
  lemma NothingLost(sort: Sort, limit: Positive, all: seq<Row>)
    requires sort != Recommended || forall r :: r in all ==> r.createdAt % 1000 == 0
    ensures Unbroken(sort, limit, all)
  {
    forall k | limit <= k < |all| && WholePages(k, limit)
      ensures !Lost(sort, CursorOf(sort, all[k - 1]), CursorOf(sort, all[k]))
    {
      assert all[k - 1] in all;
    }
  }

  /**
   * On a table that does not change, the walk ends; its rows come in order, and they are the full sorted result
   * exactly when no page boundary falls between two rows of which the second is lost.
   */
  method WalkFixed(sort: Sort, table: seq<Row>, where: Row -> bool, limit: Positive) returns (rows: seq<Row>)
    requires DistinctIds(table)
    ensures Ordered(sort, rows) && forall r :: r in rows ==> r in table && where(r)
    ensures rows == Walked(sort, limit, Result(sort, table, where, None))
    ensures rows == Result(sort, table, where, None) <==> Unbroken(sort, limit, Result(sort, table, where, None))
  {
    var cursor: Option<Cursor> := None;
    rows := [];
    var more := true;
    ghost var all := Result(sort, table, where, None);
    ResultSpec(sort, table, where, None);
    WalkedOrdered(sort, limit, all);
    WalkedIff(sort, limit, all);
    assert [] + Walked(sort, limit, all) == Walked(sort, limit, all);
    while more
      invariant more ==> rows + Walked(sort, limit, Result(sort, table, where, cursor)) == Walked(sort, limit, all)
      invariant !more ==> rows == Walked(sort, limit, all)
      decreases more, |Result(sort, table, where, cursor)|
    {
      PageOfRest(sort, table, where, cursor, limit, rows);
      var page := Search(sort, table, where, cursor, limit);
      rows := rows + page.data;
      cursor := page.nextCursor;
      more := page.hasMore;
    }
  }

  /** A page brings the next rows, and its cursor leaves what a walk brings after them. */
  lemma {:induction false} PageOfRest(sort: Sort, table: seq<Row>, where: Row -> bool, cursor: Option<Cursor>,
                                      limit: Positive, rows: seq<Row>)
    requires DistinctIds(table)
    ensures var page, rest := Search(sort, table, where, cursor, limit), Result(sort, table, where, cursor);
            if page.hasMore then
              && |Result(sort, table, where, page.nextCursor)| < |rest|
              && (rows + page.data) + Walked(sort, limit, Result(sort, table, where, page.nextCursor))
                 == rows + Walked(sort, limit, rest)
            else rows + page.data == rows + Walked(sort, limit, rest)
  {
    var rest := Result(sort, table, where, cursor);
    SearchSpec(sort, table, where, cursor, limit);
    if |rest| > limit {
      var page := Search(sort, table, where, cursor, limit);
      var left := Result(sort, table, where, page.nextCursor);
      ResultAfter(sort, table, where, cursor, limit);
      assert Walked(sort, limit, rest) == page.data + Walked(sort, limit, left);
      Regroup(rows, page.data, Walked(sort, limit, left));
    }
  }

  lemma Regroup(xs: seq<Row>, ys: seq<Row>, zs: seq<Row>)
    ensures (xs + ys) + zs == xs + (ys + zs)
  {
  }

  predicate Any(row: Row) { true }

  /** The walk over the table does not bring back its whole result. */
  ghost predicate Incomplete(table: seq<Row>, limit: Positive) {
    var all := Result(Recommended, table, Any, None);
    DistinctIds(table) && Walked(Recommended, limit, all) != all
  }

  lemma InOrder(sort: Sort, table: seq<Row>)
    requires DistinctIds(table) && Ordered(sort, table)
    ensures Result(sort, table, Any, None) == table
  {
    ResultSpec(sort, table, Any, None);
    OrderedUnique(sort, Result(sort, table, Any, None), table);
  }

  /** A first page that loses the first row of the second makes the walk incomplete. */
  lemma FirstBreaks(table: seq<Row>, limit: Positive)
    requires DistinctIds(table) && Ordered(Recommended, table)
    requires |table| > limit && !FirstJoins(Recommended, limit, table)
    ensures Incomplete(table, limit)
  {
    InOrder(Recommended, table);
    WalkedIff(Recommended, limit, table);
    if Unbroken(Recommended, limit, table) { UnbrokenRest(Recommended, limit, table); }
  }

  /** Two rows written in one transaction, one row a page: the second is lost. */
  lemma MillisecondLosesRow()
    ensures exists table, limit :: Incomplete(table, limit)
  {
    FirstBreaks([Row(1, 0, 0, 123456, true), Row(0, 0, 0, 123456, true)], 1);
  }

  // ---------- walking a table that changes between fetches ----------

  /** A matching row with this key and id is in the table. */
  ghost predicate Present(sort: Sort, table: seq<Row>, where: Row -> bool, c: Cursor) {
    exists r :: r in table && CursorOf(sort, r) == c && where(r)
  }

  ghost predicate Returned(sort: Sort, rows: seq<Row>, c: Cursor) {
    exists r :: r in rows && CursorOf(sort, r) == c
  }

  ghost predicate Throughout(sort: Sort, tables: seq<seq<Row>>, where: Row -> bool, c: Cursor) {
    forall k :: 0 <= k < |tables| ==> Present(sort, tables[k], where, c)
  }

  /** The last row of some full page loses this key and id. */
  ghost predicate LostBetween(sort: Sort, limit: Positive, rows: seq<Row>, c: Cursor) {
    exists k :: limit <= k <= |rows| && WholePages(k, limit) && Lost(sort, CursorOf(sort, rows[k - 1]), c)
  }

  /** Everything returned so far lies before the cursor, which is that of the last row. */
  ghost predicate Behind(sort: Sort, rows: seq<Row>, cursor: Option<Cursor>) {
    rows != [] ==> cursor == Some(Sent(sort, CursorOf(sort, rows[|rows| - 1])))
  }

  /** Rows lie past the cursor of every page before them. */
  ghost predicate PastPages(sort: Sort, limit: Positive, rows: seq<Row>) {
    forall k, i :: limit <= k <= i < |rows| && WholePages(k, limit) ==>
      Precedes(sort, Sent(sort, CursorOf(sort, rows[k - 1])), CursorOf(sort, rows[i]))
  }

  /** Every row returned matched in some table that was read. */
  ghost predicate Sourced(rows: seq<Row>, tables: seq<seq<Row>>, where: Row -> bool) {
    forall r :: r in rows ==> where(r) && exists k :: 0 <= k < |tables| && r in tables[k]
  }

  /** Whatever matches throughout was returned, or lost, or lies ahead while the walk goes on. */
  ghost predicate Covered(sort: Sort, tables: seq<seq<Row>>, where: Row -> bool, limit: Positive, rows: seq<Row>,
                          cursor: Option<Cursor>, finished: bool)
  {
    forall c :: Throughout(sort, tables, where, c) ==>
      Accounted(sort, limit, rows, cursor, finished, c)
  }

  ghost predicate Accounted(sort: Sort, limit: Positive, rows: seq<Row>, cursor: Option<Cursor>, finished: bool,
                            c: Cursor) {
    || Returned(sort, rows, c)
    || LostBetween(sort, limit, rows, c)
    || (!finished && (cursor.Some? ==> Precedes(sort, cursor.value, c)))
  }

  /**
   * Fetch page after page, each from the table as it is by then. Whatever was inserted, deleted or edited in
   * between, the rows come in strictly increasing (key, id) order, each from a table it was read from. Once the
   * walk ends, a key and id that matched throughout was returned exactly if no page ended on a row that loses it.
   * And until it ends every page is full, so a walk over finitely many rows does end.
   */
  method WalkLive(sort: Sort, tables: seq<seq<Row>>, where: Row -> bool, limit: Positive)
    returns (rows: seq<Row>, finished: bool)
    requires forall k :: 0 <= k < |tables| ==> DistinctIds(tables[k])
    ensures Ordered(sort, rows)
    ensures forall r :: r in rows ==> where(r) && exists k :: 0 <= k < |tables| && r in tables[k]
    ensures finished ==> forall c :: Throughout(sort, tables, where, c) ==>
                           (Returned(sort, rows, c) <==> !LostBetween(sort, limit, rows, c))
    ensures !finished ==> |rows| == |tables| * limit
  {
    var cursor: Option<Cursor> := None;
    rows := [];
    finished := false;
    var k := 0;
    while k < |tables| && !finished
      invariant 0 <= k <= |tables|
      invariant Ordered(sort, rows) && Sourced(rows, tables, where) && PastPages(sort, limit, rows)
      invariant !finished ==> Behind(sort, rows, cursor) && |rows| == k * limit
      invariant Covered(sort, tables, where, limit, rows, cursor, finished)
    {
      LiveStep(sort, tables, where, limit, k, rows, cursor);
      var page := Search(sort, tables[k], where, cursor, limit);
      rows := rows + page.data;
      cursor := page.nextCursor;
      finished := !page.hasMore;
      k := k + 1;
    }
    if finished { WalkEnds(sort, tables, where, limit, rows, cursor); }
  }

  /** Returned means not lost. */
  lemma WalkEnds(sort: Sort, tables: seq<seq<Row>>, where: Row -> bool, limit: Positive, rows: seq<Row>,
                 cursor: Option<Cursor>)
    requires Ordered(sort, rows) && PastPages(sort, limit, rows)
             && Covered(sort, tables, where, limit, rows, cursor, true)
    ensures forall c :: Throughout(sort, tables, where, c) ==>
              (Returned(sort, rows, c) <==> !LostBetween(sort, limit, rows, c))
  {
    forall c | Throughout(sort, tables, where, c)
      ensures Returned(sort, rows, c) <==> !LostBetween(sort, limit, rows, c)
    {
      assert Accounted(sort, limit, rows, cursor, true, c);
      if Returned(sort, rows, c) { ReturnedNotLost(sort, limit, rows, c); }
    }
  }

  lemma ReturnedNotLost(sort: Sort, limit: Positive, rows: seq<Row>, c: Cursor)
    requires Ordered(sort, rows) && PastPages(sort, limit, rows) && Returned(sort, rows, c)
    ensures !LostBetween(sort, limit, rows, c)
  {
    var r :| r in rows && CursorOf(sort, r) == c;
    var i :| 0 <= i < |rows| && rows[i] == r;
    forall k | limit <= k <= |rows| && WholePages(k, limit) ensures !Lost(sort, CursorOf(sort, rows[k - 1]), c) {
      if Precedes(sort, CursorOf(sort, rows[k - 1]), c) {
        if i < k - 1 { Total(sort, CursorOf(sort, rows[i]), CursorOf(sort, rows[k - 1])); }
        if i == k - 1 { Total(sort, c, c); }
        assert k <= i;
        LostIff(sort, CursorOf(sort, rows[k - 1]), c);
      }
    }
  }

  lemma LiveStep(sort: Sort, tables: seq<seq<Row>>, where: Row -> bool, limit: Positive, k: nat, rows: seq<Row>,
                 cursor: Option<Cursor>)
    requires k < |tables| && DistinctIds(tables[k]) && Behind(sort, rows, cursor) && |rows| == k * limit
    requires Ordered(sort, rows) && Sourced(rows, tables, where) && PastPages(sort, limit, rows)
    requires Covered(sort, tables, where, limit, rows, cursor, false)
    ensures var page := Search(sort, tables[k], where, cursor, limit);
            var rows' := rows + page.data;
            && Ordered(sort, rows') && Sourced(rows', tables, where) && PastPages(sort, limit, rows')
            && (page.hasMore ==> Behind(sort, rows', page.nextCursor) && |rows'| == (k + 1) * limit)
            && Covered(sort, tables, where, limit, rows', page.nextCursor, !page.hasMore)
  {
    MultipleOf(k, limit);
    LiveRows(sort, tables[k], where, limit, rows, cursor);
    LiveSourced(sort, tables, where, limit, k, rows, cursor);
    LiveCovered(sort, tables, where, limit, k, rows, cursor);
    assert k * limit + limit == (k + 1) * limit;
  }

  lemma {:induction false} LiveRows(sort: Sort, table: seq<Row>, where: Row -> bool, limit: Positive, rows: seq<Row>,
                                    cursor: Option<Cursor>)
    requires DistinctIds(table) && Behind(sort, rows, cursor) && WholePages(|rows|, limit)
    requires Ordered(sort, rows) && PastPages(sort, limit, rows)
    ensures var page := Search(sort, table, where, cursor, limit);
            var rows' := rows + page.data;
            && Ordered(sort, rows') && PastPages(sort, limit, rows')
            && (page.hasMore ==> Behind(sort, rows', page.nextCursor) && |rows'| == |rows| + limit)
  {
    var page := Search(sort, table, where, cursor, limit);
    PageSpec(sort, table, where, cursor, limit);
    AppendOrdered(sort, rows, page.data, cursor);
    AppendPast(sort, limit, rows, page.data, cursor);
  }

  lemma LiveSourced(sort: Sort, tables: seq<seq<Row>>, where: Row -> bool, limit: Positive, k: nat, rows: seq<Row>,
                    cursor: Option<Cursor>)
    requires k < |tables| && DistinctIds(tables[k]) && Sourced(rows, tables, where)
    ensures Sourced(rows + Search(sort, tables[k], where, cursor, limit).data, tables, where)
  {
    PageSpec(sort, tables[k], where, cursor, limit);
  }

  lemma {:induction false} MultipleOf(k: nat, limit: Positive)
    ensures WholePages(k * limit, limit)
  {
    if k == 0 {
    } else {
      MultipleOf(k - 1, limit);
      assert k * limit == (k - 1) * limit + limit;
    }
  }

  /** Pages are `limit` rows apart. */
  lemma {:induction false} Between(n: nat, k: nat, limit: Positive)
    requires WholePages(n, limit) && WholePages(k, limit) && n < k
    ensures k >= n + limit
  {
    if n == 0 {
    } else {
      Between(n - limit, k - limit, limit);
    }
  }

  lemma AppendOrdered(sort: Sort, rows: seq<Row>, data: seq<Row>, cursor: Option<Cursor>)
    requires Ordered(sort, rows) && Ordered(sort, data) && Behind(sort, rows, cursor)
    requires forall r :: r in data ==> Past(sort, cursor, r)
    ensures Ordered(sort, rows + data)
  {
    forall i, j | 0 <= i < |rows| && 0 <= j < |data|
      ensures Precedes(sort, CursorOf(sort, rows[i]), CursorOf(sort, data[j]))
    {
      var last := CursorOf(sort, rows[|rows| - 1]);
      assert data[j] in data;
      SentIsLater(sort, last, CursorOf(sort, data[j]));
      if i < |rows| - 1 { Transitive(sort, CursorOf(sort, rows[i]), last, CursorOf(sort, data[j])); }
    }
  }

  lemma {:induction false} AppendPast(sort: Sort, limit: Positive, rows: seq<Row>, data: seq<Row>,
                                      cursor: Option<Cursor>)
    requires Behind(sort, rows, cursor) && PastPages(sort, limit, rows) && WholePages(|rows|, limit) && |data| <= limit
    requires forall r :: r in data ==> Past(sort, cursor, r)
    ensures PastPages(sort, limit, rows + data)
  {
    var all := rows + data;
    forall k, i | limit <= k <= i < |all| && WholePages(k, limit)
      ensures Precedes(sort, Sent(sort, CursorOf(sort, all[k - 1])), CursorOf(sort, all[i]))
    {
      if i >= |rows| {
        var last := CursorOf(sort, rows[|rows| - 1]);
        assert all[i] in data;
        if k > |rows| {
          Between(|rows|, k, limit);
          assert false;
        } else if k < |rows| {
          SentIsLater(sort, last, CursorOf(sort, all[i]));
          Transitive(sort, Sent(sort, CursorOf(sort, rows[k - 1])), last, CursorOf(sort, all[i]));
        }
      }
    }
  }

  lemma {:induction false} LiveCovered(sort: Sort, tables: seq<seq<Row>>, where: Row -> bool, limit: Positive, k: nat,
                                       rows: seq<Row>,
                    cursor: Option<Cursor>)
    requires k < |tables| && DistinctIds(tables[k]) && WholePages(|rows|, limit)
    requires Covered(sort, tables, where, limit, rows, cursor, false)
    ensures var page := Search(sort, tables[k], where, cursor, limit);
            Covered(sort, tables, where, limit, rows + page.data, page.nextCursor, !page.hasMore)
  {
    var page := Search(sort, tables[k], where, cursor, limit);
    forall c | Throughout(sort, tables, where, c)
      ensures Accounted(sort, limit, rows + page.data, page.nextCursor, !page.hasMore, c)
    {
      assert Accounted(sort, limit, rows, cursor, false, c);
      CoveredByPage(sort, tables[k], where, cursor, limit, rows, c);
    }
  }

  /** A page keeps what was returned or lost, and returns, loses or leaves ahead what was ahead. */
  lemma {:induction false} CoveredByPage(sort: Sort, table: seq<Row>, where: Row -> bool, cursor: Option<Cursor>,
                                         limit: Positive,
                      rows: seq<Row>, c: Cursor)
    requires DistinctIds(table) && Present(sort, table, where, c) && WholePages(|rows|, limit)
    requires Accounted(sort, limit, rows, cursor, false, c)
    ensures var page := Search(sort, table, where, cursor, limit);
            Accounted(sort, limit, rows + page.data, page.nextCursor, !page.hasMore, c)
  {
    var page := Search(sort, table, where, cursor, limit);
    var all := rows + page.data;
    StillReturned(sort, rows, page.data, c);
    if k :| limit <= k <= |rows| && WholePages(k, limit) && Lost(sort, CursorOf(sort, rows[k - 1]), c) {
      assert all[k - 1] == rows[k - 1];
    } else if !Returned(sort, rows, c) {
      PageOrLater(sort, table, where, cursor, limit, c);
      PageSpec(sort, table, where, cursor, limit);
      if !Returned(sort, page.data, c) {
        var last := CursorOf(sort, page.data[limit - 1]);
        LostIff(sort, last, c);
        assert WholePages(|rows| + limit, limit);
        assert all[|rows| + limit - 1] == page.data[limit - 1];
      }
    }
  }

  /** A row present now and past the cursor is on this page, or later than its last row. */
  lemma PageOrLater(sort: Sort, table: seq<Row>, where: Row -> bool, cursor: Option<Cursor>, limit: Positive, c: Cursor)
    requires DistinctIds(table) && Present(sort, table, where, c)
    requires cursor.Some? ==> Precedes(sort, cursor.value, c)
    ensures var page := Search(sort, table, where, cursor, limit);
            || Returned(sort, page.data, c)
            || (page.hasMore && |page.data| == limit && Precedes(sort, CursorOf(sort, page.data[limit - 1]), c))
  {
    var all, page := Result(sort, table, where, cursor), Search(sort, table, where, cursor, limit);
    var r :| r in table && CursorOf(sort, r) == c && where(r);
    ResultSpec(sort, table, where, cursor);
    SearchSpec(sort, table, where, cursor, limit);
    var i :| 0 <= i < |all| && all[i] == r;
    if i < |page.data| {
      assert page.data[i] == r && r in page.data;
    }
  }

  lemma StillReturned(sort: Sort, rows: seq<Row>, data: seq<Row>, c: Cursor)
    ensures Returned(sort, rows, c) || Returned(sort, data, c) ==> Returned(sort, rows + data, c)
  {
    if Returned(sort, rows, c) {
      var r :| r in rows && CursorOf(sort, r) == c;
      assert r in rows + data;
    }
    if Returned(sort, data, c) {
      var r :| r in data && CursorOf(sort, r) == c;
      assert r in rows + data;
    }
  }
}
