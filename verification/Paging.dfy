/** Cursor paging of the session search: the keyset form of the SQLite index and of the server's
    fallback, and the offset form of the shared repository, over tables that may change between
    requests. */
module Paging {
  import opened Wrappers
  import Sorting

  /** A row with its start time and the rank of its id in the order of ids. */
  datatype Session = Session(start: int, id: int)

  /** The listing order: newest first, then by id. */
  predicate Before(a: Session, b: Session) {
    a.start > b.start || (a.start == b.start && a.id < b.id)
  }

  /** A cursor names the last row of a page. */
  type Cursor = Option<Session>

  predicate After(cursor: Cursor, s: Session) {
    cursor.None? || Before(cursor.value, s)
  }

  ghost predicate Ordered(rows: seq<Session>) {
    Sorting.Ordered(rows, Before)
  }

  ghost predicate Distinct(rows: seq<Session>) {
    forall i, j | 0 <= i < j < |rows| :: rows[i] != rows[j]
  }

  function Sort(rows: seq<Session>): seq<Session> {
    Sorting.Sort(rows, Before)
  }

  lemma SortOrdered(rows: seq<Session>)
    requires Distinct(rows)
    ensures Ordered(Sort(rows)) && |Sort(rows)| == |rows|
    ensures forall x :: x in Sort(rows) <==> x in rows
  {
    Sorting.SortOrdered(rows, Before);
  }

  lemma OrderedUnique(a: seq<Session>, b: seq<Session>)
    requires Ordered(a) && Ordered(b) && forall x :: x in a <==> x in b
    ensures a == b
  {
    Sorting.OrderedUnique(a, b, Before);
  }

  lemma IndexOrder(rows: seq<Session>, i: nat, j: nat)
    requires Ordered(rows) && i < |rows| && j < |rows|
    ensures Before(rows[i], rows[j]) <==> i < j
  {
    Sorting.IndexOrder(rows, i, j, Before);
  }

  function Filter(rows: seq<Session>, cursor: Cursor): seq<Session> {
    if rows == [] then []
    else (if After(cursor, rows[0]) then [rows[0]] else []) + Filter(rows[1..], cursor)
  }

  lemma {:induction false} FilterMembers(rows: seq<Session>, cursor: Cursor)
    ensures forall x :: x in Filter(rows, cursor) <==> x in rows && After(cursor, x)
    ensures |Filter(rows, cursor)| <= |rows|
  {
    hide After;
    if rows != [] {
      FilterMembers(rows[1..], cursor);
      assert rows == [rows[0]] + rows[1..];
    }
  }

  lemma {:induction false} FilterDistinct(rows: seq<Session>, cursor: Cursor)
    requires Distinct(rows)
    ensures Distinct(Filter(rows, cursor))
  {
    hide After;
    if rows != [] {
      FilterDistinct(rows[1..], cursor);
      FilterMembers(rows[1..], cursor);
      var rest := Filter(rows[1..], cursor);
      forall j | 0 <= j < |rest| ensures rest[j] != rows[0] {
        assert rest[j] in rest;
      }
    }
  }

  lemma {:induction false} FilterOrdered(rows: seq<Session>, cursor: Cursor)
    requires Ordered(rows)
    ensures Ordered(Filter(rows, cursor))
  {
    hide After, Before;
    if rows != [] {
      FilterOrdered(rows[1..], cursor);
      FilterMembers(rows[1..], cursor);
      var rest := Filter(rows[1..], cursor);
      forall j | 0 <= j < |rest| ensures Before(rows[0], rest[j]) {
        assert rest[j] in rest;
      }
    }
  }

  lemma FilterKeeps(rows: seq<Session>, cursor: Cursor)
    ensures forall x :: x in Filter(rows, cursor) <==> x in rows && After(cursor, x)
    ensures Distinct(rows) ==> Distinct(Filter(rows, cursor))
    ensures Ordered(rows) ==> Ordered(Filter(rows, cursor))
    ensures |Filter(rows, cursor)| <= |rows|
  {
    hide Filter, After, Ordered, Distinct;
    FilterMembers(rows, cursor);
    if Distinct(rows) {
      FilterDistinct(rows, cursor);
    }
    if Ordered(rows) {
      FilterOrdered(rows, cursor);
    }
  }

  // ---------- The two forms ----------

  datatype Page = Page(items: seq<Session>, total: nat, hasMore: bool, nextCursor: Cursor)

  function Upto<T>(rows: seq<T>, n: nat): seq<T> {
    if n <= |rows| then rows[..n] else rows
  }

  /** Requested limits are clamped from 1 up to 500 by the index and 5000 by the server. */
  function Clamp(limit: int, most: nat): (n: nat)
    requires most >= 1
    ensures 1 <= n <= most
  {
    if limit < 1 then 1 else if limit > most then most else limit
  }

  /** One row more than the page decides whether there is another. */
  function KeysetRows(table: seq<Session>, cursor: Cursor, n: nat): Page
    requires n >= 1
  {
    var rows := Upto(Sort(Filter(table, cursor)), n + 1);
    var items := Upto(rows, n);
    Page(items, |table|, |rows| > n, if |rows| > n then Some(items[n - 1]) else None)
  }

  /** The indexed search. */
  function KeysetPage(table: seq<Session>, cursor: Cursor, limit: int): Page {
    KeysetRows(table, cursor, Clamp(limit, 500))
  }

  /** The server's fallback: sort everything, then drop what the cursor has passed. */
  function FallbackPage(table: seq<Session>, cursor: Cursor, limit: int): Page {
    var filtered := Filter(Sort(table), cursor);
    var n := Clamp(limit, 5000);
    var items := Upto(filtered, n);
    var next := if |filtered| > n && |items| > 0 then Some(items[|items| - 1]) else None;
    Page(items, |Sort(table)|, next.Some?, next)
  }

  function FindIndex(rows: seq<Session>, s: Session): (i: int)
    ensures -1 <= i < |rows|
    ensures i >= 0 ==> rows[i] == s
    ensures i < 0 <==> s !in rows
  {
    if rows == [] then -1
    else if rows[0] == s then 0
    else
      var rest := FindIndex(rows[1..], s);
      if rest < 0 then -1 else rest + 1
  }

  function OffsetRows(table: seq<Session>, cursor: Cursor, n: nat): Page
    requires n >= 1
  {
    var items := Sort(table);
    var index := if cursor.Some? then FindIndex(items, cursor.value) else -1;
    var rest := items[index + 1..];
    var pageItems := Upto(rest, n);
    var hasMore := index + 1 + |pageItems| < |items|;
    Page(pageItems, |items|, hasMore, if hasMore && |pageItems| > 0 then Some(pageItems[|pageItems| - 1]) else None)
  }

  /** The repository's form: continue behind the cursor's row, or from the start if it is gone. */
  function OffsetPage(table: seq<Session>, cursor: Cursor, limit: int): Page {
    OffsetRows(table, cursor, if limit < 1 then 1 else limit)
  }

  lemma SortFilterCommute(table: seq<Session>, cursor: Cursor)
    requires Distinct(table)
    ensures Filter(Sort(table), cursor) == Sort(Filter(table, cursor))
    ensures |Sort(table)| == |table|
  {
    SortOrdered(table);
    FilterKeeps(Sort(table), cursor);
    FilterKeeps(table, cursor);
    SortOrdered(Filter(table, cursor));
    OrderedUnique(Filter(Sort(table), cursor), Sort(Filter(table, cursor)));
  }

  /** Two page sizes give the same page exactly when both reach the end or they are equal. */
  lemma SizesAgreeIff(table: seq<Session>, cursor: Cursor, m: nat, n: nat)
    requires Distinct(table) && 1 <= m <= n
    ensures KeysetRows(table, cursor, m) == KeysetRows(table, cursor, n)
            <==> m == n || |Filter(table, cursor)| <= m
  {
    hide Filter, Sort, Distinct, Before;
    FilterKeeps(table, cursor);
    SortOrdered(Filter(table, cursor));
  }

  /** The fallback answers a request as the index does, except beyond the index's own limit. */
  lemma FallbackAgreesIff(table: seq<Session>, cursor: Cursor, limit: int)
    requires Distinct(table)
    ensures FallbackPage(table, cursor, limit) == KeysetPage(table, cursor, limit)
            <==> limit <= 500 || |Filter(table, cursor)| <= 500
  {
    hide Filter, Sort, Distinct, KeysetRows;
    FallbackIsKeyset(table, cursor, limit);
    SizesAgreeIff(table, cursor, Clamp(limit, 500), Clamp(limit, 5000));
  }

  lemma FallbackIsKeyset(table: seq<Session>, cursor: Cursor, limit: int)
    requires Distinct(table)
    ensures FallbackPage(table, cursor, limit) == KeysetRows(table, cursor, Clamp(limit, 5000))
  {
    hide Filter, Sort, Distinct;
    SortFilterCommute(table, cursor);
  }

  /** Dropping what precedes the cursor is dropping everything up to its position. */
  lemma {:induction false} FilterIsSuffix(rows: seq<Session>, i: nat)
    requires Ordered(rows) && i < |rows|
    ensures Filter(rows, Some(rows[i])) == rows[i + 1..]
  {
    FilterKeeps(rows, Some(rows[i]));
    forall x ensures x in rows[i + 1..] <==> x in Filter(rows, Some(rows[i])) {
      if x in rows[i + 1..] {
        var j :| 0 <= j < |rows[i + 1..]| && rows[i + 1..][j] == x;
        assert Before(rows[i], rows[i + 1 + j]);
      }
      if x in rows && Before(rows[i], x) {
        var j :| 0 <= j < |rows| && rows[j] == x;
        IndexOrder(rows, i, j);
        assert rows[i + 1..][j - i - 1] == x;
      }
    }
    OrderedUnique(Filter(rows, Some(rows[i])), rows[i + 1..]);
  }

  lemma {:induction false} FilterAll(rows: seq<Session>, cursor: Cursor)
    requires forall x | x in rows :: After(cursor, x)
    ensures Filter(rows, cursor) == rows
  {
    if rows != [] {
      assert rows == [rows[0]] + rows[1..] && rows[0] in rows;
      FilterAll(rows[1..], cursor);
    }
  }

  /** The cursor's place is still known to the offset form. */
  ghost predicate PlaceKnown(table: seq<Session>, cursor: Cursor) {
    cursor.None? || cursor.value in table || forall x | x in table :: After(cursor, x)
  }

  /** Both forms cut a page from the rows they take to be still to come. */
  function PageOf(rows: seq<Session>, total: nat, n: nat): Page
    requires n >= 1
  {
    Page(Upto(rows, n), total, |rows| > n, if |rows| > n then Some(rows[n - 1]) else None)
  }

  lemma KeysetIsPageOf(table: seq<Session>, cursor: Cursor, n: nat)
    requires n >= 1
    ensures KeysetRows(table, cursor, n) == PageOf(Sort(Filter(table, cursor)), |table|, n)
  {}

  function OffsetRest(items: seq<Session>, cursor: Cursor): seq<Session> {
    items[if cursor.Some? then FindIndex(items, cursor.value) + 1 else 0..]
  }

  lemma OffsetIsPageOf(table: seq<Session>, cursor: Cursor, n: nat)
    requires n >= 1
    ensures OffsetRows(table, cursor, n) == PageOf(OffsetRest(Sort(table), cursor), |Sort(table)|, n)
  {
    hide Sort;
    assert Sort(table)[0..] == Sort(table);
  }

  lemma OffsetRowsKnown(table: seq<Session>, cursor: Cursor, n: nat)
    requires Distinct(table) && n >= 1 && PlaceKnown(table, cursor)
    ensures OffsetRows(table, cursor, n) == KeysetRows(table, cursor, n)
  {
    hide OffsetRows, KeysetRows, PageOf, Sort, Filter, Before, Ordered;
    KeysetIsPageOf(table, cursor, n);
    OffsetIsPageOf(table, cursor, n);
    SortOrdered(table);
    SortFilterCommute(table, cursor);
    var items := Sort(table);
    if cursor.Some? && cursor.value in table {
      FilterIsSuffix(items, FindIndex(items, cursor.value));
    } else {
      FilterAll(items, cursor);
      assert items[0..] == items;
      assert cursor.Some? ==> FindIndex(items, cursor.value) == -1;
    }
  }

  lemma FirstPassed(items: seq<Session>, cursor: Cursor, x: Session)
    requires Ordered(items) && x in items && !After(cursor, x)
    ensures items != [] && !After(cursor, items[0])
  {
    var i :| 0 <= i < |items| && items[i] == x;
    assert i > 0 ==> Before(items[0], items[i]);
  }

  lemma FilteredAfter(rows: seq<Session>, cursor: Cursor)
    ensures Filter(rows, cursor) != [] ==> After(cursor, Filter(rows, cursor)[0])
  {
    FilterKeeps(rows, cursor);
    var filtered := Filter(rows, cursor);
    assert filtered != [] ==> filtered[0] in filtered;
  }

  /** Without its place, the offset form starts over with a row the cursor had passed. */
  lemma OffsetRowsLost(table: seq<Session>, cursor: Cursor, m: nat, n: nat)
    requires Distinct(table) && m >= 1 && n >= 1 && !PlaceKnown(table, cursor)
    ensures OffsetRows(table, cursor, n).items != [] && !After(cursor, OffsetRows(table, cursor, n).items[0])
    ensures OffsetRows(table, cursor, n).items != KeysetRows(table, cursor, m).items
  {
    hide OffsetRows, KeysetRows, Sort, Filter, Before, Ordered;
    KeysetIsPageOf(table, cursor, m);
    OffsetIsPageOf(table, cursor, n);
    SortOrdered(table);
    SortFilterCommute(table, cursor);
    var items := Sort(table);
    assert cursor.Some? && FindIndex(items, cursor.value) == -1;
    assert items[0..] == items;
    var x :| x in table && !After(cursor, x);
    FirstPassed(items, cursor, x);
    FilteredAfter(items, cursor);
  }

  /** The offset form agrees with the keyset form exactly when the request has no cursor, the
      cursor's row is still in the table, or every row lies behind the cursor anyway (and the
      page is within the index's limit). */
  lemma OffsetAgreesIff(table: seq<Session>, cursor: Cursor, limit: int)
    requires Distinct(table)
    ensures OffsetPage(table, cursor, limit) == KeysetPage(table, cursor, limit)
            <==> PlaceKnown(table, cursor) && (limit <= 500 || |Filter(table, cursor)| <= 500)
  {
    hide OffsetRows, KeysetRows, PlaceKnown;
    var n := if limit < 1 then 1 else limit;
    if PlaceKnown(table, cursor) {
      OffsetRowsKnown(table, cursor, n);
      SizesAgreeIff(table, cursor, Clamp(limit, 500), n);
    } else {
      OffsetRowsLost(table, cursor, Clamp(limit, 500), n);
    }
  }

  // ---------- Walks over a changing table ----------

  /** One request per table version, each continuing with the cursor of the page before; the
      walk ends with the first page that has no next cursor. */
  ghost predicate IsWalk(tables: seq<seq<Session>>, pages: seq<Page>, limit: int) {
    && |tables| == |pages| > 0
    && (forall k | 0 <= k < |pages| ::
         Distinct(tables[k]) && pages[k] == KeysetPage(tables[k], CursorAt(pages, k), limit))
    && (forall k | 0 <= k < |pages| :: pages[k].nextCursor.None? <==> k == |pages| - 1)
  }

  ghost function CursorAt(pages: seq<Page>, k: nat): Cursor
    requires k < |pages|
  {
    if k == 0 then None else pages[k - 1].nextCursor
  }

  function Returned(pages: seq<Page>): seq<Session> {
    if pages == [] then [] else Returned(pages[..|pages| - 1]) + pages[|pages| - 1].items
  }

  /** s lies between where page k starts and where it ends. */
  ghost predicate InWindow(pages: seq<Page>, k: nat, s: Session)
    requires k < |pages|
  {
    After(CursorAt(pages, k), s) && (pages[k].nextCursor.None? || !After(pages[k].nextCursor, s))
  }

  /** A page holds exactly the rows of its table inside its window, in order. */
  lemma PageIsWindow(table: seq<Session>, cursor: Cursor, n: nat, s: Session)
    requires Distinct(table) && n >= 1
    ensures var page := KeysetRows(table, cursor, n);
            && Ordered(page.items)
            && (s in page.items <==> s in table && After(cursor, s)
                                     && (page.nextCursor.None? || !After(page.nextCursor, s)))
            && (page.nextCursor.Some? ==> page.nextCursor.value in page.items)
  {
    hide Filter, Sort;
    FilterKeeps(table, cursor);
    SortOrdered(Filter(table, cursor));
    var all := Sort(Filter(table, cursor));
    var page := KeysetRows(table, cursor, n);
    if page.nextCursor.None? {
      assert page.items == all;
    } else {
      assert page.items == all[..n] && page.nextCursor.value == all[n - 1];
      if s in all {
        var i :| 0 <= i < |all| && all[i] == s;
        IndexOrder(all, n - 1, i);
        assert i < n ==> page.items[i] == s;
      }
    }
  }

  /** In a page rows with later start times come first, and of the same time those with lower ids;
      all of them come after the cursor. */
  lemma NewestComeFirst(table: seq<Session>, cursor: Cursor, n: nat, i: nat, j: nat)
    requires Distinct(table) && n >= 1 && i < j < |KeysetRows(table, cursor, n).items|
    ensures var a, b := KeysetRows(table, cursor, n).items[i], KeysetRows(table, cursor, n).items[j];
            && (a.start > b.start || (a.start == b.start && a.id < b.id))
            && (cursor.Some? ==>
                  cursor.value.start > a.start || (cursor.value.start == a.start && cursor.value.id < a.id))
  {
    hide KeysetRows;
    var items := KeysetRows(table, cursor, n).items;
    assert items[i] in items;
    PageIsWindow(table, cursor, n, items[i]);
    IndexOrder(items, i, j);
  }

  /** The windows follow one another: a row is in the window of one page at most. */
  lemma {:induction false} CursorsAdvance(tables: seq<seq<Session>>, pages: seq<Page>, limit: int, j: nat, k: nat,
                                          s: Session)
    requires IsWalk(tables, pages, limit) && j <= k < |pages| && After(CursorAt(pages, k), s)
    ensures After(CursorAt(pages, j), s)
    decreases k - j
  {
    hide KeysetRows;
    if j < k {
      var page := pages[k - 1];
      PageIsWindow(tables[k - 1], CursorAt(pages, k - 1), Clamp(limit, 500), page.nextCursor.value);
      CursorsAdvance(tables, pages, limit, j, k - 1, s);
    }
  }

  lemma WindowsDisjoint(tables: seq<seq<Session>>, pages: seq<Page>, limit: int, j: nat, k: nat, s: Session)
    requires IsWalk(tables, pages, limit) && j < |pages| && k < |pages|
    requires InWindow(pages, j, s) && InWindow(pages, k, s)
    ensures j == k
  {
    hide KeysetPage, Distinct, After;
    if j < k {
      CursorsAdvance(tables, pages, limit, j + 1, k, s);
    } else if k < j {
      CursorsAdvance(tables, pages, limit, k + 1, j, s);
    }
  }

  /** The windows leave no gap: every row is in the window of some page. */
  lemma {:induction false} WindowOf(tables: seq<seq<Session>>, pages: seq<Page>, limit: int, s: Session, from: nat)
    returns (k: nat)
    requires IsWalk(tables, pages, limit) && from < |pages| && After(CursorAt(pages, from), s)
    ensures k < |pages| && InWindow(pages, k, s)
    decreases |pages| - from
  {
    hide KeysetPage;
    if pages[from].nextCursor.None? || !After(pages[from].nextCursor, s) {
      k := from;
    } else {
      k := WindowOf(tables, pages, limit, s, from + 1);
    }
  }

  function Count(rows: seq<Session>, s: Session): nat {
    if rows == [] then 0 else Count(rows[..|rows| - 1], s) + (if rows[|rows| - 1] == s then 1 else 0)
  }

  lemma {:induction false} CountConcat(a: seq<Session>, b: seq<Session>, s: Session)
    ensures Count(a + b, s) == Count(a, s) + Count(b, s)
  {
    if b == [] {
      assert a + b == a;
    } else {
      assert (a + b)[..|a + b| - 1] == a + b[..|b| - 1];
      CountConcat(a, b[..|b| - 1], s);
    }
  }

  lemma {:induction false} CountOrdered(rows: seq<Session>, s: Session)
    requires Ordered(rows)
    ensures Count(rows, s) == if s in rows then 1 else 0
  {
    if rows != [] {
      var front, last := rows[..|rows| - 1], rows[|rows| - 1];
      CountOrdered(front, s);
      assert rows == front + [last];
      if s in front {
        var i :| 0 <= i < |front| && front[i] == s;
        assert Before(rows[i], last);
      }
    }
  }

  lemma CountInPage(tables: seq<seq<Session>>, pages: seq<Page>, limit: int, s: Session, k: nat)
    requires IsWalk(tables, pages, limit) && k < |pages|
    ensures Count(pages[k].items, s) == if InWindow(pages, k, s) && s in tables[k] then 1 else 0
  {
    hide KeysetRows, After, Ordered;
    PageIsWindow(tables[k], CursorAt(pages, k), Clamp(limit, 500), s);
    CountOrdered(pages[k].items, s);
  }

  lemma CountNext(pages: seq<Page>, n: nat, s: Session)
    requires 0 < n <= |pages|
    ensures Count(Returned(pages[..n]), s) == Count(Returned(pages[..n - 1]), s) + Count(pages[n - 1].items, s)
  {
    hide Count;
    assert pages[..n][..n - 1] == pages[..n - 1];
    CountConcat(Returned(pages[..n - 1]), pages[n - 1].items, s);
  }

  /** How often the first n pages return s: once if its window is among them and its row was in
      the table then, never otherwise. */
  lemma {:induction false} CountReturned(tables: seq<seq<Session>>, pages: seq<Page>, limit: int, s: Session, k: nat,
                                         n: nat)
    requires IsWalk(tables, pages, limit) && k < |pages| && InWindow(pages, k, s) && n <= |pages|
    ensures Count(Returned(pages[..n]), s) == if k < n && s in tables[k] then 1 else 0
    decreases n
  {
    hide Count, Returned, InWindow, IsWalk;
    if n == 0 {
      CountNothing(pages, s);
    } else {
      WalkLengths(tables, pages, limit);
      CountReturned(tables, pages, limit, s, k, n - 1);
      CountNext(pages, n, s);
      CountInPage(tables, pages, limit, s, n - 1);
      if InWindow(pages, n - 1, s) {
        WindowsDisjoint(tables, pages, limit, n - 1, k, s);
      }
    }
  }

  lemma WalkLengths(tables: seq<seq<Session>>, pages: seq<Page>, limit: int)
    requires IsWalk(tables, pages, limit)
    ensures |tables| == |pages|
  {}

  lemma CountNothing(pages: seq<Page>, s: Session)
    ensures Count(Returned(pages[..0]), s) == 0
  {}

  /** Over a table that changes between requests: a finished walk returns no row twice, returns
      every row present throughout, and returns none that was never there. */
  lemma WalkIsExact(tables: seq<seq<Session>>, pages: seq<Page>, limit: int, s: Session)
    requires IsWalk(tables, pages, limit)
    ensures Count(Returned(pages), s) <= 1
    ensures (forall k | 0 <= k < |tables| :: s in tables[k]) ==> Count(Returned(pages), s) == 1
    ensures (forall k | 0 <= k < |tables| :: s !in tables[k]) ==> Count(Returned(pages), s) == 0
  {
    hide Count, Returned, InWindow;
    var k := WindowOf(tables, pages, limit, s, 0);
    CountReturned(tables, pages, limit, s, k, |pages|);
    assert pages[..|pages|] == pages;
  }

  lemma {:induction false} ReturnedOrdered(tables: seq<seq<Session>>, pages: seq<Page>, limit: int, n: nat)
    requires IsWalk(tables, pages, limit) && n <= |pages|
    ensures Ordered(Returned(pages[..n]))
    ensures forall s | s in Returned(pages[..n]) :: n < |pages| ==> !After(CursorAt(pages, n), s)
    decreases n
  {
    hide KeysetRows;
    if n == 0 {
      assert pages[..0] == [];
    } else {
      ReturnedOrdered(tables, pages, limit, n - 1);
      assert pages[..n][..n - 1] == pages[..n - 1];
      var before, page := Returned(pages[..n - 1]), pages[n - 1];
      assert Returned(pages[..n]) == before + page.items;
      forall s | s in Returned(pages[..n]) && n < |pages| ensures !After(CursorAt(pages, n), s) {
        PageIsWindow(tables[n - 1], CursorAt(pages, n - 1), Clamp(limit, 500), s);
        if After(CursorAt(pages, n), s) {
          CursorsAdvance(tables, pages, limit, n - 1, n, s);
        }
      }
      forall s | s in page.items ensures After(CursorAt(pages, n - 1), s) {
        PageIsWindow(tables[n - 1], CursorAt(pages, n - 1), Clamp(limit, 500), s);
      }
      if n < |pages| {
        PageIsWindow(tables[n - 1], CursorAt(pages, n - 1), Clamp(limit, 500), page.nextCursor.value);
      }
      forall x, y | x in before && y in page.items ensures Before(x, y) {
        assert n - 1 > 0 && !After(CursorAt(pages, n - 1), x) && After(CursorAt(pages, n - 1), y);
      }
      PageOrdered(tables[n - 1], CursorAt(pages, n - 1), Clamp(limit, 500));
      Sorting.OrderedConcat(before, page.items, Before);
    }
  }

  lemma PageOrdered(table: seq<Session>, cursor: Cursor, n: nat)
    requires Distinct(table) && n >= 1
    ensures Ordered(KeysetRows(table, cursor, n).items)
  {
    PageIsWindow(table, cursor, n, Session(0, 0));
  }

  /** Over a table that stays the same, the walk's pages spell out the whole sorted listing. */
  lemma FixedWalkIsListing(tables: seq<seq<Session>>, pages: seq<Page>, limit: int, table: seq<Session>)
    requires IsWalk(tables, pages, limit) && forall k | 0 <= k < |tables| :: tables[k] == table
    ensures Returned(pages) == Sort(table)
  {
    assert tables[0] == table;
    ReturnedOrdered(tables, pages, limit, |pages|);
    assert pages[..|pages|] == pages;
    SortOrdered(table);
    forall s ensures s in Returned(pages) <==> s in Sort(table) {
      WalkIsExact(tables, pages, limit, s);
      CountOrdered(Returned(pages), s);
    }
    OrderedUnique(Returned(pages), Sort(table));
  }

  /** When the cursor's row is gone, the offset form answers with the first page again. */
  lemma OffsetRestarts(table: seq<Session>, cursor: Cursor, limit: int)
    requires Distinct(table) && cursor.Some? && cursor.value !in table
    ensures OffsetPage(table, cursor, limit) == OffsetPage(table, None, limit)
  {
    SortOrdered(table);
    assert FindIndex(Sort(table), cursor.value) == -1;
  }

  /** Both disagreements happen: 501 rows asked for at once, */
  lemma FallbackDiffers()
    ensures var table := seq(501, i => Session(0, i));
            Distinct(table) && FallbackPage(table, None, 501) != KeysetPage(table, None, 501)
  {
    hide FallbackPage, KeysetPage;
    var table := seq(501, i => Session(0, i));
    FilterAll(table, None);
    FallbackAgreesIff(table, None, 501);
  }

  /** and a cursor whose row is gone, with a row before it. */
  lemma OffsetDiffers()
    ensures var table, cursor := [Session(5, 1), Session(1, 2)], Some(Session(3, 0));
            OffsetPage(table, cursor, 1) != KeysetPage(table, cursor, 1)
  {
    hide OffsetPage, KeysetPage;
    var table, cursor := [Session(5, 1), Session(1, 2)], Some(Session(3, 0));
    assert !After(cursor, table[0]);
    OffsetAgreesIff(table, cursor, 1);
  }
}
