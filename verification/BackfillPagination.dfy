/**
 * Keyset pagination over (created_at, id), opensearchBackfillPagination.ts: what paging until an empty page returns,
 * on a fixed table and on a table that changes between pages.
 */
module BackfillPagination {
  import opened Basics

  /** A table row and a cursor have the same two columns; `us` is microseconds. */
  datatype Row = Row(us: int, id: string)

  datatype Order = Asc | Desc

  datatype Query = Query(limit: int, order: Order, since: Option<int>, until: Option<int>)

  function CompareTuple(a: Row, b: Row): int {
    if a.us < b.us then -1
    else if a.us > b.us then 1
    else if StrLess(a.id, b.id) then -1
    else if StrLess(b.id, a.id) then 1
    else 0
  }

  predicate LeRow(a: Row, b: Row) { CompareTuple(a, b) <= 0 }

  function Reverse(s: seq<Row>): seq<Row> {
    if s == [] then [] else Reverse(s[1..]) + [s[0]]
  }

  function SortRows(rows: seq<Row>, order: Order): seq<Row> {
    var sorted := Sort(rows, LeRow);
    if order == Asc then sorted else Reverse(sorted)
  }

  predicate RowPassesBounds(row: Row, q: Query) {
    && !(q.since.Some? && row.us < q.since.value)
    && !(q.until.Some? && row.us > q.until.value)
  }

  predicate RowPassesCursor(row: Row, cursor: Row, order: Order) {
    var cmp := CompareTuple(row, cursor);
    if order == Asc then cmp > 0 else cmp < 0
  }

  function Passing(rows: seq<Row>, cursor: Row, q: Query): seq<Row> {
    if rows == [] then []
    else if RowPassesBounds(rows[0], q) && RowPassesCursor(rows[0], cursor, q.order)
    then [rows[0]] + Passing(rows[1..], cursor, q)
    else Passing(rows[1..], cursor, q)
  }

  /** `slice(0, limit)`: a negative limit counts from the end. */
  function Slice(s: seq<Row>, limit: int): seq<Row> {
    if limit < 0 then s[..Max(0, |s| + limit)] else s[..Min(limit, |s|)]
  }

  function PageFromCursor(rows: seq<Row>, cursor: Row, q: Query): seq<Row> {
    Slice(Passing(SortRows(rows, q.order), cursor, q), q.limit)
  }

  function NextCursorFromPage(page: seq<Row>): Option<Row> {
    if page == [] then None else Some(page[|page| - 1])
  }

  /** Everything still to come after the cursor, in order. */
  function Suffix(rows: seq<Row>, cursor: Row, q: Query): seq<Row> {
    Passing(SortRows(rows, q.order), cursor, q)
  }

  // ---- The order --------------------------------------------------------------------------------------

  /** `b` comes strictly after `a` in the direction of the query: later, or at the same instant with the greater id. */
  predicate After(order: Order, a: Row, b: Row) {
    if order == Asc then a.us < b.us || (a.us == b.us && StrLess(a.id, b.id))
    else b.us < a.us || (b.us == a.us && StrLess(b.id, a.id))
  }

  /** Both bounds are inclusive. */
  predicate Within(q: Query, row: Row) {
    (q.since.Some? ==> q.since.value <= row.us) && (q.until.Some? ==> row.us <= q.until.value)
  }

  /** The two row tests mean that, and the comparison sorts in that order. */
  lemma TestsMean(row: Row, cursor: Row, q: Query)
    ensures RowPassesCursor(row, cursor, q.order) <==> After(q.order, cursor, row)
    ensures RowPassesBounds(row, q) <==> Within(q, row)
    ensures LeRow(row, cursor) <==> row == cursor || After(Asc, row, cursor)
  {
    StrLessTotal(row.id, cursor.id);
  }

  ghost predicate Strict(order: Order, s: seq<Row>) {
    forall i, j :: 0 <= i < j < |s| ==> After(order, s[i], s[j])
  }

  lemma AfterTransitive(order: Order, a: Row, b: Row, c: Row)
    requires After(order, a, b) && After(order, b, c)
    ensures After(order, a, c)
  {
    if order == Asc && a.us == b.us == c.us { StrLessTransitive(a.id, b.id, c.id); }
    if order == Desc && a.us == b.us == c.us { StrLessTransitive(c.id, b.id, a.id); }
  }

  lemma AfterTotal(order: Order, a: Row, b: Row)
    ensures !After(order, a, a)
    ensures a != b ==> (After(order, a, b) <==> !After(order, b, a))
  {
    StrLessTotal(a.id, b.id);
    StrLessTotal(a.id, a.id);
  }

  lemma LeRowIsTotalPreorder()
    ensures TotalPreorder(LeRow)
  {
    var q := Query(1, Asc, None, None);
    forall a, b ensures LeRow(a, b) || LeRow(b, a) {
      TestsMean(a, b, q);
      TestsMean(b, a, q);
      AfterTotal(Asc, a, b);
    }
    forall a, b, c | LeRow(a, b) && LeRow(b, c) ensures LeRow(a, c) {
      TestsMean(a, b, q);
      TestsMean(b, c, q);
      TestsMean(a, c, q);
      hide After, LeRow;
      if a != b && b != c {
        AfterTransitive(Asc, a, b, c);
      }
    }
  }

  lemma {:induction false} ReversePermutes(s: seq<Row>)
    ensures multiset(Reverse(s)) == multiset(s)
  {
    if s == [] {
    } else {
      ReversePermutes(s[1..]);
      assert s == [s[0]] + s[1..];
    }
  }

  lemma {:induction false} ReverseAt(s: seq<Row>, i: nat)
    requires i < |s|
    ensures |Reverse(s)| == |s| && Reverse(s)[i] == s[|s| - 1 - i]
  {
    ReverseLength(s);
    if i < |s| - 1 { ReverseAt(s[1..], i); }
  }

  lemma {:induction false} ReverseLength(s: seq<Row>)
    ensures |Reverse(s)| == |s|
  {
    if s == [] {
    } else {
      ReverseLength(s[1..]);
    }
  }

  lemma OccursOnce(s: seq<Row>, x: Row)
    requires Distinct(s)
    ensures multiset(s)[x] <= 1
  {
    if x in s {
      var i :| 0 <= i < |s| && s[i] == x;
      assert s == s[..i] + [x] + s[i + 1..];
      assert x !in s[..i] && x !in s[i + 1..];
    }
  }

  lemma DistinctPermutation(s: seq<Row>, t: seq<Row>)
    requires Distinct(s) && multiset(s) == multiset(t)
    ensures Distinct(t)
  {
    forall i, j | 0 <= i < j < |t| ensures t[i] != t[j] {
      OccursOnce(s, t[i]);
      assert t == t[..i] + [t[i]] + t[i + 1..j] + [t[j]] + t[j + 1..];
    }
  }

  lemma SortedRows(rows: seq<Row>)
    ensures SortedBy(Sort(rows, LeRow), LeRow) && multiset(Sort(rows, LeRow)) == multiset(rows)
  {
    LeRowIsTotalPreorder();
    hide TotalPreorder, LeRow, SortedBy;
    SortIsSortedPermutation(rows, LeRow);
  }

  lemma SortedIsStrict(rows: seq<Row>)
    requires Distinct(rows)
    ensures Strict(Asc, Sort(rows, LeRow))
  {
    var sorted := Sort(rows, LeRow);
    SortedRows(rows);
    DistinctPermutation(rows, sorted);
    hide Sort, CompareTuple;
    forall i, j | 0 <= i < j < |sorted| ensures After(Asc, sorted[i], sorted[j]) {
      assert LeRow(sorted[i], sorted[j]);
      TestsMean(sorted[i], sorted[j], Query(1, Asc, None, None));
      AfterTotal(Asc, sorted[i], sorted[j]);
    }
  }

  lemma ReversedIsStrict(s: seq<Row>)
    requires Strict(Asc, s)
    ensures Strict(Desc, Reverse(s))
  {
    hide Reverse;
    ReverseLength(s);
    forall i, j | 0 <= i < j < |s| ensures After(Desc, Reverse(s)[i], Reverse(s)[j]) {
      ReverseAt(s, i);
      ReverseAt(s, j);
      assert After(Asc, s[|s| - 1 - j], s[|s| - 1 - i]);
    }
  }

  /** Sorting a table without duplicates gives a strictly ordered permutation, in either direction. */
  lemma SortRowsIsStrict(rows: seq<Row>, order: Order)
    requires Distinct(rows)
    ensures Strict(order, SortRows(rows, order)) && multiset(SortRows(rows, order)) == multiset(rows)
  {
    SortedIsStrict(rows);
    ReversedIsStrict(Sort(rows, LeRow));
    ReversePermutes(Sort(rows, LeRow));
    SortedRows(rows);
    hide Sort, Reverse, Strict, SortedBy, Distinct;
  }

  // ---- Strictly ordered lists --------------------------------------------------------------------------

  lemma StrictJoin(order: Order, a: seq<Row>, b: seq<Row>)
    requires Strict(order, a) && Strict(order, b)
    requires forall x, y :: x in a && y in b ==> After(order, x, y)
    ensures Strict(order, a + b)
  {
    hide After;
  }

  lemma StrictIsDistinct(order: Order, s: seq<Row>)
    requires Strict(order, s)
    ensures Distinct(s)
  {
    forall i, j | 0 <= i < j < |s| ensures s[i] != s[j] { AfterTotal(order, s[i], s[j]); }
  }

  /** A strictly ordered list is determined by its members. */
  lemma {:induction false} StrictListsAgree(order: Order, a: seq<Row>, b: seq<Row>)
    requires Strict(order, a) && Strict(order, b)
    requires forall x :: x in a <==> x in b
    ensures a == b
  {
    if a == [] || b == [] {
      EmptyHasNoMembers(a);
      EmptyHasNoMembers(b);
    } else {
      HeadsAgree(order, a, b);
      assert a == [a[0]] + a[1..] && b == [b[0]] + b[1..];
      forall x ensures x in a[1..] <==> x in b[1..] {
        TailMembers(order, a, x);
        TailMembers(order, b, x);
      }
      StrictListsAgree(order, a[1..], b[1..]);
    }
  }

  lemma EmptyHasNoMembers(s: seq<Row>)
    ensures s == [] <==> forall x :: x !in s
  {
    if s != [] { assert s[0] in s; }
  }

  lemma HeadsAgree(order: Order, a: seq<Row>, b: seq<Row>)
    requires Strict(order, a) && Strict(order, b) && a != [] && b != []
    requires forall x :: x in a <==> x in b
    ensures a[0] == b[0]
  {
    assert a[0] in b && b[0] in a;
    AfterTotal(order, a[0], b[0]);
    hide After;
  }

  lemma TailMembers(order: Order, a: seq<Row>, x: Row)
    requires Strict(order, a) && a != []
    ensures x in a[1..] <==> x in a && x != a[0]
  {
    AfterTotal(order, a[0], a[0]);
    hide After;
    assert a == [a[0]] + a[1..];
  }

  // ---- Pages ------------------------------------------------------------------------------------------

  lemma {:induction false} PassingFacts(s: seq<Row>, cursor: Row, q: Query)
    requires Strict(q.order, s)
    ensures Strict(q.order, Passing(s, cursor, q))
    ensures forall x :: x in Passing(s, cursor, q)
                        <==> x in s && Within(q, x) && After(q.order, cursor, x)
  {
    if s == [] {
    } else {
      assert s == [s[0]] + s[1..];
      PassingFacts(s[1..], cursor, q);
      TestsMean(s[0], cursor, q);
      var rest := Passing(s[1..], cursor, q);
      hide RowPassesCursor, RowPassesBounds, Within, After;
      forall y | y in rest ensures After(q.order, s[0], y) {
        assert y in s[1..];
      }
      StrictJoin(q.order, [s[0]], rest);
    }
  }

  /** What lies past the cursor within bounds, each row once and in strict order. */
  lemma SuffixFacts(rows: seq<Row>, cursor: Row, q: Query)
    requires Distinct(rows)
    ensures Strict(q.order, Suffix(rows, cursor, q))
    ensures forall x :: x in Suffix(rows, cursor, q)
                        <==> x in rows && Within(q, x) && After(q.order, cursor, x)
  {
    SortRowsIsStrict(rows, q.order);
    PassingFacts(SortRows(rows, q.order), cursor, q);
    hide SortRows;
    assert forall x :: x in rows <==> x in multiset(rows);
    assert forall x :: x in SortRows(rows, q.order) <==> x in multiset(SortRows(rows, q.order));
  }

  /** On a fixed table, moving the cursor to the end of any prefix leaves exactly the rest. */
  lemma SuffixAfterPrefix(rows: seq<Row>, cursor: Row, q: Query, n: nat)
    requires Distinct(rows) && 0 < n <= |Suffix(rows, cursor, q)|
    ensures Suffix(rows, Suffix(rows, cursor, q)[n - 1], q) == Suffix(rows, cursor, q)[n..]
  {
    var s := Suffix(rows, cursor, q);
    var t := Suffix(rows, s[n - 1], q);
    SuffixFacts(rows, cursor, q);
    SuffixFacts(rows, s[n - 1], q);
    hide Suffix, Within, After;
    forall x ensures x in t <==> x in s[n..] {
      AfterSplits(s, n, x, q.order);
      if x in t {
        assert x in rows && After(q.order, s[n - 1], x);
        assert s[n - 1] in s;
        assert After(q.order, cursor, s[n - 1]);
        AfterTransitive(q.order, cursor, s[n - 1], x);
        assert x in s;
      }
    }
    StrictListsAgree(q.order, t, s[n..]);
  }

  /** In a strictly ordered list, the rows after element n - 1 are those at positions n and up. */
  lemma AfterSplits(s: seq<Row>, n: nat, x: Row, order: Order)
    requires Strict(order, s) && 0 < n <= |s|
    ensures x in s && After(order, s[n - 1], x) <==> x in s[n..]
  {
    if x in s {
      var i :| 0 <= i < |s| && s[i] == x;
      if i < n - 1 { assert After(order, s[i], s[n - 1]); }
      AfterTotal(order, s[n - 1], x);
      if i >= n { assert s[n..][i - n] == x; }
      if x in s[n..] {
        var k :| 0 <= k < |s| - n && s[n..][k] == x;
        assert After(order, s[n - 1], s[n + k]);
      }
    }
  }

  /** With a limit of at least 1 a page is a prefix of the suffix, and empty only at the end. */
  lemma PageIsPrefix(rows: seq<Row>, cursor: Row, q: Query)
    requires q.limit >= 1
    ensures var s := Suffix(rows, cursor, q);
            var page := PageFromCursor(rows, cursor, q);
            && page == s[..Min(q.limit, |s|)]
            && (page == [] <==> s == [])
  {}

  // ---- Draining ---------------------------------------------------------------------------------------

  /** `complete` says that the last page read was empty. */
  datatype Drained = Drained(rows: seq<Row>, complete: bool)

  /** Page after page, page i from the table as it is at that moment, until one is empty. */
  function Drain(tables: seq<seq<Row>>, cursor: Row, q: Query): Drained {
    if tables == [] then Drained([], false)
    else
      var page := PageFromCursor(tables[0], cursor, q);
      match NextCursorFromPage(page)
      case None => Drained([], true)
      case Some(next) =>
        var rest := Drain(tables[1..], next, q);
        Drained(page + rest.rows, rest.complete)
  }

  ghost predicate NoDuplicates(tables: seq<seq<Row>>) { forall t <- tables :: Distinct(t) }

  /** Rows come out in strict key order, hence none twice, and past the start cursor. */
  lemma {:induction false} DrainIsStrict(tables: seq<seq<Row>>, cursor: Row, q: Query)
    requires NoDuplicates(tables) && q.limit >= 1
    ensures var out := Drain(tables, cursor, q).rows;
            && Strict(q.order, out) && Distinct(out)
            && (forall x <- out :: After(q.order, cursor, x) && Within(q, x) && exists t <- tables :: x in t)
  {
    var out := Drain(tables, cursor, q).rows;
    if tables != [] {
      var page := PageFromCursor(tables[0], cursor, q);
      PageIsPrefix(tables[0], cursor, q);
      SuffixFacts(tables[0], cursor, q);
      if page != [] {
        var next := page[|page| - 1];
        var rest := Drain(tables[1..], next, q).rows;
        DrainIsStrict(tables[1..], next, q);
        hide Drain, PageFromCursor, Within, Suffix, After;
        forall x, y | x in page && y in rest ensures After(q.order, x, y) { PageBeforeRest(q.order, page, x, y); }
        forall x <- rest ensures After(q.order, cursor, x) { AfterTransitive(q.order, cursor, next, x); }
        forall x <- rest ensures exists t <- tables :: x in t {
          var t :| t in tables[1..] && x in t;
          assert t in tables;
        }
        StrictJoin(q.order, page, rest);
      }
    }
    StrictIsDistinct(q.order, out);
  }

  lemma PageBeforeRest(order: Order, page: seq<Row>, x: Row, y: Row)
    requires Strict(order, page) && x in page && After(order, page[|page| - 1], y)
    ensures After(order, x, y)
  {
    var i :| 0 <= i < |page| && page[i] == x;
    if i < |page| - 1 { AfterTransitive(order, x, page[|page| - 1], y); }
  }

  /**
   * Whatever is inserted or deleted between pages: a row that stays in the table, lies within bounds and past the
   * start cursor is returned by a drain that ran until an empty page.
   */
  lemma {:induction false} StayingRowIsReturned(tables: seq<seq<Row>>, cursor: Row, q: Query, r: Row)
    requires NoDuplicates(tables) && q.limit >= 1
    requires Drain(tables, cursor, q).complete
    requires (forall t <- tables :: r in t) && Within(q, r) && After(q.order, cursor, r)
    ensures r in Drain(tables, cursor, q).rows
  {
    var page := PageFromCursor(tables[0], cursor, q);
    var s := Suffix(tables[0], cursor, q);
    PageIsPrefix(tables[0], cursor, q);
    SuffixFacts(tables[0], cursor, q);
    assert r in s;
    if r !in page {
      var next := page[|page| - 1];
      assert next == s[|page| - 1];
      AfterSplits(s, |page|, r, q.order);
      assert s == page + s[|page|..];
      StayingRowIsReturned(tables[1..], next, q, r);
    }
  }

  /** Conversely, every row returned was in the table when its page was read; so a drained fixed table is its suffix. */
  lemma FixedTableIsSuffix(rows: seq<Row>, n: nat, cursor: Row, q: Query)
    requires Distinct(rows) && q.limit >= 1 && Drain(Copies(rows, n), cursor, q).complete
    ensures Drain(Copies(rows, n), cursor, q).rows == Suffix(rows, cursor, q)
  {
    var tables := Copies(rows, n);
    var out := Drain(tables, cursor, q).rows;
    DrainIsStrict(tables, cursor, q);
    SuffixFacts(rows, cursor, q);
    forall x ensures x in out <==> x in Suffix(rows, cursor, q) {
      if x in Suffix(rows, cursor, q) { StayingRowIsReturned(tables, cursor, q, x); }
    }
    StrictListsAgree(q.order, out, Suffix(rows, cursor, q));
  }

  function Copies(rows: seq<Row>, n: nat): (tables: seq<seq<Row>>)
    ensures |tables| == n && forall t <- tables :: t == rows
  {
    if n == 0 then [] else [rows] + Copies(rows, n - 1)
  }

  /** All but the last of n pages have room for every row; the last one comes out empty. */
  predicate PagesSuffice(n: nat, limit: int, length: nat) { n >= 1 && (n - 1) * limit >= length }

  lemma DrainCopies(rows: seq<Row>, n: nat, cursor: Row, q: Query)
    requires n >= 1
    ensures var page := PageFromCursor(rows, cursor, q);
            Drain(Copies(rows, n), cursor, q).complete <==>
            page == [] || Drain(Copies(rows, n - 1), page[|page| - 1], q).complete
  {
    hide PageFromCursor;
    assert Copies(rows, n)[1..] == Copies(rows, n - 1);
  }

  /** A fixed table is drained by reading as many pages as its rows fill, and one empty page: no fewer, no more. */
  lemma {:induction false} FixedTableTerminates(rows: seq<Row>, n: nat, cursor: Row, q: Query)
    requires Distinct(rows) && q.limit >= 1
    ensures Drain(Copies(rows, n), cursor, q).complete <==> PagesSuffice(n, q.limit, |Suffix(rows, cursor, q)|)
  {
    hide PagesSuffice;
    if n == 0 {
      NoPages(q.limit, |Suffix(rows, cursor, q)|);
    } else {
      var s := Suffix(rows, cursor, q);
      var page := PageFromCursor(rows, cursor, q);
      PageIsPrefix(rows, cursor, q);
      DrainCopies(rows, n, cursor, q);
      hide Suffix, PageFromCursor, Drain, Copies;
      PagesNeeded(n, q.limit, |s|);
      if page != [] {
        SuffixAfterPrefix(rows, cursor, q, |page|);
        FixedTableTerminates(rows, n - 1, page[|page| - 1], q);
      }
    }
  }

  lemma NoPages(limit: int, length: nat)
    ensures !PagesSuffice(0, limit, length)
  {}

  lemma PagesNeeded(n: nat, limit: int, length: nat)
    requires n >= 1 && limit >= 1
    ensures length == 0 ==> PagesSuffice(n, limit, length)
    ensures length > 0 ==> (PagesSuffice(n, limit, length) <==> PagesSuffice(n - 1, limit, length - Min(limit, length)))
  {
    assert (n - 1) * limit == (n - 2) * limit + limit;
    if n >= 2 { assert (n - 2) * limit >= 0; }
  }
}
