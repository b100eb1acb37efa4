/** Newest-first pages by keyset: `_older_than`, `_page`, `_next_cursor`, and following the cursors to
    the end while rows come and go. */
module Paging {
  import opened Store

  // The columns that order a page; the id makes every row different.
  datatype Row = Row(created: int, id: int)

  // `older_than`: strictly after `x` in created_at DESC, id DESC.
  predicate OlderThan(r: Row, x: Row) { r.created < x.created || (r.created == x.created && r.id < x.id) }

  function Below(table: set<Row>, after: Option<Row>): set<Row> {
    set r | r in table && (after.None? || OlderThan(r, after.value))
  }

  predicate NewestFirst(rows: seq<Row>) { forall i, j :: 0 <= i < j < |rows| ==> OlderThan(rows[j], rows[i]) }

  // What `ORDER BY ... LIMIT n` returns: the newest n of them, or all.
  ghost predicate IsNewest(rows: seq<Row>, from: set<Row>, n: nat) {
    && NewestFirst(rows) && (forall r :: r in rows ==> r in from)
    && |rows| <= n
    && (forall r :: r in from && r !in rows ==> |rows| == n && forall q :: q in rows ==> OlderThan(r, q))
  }

  method Newest(from: set<Row>) returns (newest: Row)
    requires from != {}
    ensures newest in from && forall r :: r in from && r != newest ==> OlderThan(r, newest)
  {
    newest :| newest in from;
    var left := from - {newest};
    while left != {}
      invariant left <= from && newest in from
      invariant forall r :: r in from && r !in left && r != newest ==> OlderThan(r, newest)
      decreases left
    {
      var r :| r in left;
      if OlderThan(newest, r) { newest := r; }
      left := left - {r};
    }
  }

  method Select(from: set<Row>, n: nat) returns (rows: seq<Row>)
    ensures IsNewest(rows, from, n)
  {
    rows := [];
    var left := from;
    while left != {} && |rows| < n
      invariant left <= from && |rows| <= n && NewestFirst(rows)
      invariant forall r :: r in from <==> r in rows || r in left
      invariant forall r, q :: r in left && q in rows ==> OlderThan(r, q)
      decreases left
    {
      var r := Newest(left);
      rows, left := rows + [r], left - {r};
    }
  }

  // `_page`, with `_next_cursor` made of the probe row.
  method Page(table: set<Row>, limit: nat, after: Option<Row>) returns (page: seq<Row>, next: Option<Row>)
    requires limit >= 1
    ensures IsPage(table, limit, after, page, next)
  {
    var rows := Select(Below(table, after), limit + 1);
    page := if |rows| <= limit then rows else rows[..limit];
    next := if |rows| <= limit then None else Some(rows[limit - 1]);
    if |rows| > limit {
      assert forall j :: 0 <= j < limit ==> rows[j] in page;
      assert forall q :: q in page ==> q in rows;
      forall r | r in Below(table, after) && r !in page ensures forall q :: q in page ==> OlderThan(r, q) {
        if r in rows { var i :| 0 <= i < |rows| && rows[i] == r; }
      }
      assert rows[limit] in Below(table, after);
      assert rows[limit] !in page;
    }
  }

  // A page is the newest rows below the cursor, and a next one exists exactly when some are left.
  ghost predicate IsPage(table: set<Row>, limit: nat, after: Option<Row>, page: seq<Row>, next: Option<Row>) {
    && IsNewest(page, Below(table, after), limit)
    && (next.Some? ==> page != [] && next.value == page[|page| - 1])
    && (next.None? <==> forall r :: r in Below(table, after) ==> r in page)
  }

  // ----- following the cursors -----

  // Page `n` is read from the table as it is then, after the cursor of the page before; only the last
  // one has no next.
  ghost predicate IsWalk(tables: seq<set<Row>>, limit: nat, pages: seq<seq<Row>>, cursors: seq<Option<Row>>) {
    && |tables| == |pages| == |cursors| > 0
    && (forall n {:trigger pages[n]} :: 0 <= n < |pages| ==> IsPage(tables[n], limit, CursorBefore(cursors, n), pages[n], cursors[n]))
    && (forall n :: 0 <= n < |pages| ==> (cursors[n].None? <==> n == |pages| - 1))
  }

  function CursorBefore(cursors: seq<Option<Row>>, n: nat): Option<Row>
    requires n <= |cursors|
  {
    if n == 0 then None else cursors[n - 1]
  }

  function Flat(pages: seq<seq<Row>>): seq<Row> {
    if pages == [] then [] else Flat(pages[..|pages| - 1]) + pages[|pages| - 1]
  }

  lemma OrderIsTotal(a: Row, b: Row, c: Row)
    ensures !OlderThan(a, a) && (a == b || OlderThan(a, b) || OlderThan(b, a))
    ensures OlderThan(a, b) && OlderThan(b, c) ==> OlderThan(a, c)
  {}

  // Everything listed before page `n` is newest first and not below its cursor.
  ghost predicate Listed(tables: seq<set<Row>>, pages: seq<seq<Row>>, cursors: seq<Option<Row>>, n: nat)
    requires n <= |pages| == |cursors| == |tables|
  {
    var flat := Flat(pages[..n]);
    && NewestFirst(flat)
    && (n > 0 && cursors[n - 1].Some? ==> forall r :: r in flat ==> r == cursors[n - 1].value || OlderThan(cursors[n - 1].value, r))
    // a row present in every table so far is listed, or comes after the cursor
    && (forall r :: (forall m :: 0 <= m < n ==> r in tables[m]) ==>
          r in flat || (CursorBefore(cursors, n).Some? && OlderThan(r, CursorBefore(cursors, n).value)) || n == 0)
  }

  lemma OnePageMore(tables: seq<set<Row>>, limit: nat, pages: seq<seq<Row>>, cursors: seq<Option<Row>>, n: nat)
    requires limit >= 1 && IsWalk(tables, limit, pages, cursors) && n < |pages| && Listed(tables, pages, cursors, n)
    ensures n + 1 < |pages| ==> Listed(tables, pages, cursors, n + 1)
    ensures NewestFirst(Flat(pages[..n + 1]))
    ensures forall r :: (forall m :: 0 <= m < n + 1 ==> r in tables[m]) ==>
      r in Flat(pages[..n + 1]) || (cursors[n].Some? && OlderThan(r, cursors[n].value))
  {
    var flat, page, after := Flat(pages[..n]), pages[n], CursorBefore(cursors, n);
    assert pages[..n + 1][..n] == pages[..n] && pages[..n + 1][n] == page;
    var more := flat + page;
    assert Flat(pages[..n + 1]) == more;
    forall i, j | 0 <= i < j < |more| ensures OlderThan(more[j], more[i]) {
      if i < |flat| <= j {
        assert more[j] in page && more[i] in flat;
        assert more[j] in Below(tables[n], after);
        if n > 0 { OrderIsTotal(more[j], after.value, more[i]); }
      }
    }
    if cursors[n].Some? {
      forall r | r in more ensures r == cursors[n].value || OlderThan(cursors[n].value, r) {
        var i :| 0 <= i < |more| && more[i] == r;
        assert more[|more| - 1] == cursors[n].value;
      }
    }
    forall r | forall m :: 0 <= m < n + 1 ==> r in tables[m]
      ensures r in more || (cursors[n].Some? && OlderThan(r, cursors[n].value))
    {
      if r !in more {
        assert n == 0 || (after.Some? && OlderThan(r, after.value));
        assert r in Below(tables[n], after) && r !in page;
        assert page[|page| - 1] in page;
      }
    }
  }

  lemma {:induction false} WalkLists(tables: seq<set<Row>>, limit: nat, pages: seq<seq<Row>>, cursors: seq<Option<Row>>, n: nat)
    requires limit >= 1 && IsWalk(tables, limit, pages, cursors) && n < |pages|
    ensures Listed(tables, pages, cursors, n)
    decreases n
  {
    if n > 0 {
      WalkLists(tables, limit, pages, cursors, n - 1);
      OnePageMore(tables, limit, pages, cursors, n - 1);
    }
  }

  // Rows may be added and removed between pages: no row repeats, the listing is newest first, and
  // every row present throughout appears.
  lemma EveryPageListsOnce(tables: seq<set<Row>>, limit: nat, pages: seq<seq<Row>>, cursors: seq<Option<Row>>)
    requires limit >= 1 && IsWalk(tables, limit, pages, cursors)
    ensures NewestFirst(Flat(pages))
    ensures forall i, j :: 0 <= i < j < |Flat(pages)| ==> Flat(pages)[i] != Flat(pages)[j]
    ensures forall r :: (forall m :: 0 <= m < |tables| ==> r in tables[m]) ==> r in Flat(pages)
  {
    var last := |pages| - 1;
    WalkLists(tables, limit, pages, cursors, last);
    OnePageMore(tables, limit, pages, cursors, last);
    assert pages[..last + 1] == pages;
  }

  // A client that follows the cursors reaches the end: each page leaves fewer rows below its cursor.
  lemma CursorAdvances(table: set<Row>, limit: nat, after: Option<Row>, page: seq<Row>, next: Option<Row>)
    requires IsPage(table, limit, after, page, next) && next.Some?
    ensures Below(table, next) < Below(table, after)
  {
    assert next.value in page && next.value in Below(table, after);
    assert forall r :: r in Below(table, next) && after.Some? ==> OlderThan(r, after.value);
    assert next.value !in Below(table, next);
  }

  // Over a table that does not change the pages are the table, each row exactly once.
  lemma FixedTableIsListed(table: set<Row>, tables: seq<set<Row>>, limit: nat, pages: seq<seq<Row>>, cursors: seq<Option<Row>>)
    requires limit >= 1 && IsWalk(tables, limit, pages, cursors) && forall n :: 0 <= n < |tables| ==> tables[n] == table
    ensures NewestFirst(Flat(pages)) && forall r :: r in Flat(pages) <==> r in table
  {
    EveryPageListsOnce(tables, limit, pages, cursors);
    PagesComeFromTable(table, tables, limit, pages, cursors, |pages|);
    assert pages[..|pages|] == pages;
  }

  lemma {:induction false} PagesComeFromTable(table: set<Row>, tables: seq<set<Row>>, limit: nat, pages: seq<seq<Row>>, cursors: seq<Option<Row>>, n: nat)
    requires IsWalk(tables, limit, pages, cursors) && n <= |pages| && forall m :: 0 <= m < |tables| ==> tables[m] == table
    ensures forall r :: r in Flat(pages[..n]) ==> r in table
    decreases n
  {
    if n > 0 {
      PagesComeFromTable(table, tables, limit, pages, cursors, n - 1);
      assert pages[..n][..n - 1] == pages[..n - 1] && pages[..n][n - 1] == pages[n - 1];
      assert IsPage(tables[n - 1], limit, CursorBefore(cursors, n - 1), pages[n - 1], cursors[n - 1]);
    }
  }
}
