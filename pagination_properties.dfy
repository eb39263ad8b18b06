/** What the draw loop's page cursor guarantees: rows follow one another down
    the page, a row that would cross the bottom margin moves to the top margin
    of a page appended for it, every page appended holds a row, and no row
    crosses the bottom margin when every row fits on an empty page. */
module PaginationProperties {
  import opened TableModel

  /** Where a row of height `h` whose top is at `top` ends. */
  function Below(top: Cursor, h: real): (c: Cursor)
    ensures c.page == top.page && c.y == top.y - h
  {
    Cursor(top.page, top.y - h)
  }

  /** Where row `i` would be drawn if it needed no new page: at the start for
      the first row, below the previous row otherwise. */
  function NextAt(start: Cursor, tops: seq<Cursor>, heights: seq<real>, i: nat): Cursor
    requires i <= |tops| && i <= |heights|
  {
    if i == 0 then start else Below(tops[i - 1], heights[i - 1])
  }

  /** The next row is drawn at the cursor exactly when it ends at or above the
      bottom margin there; otherwise at the top margin of the page about to be
      appended. Never on a page before the cursor's. */
  lemma RowTopAt(opts: Options, nph: real, p: Pagination, h: real)
    requires p.cursor.page < p.pageCount
    ensures var top := RowTop(opts, nph, p, h);
      p.cursor.page <= top.page <= p.pageCount &&
      (top == p.cursor <==> opts.margin.bottom <= p.cursor.y - h) &&
      (top != p.cursor ==> top == Cursor(p.pageCount, nph - opts.margin.top))
  {
  }

  /** The pagination of fewer rows is a prefix of the pagination of more. */
  lemma {:induction false} PaginatePrefix(opts: Options, nph: real, start: Cursor, pageCount: nat,
                                          heights: seq<real>, m: nat, n: nat)
    requires m <= n <= |heights|
    ensures Paginate(opts, nph, start, pageCount, heights, n).tops[..m]
         == Paginate(opts, nph, start, pageCount, heights, m).tops
    decreases n
  {
    var p := Paginate(opts, nph, start, pageCount, heights, n);
    if m == n {
      assert p.tops[..m] == p.tops;
    } else {
      var q := Paginate(opts, nph, start, pageCount, heights, n - 1);
      PaginatePrefix(opts, nph, start, pageCount, heights, m, n - 1);
      assert p.tops == q.tops + [RowTop(opts, nph, q, heights[n - 1])];
      assert p.tops[..m] == q.tops[..m];
    }
  }

  /** Row `i` is drawn where the cursor of the first `i` rows puts it. */
  lemma PaginateTop(opts: Options, nph: real, start: Cursor, pageCount: nat, heights: seq<real>, i: nat, n: nat)
    requires i < n <= |heights|
    ensures Paginate(opts, nph, start, pageCount, heights, n).tops[i]
         == RowTop(opts, nph, Paginate(opts, nph, start, pageCount, heights, i), heights[i])
  {
    PaginatePrefix(opts, nph, start, pageCount, heights, i + 1, n);
    var p := Paginate(opts, nph, start, pageCount, heights, n);
    assert p.tops[i] == p.tops[..i + 1][i];
  }

  /** Starting on an existing page, the cursor stays on an existing page, the
      document grows by at most one page per row, every row lies on a page no
      later than the cursor's, and the cursor ends below the last row. */
  lemma {:induction false} PaginateBounds(opts: Options, nph: real, start: Cursor, pageCount: nat,
                                          heights: seq<real>, count: nat)
    requires count <= |heights| && start.page < pageCount
    ensures var p := Paginate(opts, nph, start, pageCount, heights, count);
      p.pageCount <= pageCount + count && p.cursor.page < p.pageCount &&
      (forall i :: 0 <= i < count ==> p.tops[i].page <= p.cursor.page) &&
      (count > 0 ==> p.cursor == Below(p.tops[count - 1], heights[count - 1]))
    decreases count
  {
    if count > 0 {
      PaginateBounds(opts, nph, start, pageCount, heights, count - 1);
      var q := Paginate(opts, nph, start, pageCount, heights, count - 1);
      var top := RowTop(opts, nph, q, heights[count - 1]);
      var p := Paginate(opts, nph, start, pageCount, heights, count);
      assert p.tops == q.tops + [top];
      assert top.page >= q.cursor.page;
    }
  }

  /** Row `i` of `tops` is drawn where the previous row ended (or at the
      start) if it fits there; otherwise at the top margin of a page that
      comes after every page used by the rows before it and is not one of the
      `pageCount` pages the document had. */
  predicate Stacked(opts: Options, nph: real, start: Cursor, pageCount: nat, heights: seq<real>,
                    tops: seq<Cursor>, i: nat)
    requires i < |tops| && i < |heights|
  {
    var at := NextAt(start, tops, heights, i);
    if Overflows(opts, at, heights[i]) then
      tops[i].y == nph - opts.margin.top && pageCount <= tops[i].page &&
      forall k :: 0 <= k < i ==> tops[k].page < tops[i].page
    else
      tops[i] == at
  }

  /** The rows, one by one, are stacked down the page and onto appended
      pages, and the cursor ends where the last row ends. */
  lemma PaginateStacks(opts: Options, nph: real, start: Cursor, pageCount: nat, heights: seq<real>, count: nat)
    requires count <= |heights| && start.page < pageCount
    ensures var p := Paginate(opts, nph, start, pageCount, heights, count);
      p.cursor == NextAt(start, p.tops, heights, count) &&
      forall i :: 0 <= i < count ==> Stacked(opts, nph, start, pageCount, heights, p.tops, i)
  {
    var p := Paginate(opts, nph, start, pageCount, heights, count);
    PaginateBounds(opts, nph, start, pageCount, heights, count);
    forall i | 0 <= i < count
      ensures Stacked(opts, nph, start, pageCount, heights, p.tops, i)
    {
      var q := Paginate(opts, nph, start, pageCount, heights, i);
      PaginateTop(opts, nph, start, pageCount, heights, i, count);
      PaginateBounds(opts, nph, start, pageCount, heights, i);
      PaginatePrefix(opts, nph, start, pageCount, heights, i, count);
      assert forall k :: 0 <= k < i ==> p.tops[k] == q.tops[k] by {
        forall k | 0 <= k < i
          ensures p.tops[k] == q.tops[k]
        {
          assert p.tops[k] == p.tops[..i][k];
        }
      }
      assert q.cursor == NextAt(start, p.tops, heights, i);
    }
  }

  /** Some row is drawn at the top margin of page `page`, a page of height
      `nph`. */
  predicate StartsRow(opts: Options, nph: real, tops: seq<Cursor>, page: nat)
  {
    exists i :: 0 <= i < |tops| && tops[i] == Cursor(page, nph - opts.margin.top)
  }

  /** Every page from `pageCount` on starts with a row. */
  predicate NoBlankPages(opts: Options, nph: real, pageCount: nat, p: Pagination)
  {
    forall page: nat :: pageCount <= page < p.pageCount ==> StartsRow(opts, nph, p.tops, page)
  }

  /** Every page the table appends receives a row at its top margin: the loop
      never appends a page it leaves blank. */
  lemma {:induction false} PaginateNoBlankPages(opts: Options, nph: real, start: Cursor, pageCount: nat,
                                                heights: seq<real>, count: nat)
    requires count <= |heights|
    ensures NoBlankPages(opts, nph, pageCount, Paginate(opts, nph, start, pageCount, heights, count))
    decreases count
  {
    if count > 0 {
      PaginateNoBlankPages(opts, nph, start, pageCount, heights, count - 1);
      var q := Paginate(opts, nph, start, pageCount, heights, count - 1);
      var p := Paginate(opts, nph, start, pageCount, heights, count);
      assert p.tops == q.tops + [RowTop(opts, nph, q, heights[count - 1])];
      forall page: nat | pageCount <= page < p.pageCount
        ensures StartsRow(opts, nph, p.tops, page)
      {
        if page < q.pageCount {
          assert StartsRow(opts, nph, q.tops, page);
          var i :| 0 <= i < count - 1 && q.tops[i] == Cursor(page, nph - opts.margin.top);
          assert p.tops[i] == q.tops[i];
        } else {
          assert p.tops[count - 1] == Cursor(page, nph - opts.margin.top);
        }
      }
    }
  }

  /** When every row fits between the margins of an empty page, no row ends
      below the bottom margin. */
  lemma {:induction false} PaginateWithinMargins(opts: Options, nph: real, start: Cursor, pageCount: nat,
                                                 heights: seq<real>, count: nat)
    requires count <= |heights|
    requires forall i :: 0 <= i < count ==> nph - opts.margin.top - heights[i] >= opts.margin.bottom
    ensures var p := Paginate(opts, nph, start, pageCount, heights, count);
      forall i :: 0 <= i < count ==> p.tops[i].y - heights[i] >= opts.margin.bottom
    decreases count
  {
    if count > 0 {
      PaginateWithinMargins(opts, nph, start, pageCount, heights, count - 1);
      var q := Paginate(opts, nph, start, pageCount, heights, count - 1);
      var p := Paginate(opts, nph, start, pageCount, heights, count);
      assert p.tops == q.tops + [RowTop(opts, nph, q, heights[count - 1])];
    }
  }

  /** With the default options (`startPosY` 0, top margin 10, header height
      20, bottom margin 50) the header band spans heights -30 to -10, below the
      page's bottom edge, and the cursor starts at -30, under the bottom
      margin; so the first row of any non-negative height goes to the top
      margin of a new page. */
  lemma DefaultFirstRowOnNewPage(t: Table, pageWidth: real, headerCount: nat, startPage: nat, pageCount: nat,
                                 nph: real, heights: seq<real>)
    requires t.opts == DefaultOptions && t.frame == TableFrame(pageWidth, headerCount, DefaultOptions)
    requires |heights| > 0 && heights[0] >= 0.0
    ensures var p := TablePagination(t, startPage, pageCount, nph, heights);
      p.tops[0] == Cursor(pageCount, nph - 10.0) && pageCount < p.pageCount
  {
    PaginateTop(t.opts, nph, Cursor(startPage, t.frame.tableStartY), pageCount, heights, 0, |heights|);
    PaginatePages(t.opts, nph, Cursor(startPage, t.frame.tableStartY), pageCount, heights, 1, |heights|);
  }

  /** The document only grows as rows are added. */
  lemma {:induction false} PaginatePages(opts: Options, nph: real, start: Cursor, pageCount: nat,
                                         heights: seq<real>, m: nat, n: nat)
    requires m <= n <= |heights|
    ensures Paginate(opts, nph, start, pageCount, heights, m).pageCount
         <= Paginate(opts, nph, start, pageCount, heights, n).pageCount
    decreases n
  {
    if m < n {
      PaginatePages(opts, nph, start, pageCount, heights, m, n - 1);
    }
  }

  /** A table without rows leaves the cursor at the bottom of the header band
      and the document as it was, and draws only the header band. */
  lemma EmptyTable(t: Table, startPage: nat, pageCount: nat, nph: real, headers: seq<string>)
    ensures TablePagination(t, startPage, pageCount, nph, []) == Pagination(Cursor(startPage, t.frame.tableStartY), pageCount, [])
    ensures TableCommands(t, startPage, pageCount, nph, headers, [], [], [])
         == HeaderCommands(startPage, headers, |headers|, t.opts, t.frame)
  {
    assert HeaderCommands(startPage, headers, |headers|, t.opts, t.frame) + []
        == HeaderCommands(startPage, headers, |headers|, t.opts, t.frame);
  }
}
