/** What the layout guarantees about the commands `drawTable` issues: the
    columns tile the space between the side margins, each row is as tall as
    its tallest cell, every line of a cell lies inside the cell's padded area,
    and nothing is drawn on a page the document does not have. */
module LayoutProperties {
  import opened Wrappers
  import opened Wrapping
  import opened TableModel
  import opened PaginationProperties

  /** Every command is on page `page`. */
  predicate OnPage(cmds: seq<Command>, page: nat)
  {
    forall k :: 0 <= k < |cmds| ==> cmds[k].page == page
  }

  /** Every command is on one of the first `n` pages. */
  predicate OnPagesBelow(cmds: seq<Command>, n: nat)
  {
    forall k :: 0 <= k < |cmds| ==> cmds[k].page < n
  }

  // ---------------------------------------------------------------------------
  // Options

  /** The options object with every property given. */
  function Given(opts: Options): OptionsInput
  {
    OptionsInput(Some(opts.margin), Some(opts.fontSize), Some(opts.startPosY), Some(opts.headerHeight),
                 Some(opts.borderWidth), Some(opts.cellPadding))
  }

  /** Properties given are used as given; with none given, every default
      applies. */
  lemma ResolveOptionsGiven(opts: Options)
    ensures ResolveOptions(Given(opts)) == opts
    ensures ResolveOptions(OptionsInput(None, None, None, None, None, None)) == DefaultOptions
  {
  }

  // ---------------------------------------------------------------------------
  // Columns

  /** The columns of a row of `count` cells start at the left margin, each
      starts where the previous one ends, and the last ends at the right
      margin. */
  lemma ColumnsTile(pageWidth: real, headerCount: nat, opts: Options, count: nat)
    requires count > 0
    ensures var frame := TableFrame(pageWidth, headerCount, opts);
      ColumnX(frame, count, 0) == opts.margin.left &&
      (forall i :: 0 <= i < count - 1 ==>
         ColumnX(frame, count, i) + ColumnWidth(frame, count) == ColumnX(frame, count, i + 1)) &&
      ColumnX(frame, count, count - 1) + ColumnWidth(frame, count) == pageWidth - opts.margin.right
  {
    var frame := TableFrame(pageWidth, headerCount, opts);
    var w := ColumnWidth(frame, count);
    assert w * count as real == frame.usableWidth;
    assert w * (count - 1) as real + w == w * count as real;
  }

  /** The header band: a filled rectangle and then a caption per header, in
      order, all on the table's first page, each caption inset by the left
      padding from its column. */
  lemma {:induction false} HeaderCommandsLayout(page: nat, headers: seq<string>, count: nat, opts: Options,
                                                frame: Frame)
    requires count <= |headers|
    ensures var cmds := HeaderCommands(page, headers, count, opts, frame);
      |cmds| == 2 * count && OnPage(cmds, page) &&
      forall i :: 0 <= i < count ==>
        var rect := cmds[2 * i];
        var caption := cmds[2 * i + 1];
        rect.Rectangle? && rect.fill && rect.color == HeaderFill &&
        rect.x == ColumnX(frame, |headers|, i) && rect.y == frame.tableStartY &&
        rect.width == ColumnWidth(frame, |headers|) && rect.height == opts.headerHeight &&
        caption.Text? && caption.text == headers[i] && caption.x == rect.x + opts.cellPadding.left
    decreases count
  {
    if count > 0 {
      HeaderCommandsLayout(page, headers, count - 1, opts, frame);
      var before := HeaderCommands(page, headers, count - 1, opts, frame);
      var cmds := HeaderCommands(page, headers, count, opts, frame);
      var cell := HeaderCellCommands(page, headers, count - 1, opts, frame);
      assert cmds == before + cell;
      forall i | 0 <= i < count - 1
        ensures cmds[2 * i] == before[2 * i] && cmds[2 * i + 1] == before[2 * i + 1]
      {
      }
    }
  }

  // ---------------------------------------------------------------------------
  // Row heights

  /** The running maximum is one of the heights, unless it stayed at 0. */
  lemma {:induction false} MaxHeightAttained(hs: seq<real>)
    ensures MaxHeight(hs) == 0.0 || exists i :: 0 <= i < |hs| && hs[i] == MaxHeight(hs)
    decreases |hs|
  {
    if |hs| > 0 {
      var init := hs[..|hs| - 1];
      MaxHeightAttained(init);
      if MaxHeight(hs) != hs[|hs| - 1] && MaxHeight(hs) != 0.0 {
        var i :| 0 <= i < |init| && init[i] == MaxHeight(init);
        assert hs[i] == init[i];
      }
    }
  }

  /** A row is as tall as its tallest cell: no cell is taller, and some cell
      has exactly that height unless the row is empty or no cell is taller
      than 0. */
  lemma RowHeightTallestCell(t: Table, row: seq<Cell>)
    ensures var hs := CellHeights(t, row, RowLines(t, row));
      (forall j :: 0 <= j < |row| ==> hs[j] <= RowHeight(t, row)) &&
      (RowHeight(t, row) == 0.0 || exists j :: 0 <= j < |row| && hs[j] == RowHeight(t, row))
  {
    MaxHeightAttained(CellHeights(t, row, RowLines(t, row)));
  }

  /** The running maximum grows with the heights: raising any cell's height
      never lowers it. */
  lemma {:induction false} MaxHeightMonotone(hs: seq<real>, hs': seq<real>)
    requires |hs| == |hs'|
    requires forall i :: 0 <= i < |hs| ==> hs[i] <= hs'[i]
    ensures MaxHeight(hs) <= MaxHeight(hs')
    decreases |hs|
  {
    if |hs| > 0 {
      var n := |hs| - 1;
      MaxHeightMonotone(hs[..n], hs'[..n]);
    }
  }

  /** A row is at least as tall when any of its cells wraps to more lines,
      provided no font size is negative. */
  lemma RowHeightMonotone(t: Table, row: seq<Cell>, rowLines: seq<seq<string>>, rowLines': seq<seq<string>>)
    requires |rowLines| == |rowLines'| == |row|
    requires forall j :: 0 <= j < |row| ==> 0.0 <= FontSizeOf(row[j], t.opts.fontSize)
    requires forall j :: 0 <= j < |row| ==> |rowLines[j]| <= |rowLines'[j]|
    ensures RowHeightOf(t, row, rowLines) <= RowHeightOf(t, row, rowLines')
  {
    var hs := CellHeights(t, row, rowLines);
    var hs' := CellHeights(t, row, rowLines');
    forall j | 0 <= j < |row|
      ensures hs[j] <= hs'[j]
    {
      var fs := FontSizeOf(row[j], t.opts.fontSize);
      ScaleMonotone(fs, |rowLines[j]| as real, |rowLines'[j]| as real);
    }
    MaxHeightMonotone(hs, hs');
  }

  // ---------------------------------------------------------------------------
  // Where the commands of a row go

  /** A command drawn for a row of height `h` whose top is at `top`: on the
      row's page; a rectangle spanning the row from its top down to its
      bottom; a line whose baseline, raised by a fifth of the font height, is
      at least one font size below the top padding and at least the bottom
      padding above the row's bottom. */
  predicate InRow(t: Table, top: Cursor, h: real, c: Command)
  {
    c.page == top.page &&
    match c
    case Rectangle(_, _, y, _, height, _, _, _, _) => y == top.y - h && height == h
    case Text(_, _, _, y, size, _, _) =>
      var raise := t.font.heightAtSize(size) * 0.2;
      top.y - h + t.opts.cellPadding.bottom + raise <= y <= top.y - t.opts.cellPadding.top - size + raise
  }

  /** Every command of `cmds` lies in the row. */
  predicate AllInRow(t: Table, top: Cursor, h: real, cmds: seq<Command>)
  {
    forall k :: 0 <= k < |cmds| ==> InRow(t, top, h, cmds[k])
  }

  lemma AllInRowAppend(t: Table, top: Cursor, h: real, a: seq<Command>, b: seq<Command>)
    requires AllInRow(t, top, h, a) && AllInRow(t, top, h, b)
    ensures AllInRow(t, top, h, a + b)
  {
    forall k | 0 <= k < |a + b|
      ensures InRow(t, top, h, (a + b)[k])
    {
      if k >= |a| {
        assert (a + b)[k] == b[k - |a|];
      }
    }
  }

  /** The lines of a cell, in order, one font size apart, on the cell's page,
      and inside its padded area when the cell is tall enough for them. */
  lemma {:induction false} LineCommandsPlaced(t: Table, page: nat, cell: Cell, cellStartX: real, cellStartY: real,
                                              cellWidth: real, rowHeight: real, lines: seq<string>, count: nat)
    requires count <= |lines|
    requires 0.0 <= FontSizeOf(cell, t.opts.fontSize)
    requires LinesHeight(|lines|, FontSizeOf(cell, t.opts.fontSize), t.opts.cellPadding) <= rowHeight
    ensures var cmds := LineCommands(t, page, cell, cellStartX, cellStartY, cellWidth, rowHeight, lines, count);
      var fs := FontSizeOf(cell, t.opts.fontSize);
      |cmds| == count &&
      (forall k :: 0 <= k < count ==>
         cmds[k].Text? && cmds[k].text == lines[k] && cmds[k].size == fs &&
         InRow(t, Cursor(page, cellStartY + rowHeight), rowHeight, cmds[k])) &&
      (forall k :: 0 < k < count ==> cmds[k].y == cmds[k - 1].y - fs)
    decreases count
  {
    if count > 0 {
      LineCommandsPlaced(t, page, cell, cellStartX, cellStartY, cellWidth, rowHeight, lines, count - 1);
      LineInRow(t, page, cell, cellStartX, cellStartY, cellWidth, rowHeight, lines[count - 1], count - 1, |lines|);
      if count > 1 {
        LineSpacing(t, page, cell, cellStartX, cellStartY, cellWidth, rowHeight,
                    lines[count - 2], lines[count - 1], count - 2);
      }
    }
  }

  /** Line `k` of `n` lines lies in the row when the row is at least as tall
      as the `n` lines and their padding. */
  lemma LineInRow(t: Table, page: nat, cell: Cell, cellStartX: real, cellStartY: real,
                  cellWidth: real, rowHeight: real, line: string, k: nat, n: nat)
    requires k < n
    requires 0.0 <= FontSizeOf(cell, t.opts.fontSize)
    requires LinesHeight(n, FontSizeOf(cell, t.opts.fontSize), t.opts.cellPadding) <= rowHeight
    ensures InRow(t, Cursor(page, cellStartY + rowHeight), rowHeight,
                  LineCommand(t, page, cell, cellStartX, cellStartY, cellWidth, rowHeight, line, k))
  {
    var fs := FontSizeOf(cell, t.opts.fontSize);
    var pad := t.opts.cellPadding;
    var depth := fs * (k + 1) as real;
    ScaleMonotone(fs, (k + 1) as real, n as real);
    ScaleMonotone(fs, 1.0, (k + 1) as real);
    assert fs <= depth <= n as real * fs;
    assert n as real * fs + pad.top + pad.bottom <= rowHeight;
    var raise := t.font.heightAtSize(fs) * 0.2;
    var c := LineCommand(t, page, cell, cellStartX, cellStartY, cellWidth, rowHeight, line, k);
    assert c.size == fs && c.y == cellStartY + rowHeight - pad.top - (depth - raise);
  }

  /** `a * b <= a * c` for a non-negative `a` and `b <= c`. */
  lemma ScaleMonotone(a: real, b: real, c: real)
    requires 0.0 <= a && b <= c
    ensures a * b <= a * c && a * c == c * a
  {
  }

  /** Consecutive lines are one font size apart. */
  lemma LineSpacing(t: Table, page: nat, cell: Cell, cellStartX: real, cellStartY: real,
                    cellWidth: real, rowHeight: real, line: string, next: string, k: nat)
    ensures LineCommand(t, page, cell, cellStartX, cellStartY, cellWidth, rowHeight, next, k + 1).y
         == LineCommand(t, page, cell, cellStartX, cellStartY, cellWidth, rowHeight, line, k).y
            - FontSizeOf(cell, t.opts.fontSize)
  {
    var fs := FontSizeOf(cell, t.opts.fontSize);
    assert fs * (k + 2) as real == fs * (k + 1) as real + fs;
  }

  /** Where line `k` of a cell is drawn: its baseline `k + 1` font sizes below
      the top padding, raised by a fifth of the font height; left-aligned at
      the left padding, or, in a centred cell, with its middle at the middle
      of a band of the content width that starts at the cell's left edge. */
  lemma LineCommandPosition(t: Table, page: nat, cell: Cell, cellStartX: real, cellStartY: real,
                            cellWidth: real, rowHeight: real, line: string, k: nat)
    ensures var c := LineCommand(t, page, cell, cellStartX, cellStartY, cellWidth, rowHeight, line, k);
      var pad := t.opts.cellPadding;
      c.y + c.size * (k + 1) as real == cellStartY + rowHeight - pad.top + t.font.heightAtSize(c.size) * 0.2 &&
      (!Centered(cell) ==> c.x == cellStartX + pad.left) &&
      (Centered(cell) ==>
         c.x + t.font.widthOfTextAtSize(line, c.size) / 2.0 == cellStartX + (cellWidth - pad.left - pad.right) / 2.0)
  {
  }

  /** The line loop draws line `k` of the cell as `LineCommand` number `k`. */
  lemma {:induction false} LineCommandsAt(t: Table, page: nat, cell: Cell, cellStartX: real, cellStartY: real,
                                          cellWidth: real, rowHeight: real, lines: seq<string>, count: nat)
    requires count <= |lines|
    ensures var cmds := LineCommands(t, page, cell, cellStartX, cellStartY, cellWidth, rowHeight, lines, count);
      forall k :: 0 <= k < count ==>
        cmds[k] == LineCommand(t, page, cell, cellStartX, cellStartY, cellWidth, rowHeight, lines[k], k)
    decreases count
  {
    if count > 0 {
      LineCommandsAt(t, page, cell, cellStartX, cellStartY, cellWidth, rowHeight, lines, count - 1);
    }
  }

  /** A cell draws its rectangle first, then line `k` as `LineCommand` number
      `k`, at the cell's column and from the row's bottom. */
  lemma CellCommandsLines(t: Table, row: seq<Cell>, j: nat, lines: seq<string>, top: Cursor, rowHeight: real)
    requires j < |row|
    ensures var cmds := CellCommands(t, row, j, lines, top, rowHeight);
      forall k :: 0 <= k < |lines| ==>
        cmds[k + 1] == LineCommand(t, top.page, row[j], ColumnX(t.frame, |row|, j), top.y - rowHeight,
                                   ColumnWidth(t.frame, |row|), rowHeight, lines[k], k)
  {
    var cellStartX := ColumnX(t.frame, |row|, j);
    var cellWidth := ColumnWidth(t.frame, |row|);
    var cmds := CellCommands(t, row, j, lines, top, rowHeight);
    var lineCmds := LineCommands(t, top.page, row[j], cellStartX, top.y - rowHeight, cellWidth, rowHeight, lines, |lines|);
    LineCommandsAt(t, top.page, row[j], cellStartX, top.y - rowHeight, cellWidth, rowHeight, lines, |lines|);
    forall k | 0 <= k < |lines|
      ensures cmds[k + 1] == LineCommand(t, top.page, row[j], cellStartX, top.y - rowHeight, cellWidth, rowHeight, lines[k], k)
    {
      assert cmds[k + 1] == lineCmds[k];
    }
  }

  /** A cell's rectangle: in its column and on the row's page, spanning the
      row from its bottom to its top, never filled, in the cell's background
      colour with a black border of the cell's border width. */
  lemma CellRectangle(t: Table, row: seq<Cell>, j: nat, lines: seq<string>, top: Cursor, rowHeight: real)
    requires j < |row|
    ensures var r := CellCommands(t, row, j, lines, top, rowHeight)[0];
      r.Rectangle? && r.page == top.page && !r.fill &&
      r.x == ColumnX(t.frame, |row|, j) && r.width == ColumnWidth(t.frame, |row|) &&
      r.y + r.height == top.y && r.height == rowHeight &&
      r.color == BackgroundOf(row[j]) && r.borderColor == Black &&
      r.borderWidth == BorderWidthOf(row[j], t.opts.borderWidth)
  {
  }

  /** One cell of a row whose lines fit its height: every command lies in the
      row. */
  lemma CellCommandsInRow(t: Table, row: seq<Cell>, j: nat, lines: seq<string>, top: Cursor, rowHeight: real)
    requires j < |row|
    requires 0.0 <= FontSizeOf(row[j], t.opts.fontSize)
    requires LinesHeight(|lines|, FontSizeOf(row[j], t.opts.fontSize), t.opts.cellPadding) <= rowHeight
    ensures AllInRow(t, top, rowHeight, CellCommands(t, row, j, lines, top, rowHeight))
  {
    var cellStartY := top.y - rowHeight;
    var cellStartX := ColumnX(t.frame, |row|, j);
    var cellWidth := ColumnWidth(t.frame, |row|);
    LineCommandsPlaced(t, top.page, row[j], cellStartX, cellStartY, cellWidth, rowHeight, lines, |lines|);
    assert Cursor(top.page, cellStartY + rowHeight) == top;
  }

  /** The commands of the first `count` cells of a row lie in the row when
      the row is tall enough for the lines of each cell. */
  lemma {:induction false} RowCommandsWithin(t: Table, row: seq<Cell>, rowLines: seq<seq<string>>, top: Cursor,
                                             h: real, count: nat)
    requires count <= |row| == |rowLines|
    requires forall j :: 0 <= j < |row| ==>
               0.0 <= FontSizeOf(row[j], t.opts.fontSize) &&
               LinesHeight(|rowLines[j]|, FontSizeOf(row[j], t.opts.fontSize), t.opts.cellPadding) <= h
    ensures AllInRow(t, top, h, RowCommands(t, row, rowLines, top, h, count))
    decreases count
  {
    if count > 0 {
      RowCommandsWithin(t, row, rowLines, top, h, count - 1);
      CellCommandsInRow(t, row, count - 1, rowLines[count - 1], top, h);
      AllInRowAppend(t, top, h, RowCommands(t, row, rowLines, top, h, count - 1),
                     CellCommands(t, row, count - 1, rowLines[count - 1], top, h));
    }
  }

  /** A row drawn at the height its cells' lines give it (the pre-pass
      height, for the lines the cells wrap to): every rectangle spans the row
      and every line lies inside its cell's padded area, provided no font size
      is negative. */
  lemma RowCommandsInRow(t: Table, row: seq<Cell>, rowLines: seq<seq<string>>, top: Cursor)
    requires |rowLines| == |row|
    requires forall j :: 0 <= j < |row| ==> 0.0 <= FontSizeOf(row[j], t.opts.fontSize)
    ensures var h := RowHeightOf(t, row, rowLines);
      AllInRow(t, top, h, RowCommands(t, row, rowLines, top, h, |row|))
  {
    var hs := CellHeights(t, row, rowLines);
    var h := RowHeightOf(t, row, rowLines);
    forall j | 0 <= j < |row|
      ensures LinesHeight(|rowLines[j]|, FontSizeOf(row[j], t.opts.fontSize), t.opts.cellPadding) <= h
    {
      assert hs[j] == LinesHeight(|rowLines[j]|, FontSizeOf(row[j], t.opts.fontSize), t.opts.cellPadding);
    }
    RowCommandsWithin(t, row, rowLines, top, h, |row|);
  }

  // ---------------------------------------------------------------------------
  // Pages

  /** The commands of a row are on the row's page. */
  lemma {:induction false} RowCommandsOnPage(t: Table, row: seq<Cell>, rowLines: seq<seq<string>>, top: Cursor,
                                             rowHeight: real, count: nat)
    requires count <= |row| == |rowLines|
    ensures OnPage(RowCommands(t, row, rowLines, top, rowHeight, count), top.page)
    decreases count
  {
    if count > 0 {
      RowCommandsOnPage(t, row, rowLines, top, rowHeight, count - 1);
      LineCommandsOnPage(t, top.page, row[count - 1], ColumnX(t.frame, |row|, count - 1), top.y - rowHeight,
                         ColumnWidth(t.frame, |row|), rowHeight, rowLines[count - 1], |rowLines[count - 1]|);
    }
  }

  lemma {:induction false} LineCommandsOnPage(t: Table, page: nat, cell: Cell, cellStartX: real, cellStartY: real,
                                              cellWidth: real, rowHeight: real, lines: seq<string>, count: nat)
    requires count <= |lines|
    ensures OnPage(LineCommands(t, page, cell, cellStartX, cellStartY, cellWidth, rowHeight, lines, count), page)
    decreases count
  {
    if count > 0 {
      LineCommandsOnPage(t, page, cell, cellStartX, cellStartY, cellWidth, rowHeight, lines, count - 1);
    }
  }

  /** Rows drawn at tops on the first `n` pages have all their commands there. */
  lemma {:induction false} RowsCommandsOnPages(t: Table, rows: seq<seq<Cell>>, lines: seq<seq<seq<string>>>,
                                               heights: seq<real>, tops: seq<Cursor>, count: nat, n: nat)
    requires count <= |rows| == |lines| == |heights| && count <= |tops|
    requires forall i :: 0 <= i < count ==> |lines[i]| == |rows[i]|
    requires forall i :: 0 <= i < count ==> tops[i].page < n
    ensures OnPagesBelow(RowsCommands(t, rows, lines, heights, tops, count), n)
    decreases count
  {
    if count > 0 {
      RowsCommandsOnPages(t, rows, lines, heights, tops, count - 1, n);
      RowCommandsOnPage(t, rows[count - 1], lines[count - 1], tops[count - 1], heights[count - 1], |rows[count - 1]|);
    }
  }

  lemma {:induction false} NewPagesLength(count: nat, size: PageSize)
    ensures |NewPages(count, size)| == count
    ensures forall k :: 0 <= k < count ==> NewPages(count, size)[k] == size
    decreases count
  {
    if count > 0 {
      NewPagesLength(count - 1, size);
    }
  }

  /** Starting on a page the document has, everything the table draws is on a
      page the document has once the pages the table appends are added. */
  lemma TableCommandsOnPages(t: Table, startPage: nat, pages0: seq<PageSize>, newPageSize: PageSize,
                             headers: seq<string>, rows: seq<seq<Cell>>, lines: seq<seq<seq<string>>>,
                             heights: seq<real>)
    requires startPage < |pages0|
    requires |rows| == |lines| == |heights|
    requires forall i :: 0 <= i < |rows| ==> |lines[i]| == |rows[i]|
    ensures var p := TablePagination(t, startPage, |pages0|, newPageSize.height, heights);
      OnPagesBelow(TableCommands(t, startPage, |pages0|, newPageSize.height, headers, rows, lines, heights),
                   |pages0 + NewPages(p.pageCount - |pages0|, newPageSize)|)
  {
    var p := TablePagination(t, startPage, |pages0|, newPageSize.height, heights);
    var start := Cursor(startPage, t.frame.tableStartY);
    NewPagesLength(p.pageCount - |pages0|, newPageSize);
    PaginateBounds(t.opts, newPageSize.height, start, |pages0|, heights, |heights|);
    HeaderCommandsLayout(startPage, headers, |headers|, t.opts, t.frame);
    RowsCommandsOnPages(t, rows, lines, heights, p.tops, |rows|, p.pageCount);
  }
}
