/** `drawTable` on a document: the header loop, the row-height pre-pass and
    the draw loop with its page cursor, each proved to issue exactly the
    commands and pages that `TableModel` describes. */
module TableDrawing {
  import opened Wrapping
  import opened TableModel

  /** The document collaborator: the sizes of its pages, in order, and the log
      of every drawing call made on them. */
  class Document {
    var pages: seq<PageSize>
    var log: seq<Command>

    constructor (pages: seq<PageSize>)
      ensures this.pages == pages && log == []
    {
      this.pages := pages;
      log := [];
    }

    /** `addPage()`: a page of the given size is appended. */
    method AddPage(size: PageSize) returns (index: nat)
      modifies this
      ensures pages == old(pages) + [size] && log == old(log)
      ensures index == |old(pages)| && index < |pages| && pages[index] == size
    {
      index := |pages|;
      pages := pages + [size];
    }

    /** `page.drawRectangle({...})` on the page with index `page`. */
    method DrawRectangle(page: nat, x: real, y: real, width: real, height: real,
                         color: Color, borderColor: Color, borderWidth: real, fill: bool)
      requires page < |pages|
      modifies this`log
      ensures log == old(log) + [Rectangle(page, x, y, width, height, color, borderColor, borderWidth, fill)]
    {
      log := log + [Rectangle(page, x, y, width, height, color, borderColor, borderWidth, fill)];
    }

    /** `page.drawText(text, {...})` on the page with index `page`. */
    method DrawText(page: nat, text: string, x: real, y: real, size: real, color: Color, font: FontChoice)
      requires page < |pages|
      modifies this`log
      ensures log == old(log) + [Text(page, text, x, y, size, color, font)]
    {
      log := log + [Text(page, text, x, y, size, color, font)];
    }
  }

  /** The header band: one filled rectangle and one label per header. */
  method DrawHeaders(doc: Document, page: nat, headers: seq<string>, opts: Options, frame: Frame)
    requires page < |doc.pages|
    modifies doc`log
    ensures doc.log == old(doc.log) + HeaderCommands(page, headers, |headers|, opts, frame)
  {
    for i := 0 to |headers|
      invariant doc.log == old(doc.log) + HeaderCommands(page, headers, i, opts, frame)
    {
      var header := headers[i];
      var cellWidth := frame.usableWidth / |headers| as real;
      var cellStartX := frame.startX + cellWidth * i as real;
      var textHeight := HeaderTextHeight;
      var textY := frame.tableStartY + (opts.headerHeight - textHeight) / 2.0;
      doc.DrawRectangle(page, cellStartX, frame.tableStartY, cellWidth, opts.headerHeight,
                        HeaderFill, Black, opts.borderWidth, true);
      doc.DrawText(page, header, cellStartX + opts.cellPadding.left, textY, opts.fontSize, Black, PageFont);
      assert cellWidth == ColumnWidth(frame, |headers|);
      assert cellStartX == ColumnX(frame, |headers|, i);
      assert HeaderCellCommands(page, headers, i, opts, frame)
          == [Rectangle(page, cellStartX, frame.tableStartY, cellWidth, opts.headerHeight,
                        HeaderFill, Black, opts.borderWidth, true),
              Text(page, header, cellStartX + opts.cellPadding.left, textY, opts.fontSize, Black, PageFont)];
    }
  }

  /** The pre-pass: one height per row, the largest cell height of the row.
      The lines every cell wraps to are returned alongside, as a ghost, for the
      draw pass to be specified against. */
  method ComputeRowHeights(t: Table, rows: seq<seq<Cell>>)
    returns (rowHeights: seq<real>, ghost lines: seq<seq<seq<string>>>)
    ensures |lines| == |rowHeights| == |rows|
    ensures forall i :: 0 <= i < |rows| ==> |lines[i]| == |rows[i]|
    ensures forall i :: 0 <= i < |rows| ==>
              WrappedAs(t, rows[i], lines[i]) && rowHeights[i] == RowHeightOf(t, rows[i], lines[i])
  {
    rowHeights := [];
    lines := [];
    for i := 0 to |rows|
      invariant |lines| == |rowHeights| == i
      invariant forall k :: 0 <= k < i ==>
                  WrappedAs(t, rows[k], lines[k]) && rowHeights[k] == RowHeightOf(t, rows[k], lines[k])
    {
      var maxCellHeight, rowLines := MaxCellHeight(t, rows[i]);
      rowHeights := rowHeights + [maxCellHeight];
      lines := lines + [rowLines];
    }
  }

  /** The inner loop of the pre-pass: the height of one row, and (as a ghost)
      the lines its cells wrap to. */
  method MaxCellHeight(t: Table, row: seq<Cell>) returns (maxCellHeight: real, ghost rowLines: seq<seq<string>>)
    ensures WrappedAs(t, row, rowLines)
    ensures maxCellHeight == RowHeightOf(t, row, rowLines)
  {
    var numCells := |row|;
    maxCellHeight := 0.0;
    rowLines := [];
    for j := 0 to numCells
      invariant |rowLines| == j
      invariant Measured(t, row, rowLines, maxCellHeight)
    {
      var cellHeight, wrappedText := CellHeight(t, row, j);
      MeasuredStep(t, row, rowLines, maxCellHeight, wrappedText, cellHeight);
      rowLines := rowLines + [wrappedText];
      if cellHeight > maxCellHeight {
        maxCellHeight := cellHeight;
      }
    }
  }

  /** The first cells of a row wrap to `rowLines`, and the tallest of them
      (or 0) is `maxCellHeight`. */
  ghost predicate Measured(t: Table, row: seq<Cell>, rowLines: seq<seq<string>>, maxCellHeight: real)
    requires |rowLines| <= |row|
  {
    (forall k {:trigger CellLines(t, |row|, row[k])} :: 0 <= k < |rowLines| ==> rowLines[k] == CellLines(t, |row|, row[k])) &&
    maxCellHeight == MaxHeight(CellHeights(t, row, rowLines))
  }

  /** The invariant of `MaxCellHeight` carried over one cell. */
  lemma MeasuredStep(t: Table, row: seq<Cell>, rowLines: seq<seq<string>>, maxCellHeight: real,
                     wrappedText: seq<string>, cellHeight: real)
    requires |rowLines| < |row| && Measured(t, row, rowLines, maxCellHeight)
    requires wrappedText == CellLines(t, |row|, row[|rowLines|])
    requires cellHeight == LinesHeight(|wrappedText|, FontSizeOf(row[|rowLines|], t.opts.fontSize), t.opts.cellPadding)
    ensures Measured(t, row, rowLines + [wrappedText], if cellHeight > maxCellHeight then cellHeight else maxCellHeight)
  {
    var longer := rowLines + [wrappedText];
    forall k | 0 <= k < |longer|
      ensures longer[k] == CellLines(t, |row|, row[k])
    {
      if k < |rowLines| {
        assert longer[k] == rowLines[k];
      }
    }
    CellHeightsSnoc(t, row, rowLines, wrappedText);
    MaxHeightSnoc(CellHeights(t, row, rowLines), cellHeight);
    assert CellHeights(t, row, longer) == CellHeights(t, row, rowLines) + [cellHeight];
  }

  /** The height of cell `j` of a row: its wrapped lines at its font size,
      plus the top and bottom padding. */
  method CellHeight(t: Table, row: seq<Cell>, j: nat) returns (cellHeight: real, wrappedText: seq<string>)
    requires j < |row|
    ensures wrappedText == CellLines(t, |row|, row[j])
    ensures cellHeight == LinesHeight(|wrappedText|, FontSizeOf(row[j], t.opts.fontSize), t.opts.cellPadding)
  {
    var cellValue := CellText(row[j]);
    var fontSize := FontSizeOf(row[j], t.opts.fontSize);
    var cellWidth := t.frame.usableWidth / |row| as real - t.opts.cellPadding.left - t.opts.cellPadding.right;
    assert cellWidth == ContentWidth(t.opts, t.frame, |row|);
    wrappedText := WrapTextIntoLines(cellValue, t.font, fontSize, cellWidth);
    cellHeight := LinesHeight(|wrappedText|, fontSize, t.opts.cellPadding);
  }

  lemma CellHeightsSnoc(t: Table, row: seq<Cell>, rowLines: seq<seq<string>>, w: seq<string>)
    requires |rowLines| < |row|
    ensures CellHeights(t, row, rowLines + [w])
         == CellHeights(t, row, rowLines) + [LinesHeight(|w|, FontSizeOf(row[|rowLines|], t.opts.fontSize), t.opts.cellPadding)]
  {
  }

  lemma MaxHeightSnoc(hs: seq<real>, h: real)
    ensures MaxHeight(hs + [h]) == if h > MaxHeight(hs) then h else MaxHeight(hs)
  {
    assert (hs + [h])[..|hs|] == hs;
  }

  /** Cell `j` of a row: its rectangle, then each wrapped line. */
  method DrawCell(doc: Document, t: Table, row: seq<Cell>, ghost rowLines: seq<seq<string>>, j: nat,
                  page: nat, currentY: real, rowHeight: real)
    requires j < |row| && page < |doc.pages|
    requires WrappedAs(t, row, rowLines)
    modifies doc`log
    ensures doc.log == old(doc.log) + CellCommands(t, row, j, rowLines[j], Cursor(page, currentY), rowHeight)
  {
    var cell := row[j];
    var pad := t.opts.cellPadding;
    var cellWidth := t.frame.usableWidth / |row| as real;
    var cellStartX := t.frame.startX + cellWidth * j as real;
    var cellStartY := currentY - rowHeight;
    assert cellWidth == ColumnWidth(t.frame, |row|);
    assert cellStartX == ColumnX(t.frame, |row|, j);
    assert cellWidth - pad.left - pad.right == ContentWidth(t.opts, t.frame, |row|);
    doc.DrawRectangle(page, cellStartX, cellStartY, cellWidth, rowHeight,
                      BackgroundOf(cell), Black, BorderWidthOf(cell, t.opts.borderWidth), false);
    ghost var afterRect := doc.log;
    var wrappedText := WrapTextIntoLines(CellText(cell), t.font, FontSizeOf(cell, t.opts.fontSize),
                                         cellWidth - pad.left - pad.right);
    DrawLines(doc, t, page, cell, cellStartX, cellStartY, cellWidth, rowHeight, wrappedText);
    CellDrawn(t, row, rowLines, j, Cursor(page, currentY), rowHeight, wrappedText, old(doc.log), afterRect, doc.log);
  }

  /** The rectangle followed by the lines is the cell's drawing. */
  lemma CellDrawn(t: Table, row: seq<Cell>, rowLines: seq<seq<string>>, j: nat, top: Cursor, rowHeight: real,
                  wrappedText: seq<string>, log0: seq<Command>, log1: seq<Command>, log2: seq<Command>)
    requires j < |row| && WrappedAs(t, row, rowLines)
    requires wrappedText == CellLines(t, |row|, row[j])
    requires var cellWidth := ColumnWidth(t.frame, |row|);
             var cellStartX := ColumnX(t.frame, |row|, j);
             var cellStartY := top.y - rowHeight;
             log1 == log0 + [Rectangle(top.page, cellStartX, cellStartY, cellWidth, rowHeight,
                                       BackgroundOf(row[j]), Black, BorderWidthOf(row[j], t.opts.borderWidth), false)] &&
             log2 == log1 + LineCommands(t, top.page, row[j], cellStartX, cellStartY, cellWidth, rowHeight,
                                         wrappedText, |wrappedText|)
    ensures log2 == log0 + CellCommands(t, row, j, rowLines[j], top, rowHeight)
  {
    var cellWidth := ColumnWidth(t.frame, |row|);
    var cellStartX := ColumnX(t.frame, |row|, j);
    AppendAssoc(log0, [Rectangle(top.page, cellStartX, top.y - rowHeight, cellWidth, rowHeight,
                                 BackgroundOf(row[j]), Black, BorderWidthOf(row[j], t.opts.borderWidth), false)],
                LineCommands(t, top.page, row[j], cellStartX, top.y - rowHeight, cellWidth, rowHeight,
                             wrappedText, |wrappedText|));
  }

  /** The wrapped lines of one cell, one below the other from the top of the
      cell, each centred or left-aligned. */
  method DrawLines(doc: Document, t: Table, page: nat, cell: Cell, cellStartX: real, cellStartY: real,
                   cellWidth: real, rowHeight: real, wrappedText: seq<string>)
    requires page < |doc.pages|
    modifies doc`log
    ensures doc.log == old(doc.log)
      + LineCommands(t, page, cell, cellStartX, cellStartY, cellWidth, rowHeight, wrappedText, |wrappedText|)
  {
    var pad := t.opts.cellPadding;
    var fontSize := FontSizeOf(cell, t.opts.fontSize);
    for k := 0 to |wrappedText|
      invariant doc.log == old(doc.log)
        + LineCommands(t, page, cell, cellStartX, cellStartY, cellWidth, rowHeight, wrappedText, k)
    {
      var line := wrappedText[k];
      var fontHeight := t.font.heightAtSize(fontSize);
      var baselineOffset := fontHeight * 0.2;
      var textWidth := t.font.widthOfTextAtSize(line, fontSize);
      var textX := cellStartX + pad.left;
      var textY := cellStartY + rowHeight - pad.top - (fontSize * (k + 1) as real - baselineOffset);
      if Centered(cell) {
        var cellContentWidth := cellWidth - pad.left - pad.right;
        textX := cellStartX + (cellContentWidth - textWidth) / 2.0;
      }
      doc.DrawText(page, line, textX, textY, fontSize, ForegroundOf(cell), FontOf(cell));
      assert Text(page, line, textX, textY, fontSize, ForegroundOf(cell), FontOf(cell))
          == LineCommand(t, page, cell, cellStartX, cellStartY, cellWidth, rowHeight, line, k);
    }
  }

  /** The cells of one row, all on page `page`, below `currentY`. */
  method DrawRow(doc: Document, t: Table, row: seq<Cell>, ghost rowLines: seq<seq<string>>,
                 page: nat, currentY: real, rowHeight: real)
    requires page < |doc.pages|
    requires WrappedAs(t, row, rowLines)
    modifies doc`log
    ensures doc.log == old(doc.log) + RowCommands(t, row, rowLines, Cursor(page, currentY), rowHeight, |row|)
  {
    for j := 0 to |row|
      invariant doc.log == old(doc.log) + RowCommands(t, row, rowLines, Cursor(page, currentY), rowHeight, j)
    {
      DrawCell(doc, t, row, rowLines, j, page, currentY, rowHeight);
    }
  }

  /** `page.drawTable(headers, rows, options)` on the page with index `page`,
      where every page `addPage()` creates has size `newPageSize`. Options
      left out take their defaults. It draws the header band and every row,
      appends a page whenever a row would cross the bottom margin, and returns
      the page and height where the table ends. */
  method DrawTable(doc: Document, page: nat, headers: seq<string>, rows: seq<seq<Cell>>,
                   options: OptionsInput, font: Font, newPageSize: PageSize)
    returns (lastPage: nat, endY: real, ghost lines: seq<seq<seq<string>>>, ghost heights: seq<real>)
    requires page < |doc.pages|
    requires forall i, j :: 0 <= i < |rows| && 0 <= j < |rows[i]| ==> HasText(rows[i][j])
    modifies doc
    ensures |lines| == |heights| == |rows| && forall i :: 0 <= i < |rows| ==> |lines[i]| == |rows[i]|
    ensures var opts := ResolveOptions(options);
            var t := Table(font, opts, TableFrame(old(doc.pages)[page].width, |headers|, opts));
            forall i :: 0 <= i < |rows| ==> WrappedAs(t, rows[i], lines[i]) && heights[i] == RowHeightOf(t, rows[i], lines[i])
    ensures var opts := ResolveOptions(options);
            var t := Table(font, opts, TableFrame(old(doc.pages)[page].width, |headers|, opts));
            var p := TablePagination(t, page, |old(doc.pages)|, newPageSize.height, heights);
            doc.pages == old(doc.pages) + NewPages(p.pageCount - |old(doc.pages)|, newPageSize) &&
            doc.log == old(doc.log) + TableCommands(t, page, |old(doc.pages)|, newPageSize.height, headers,
                                                    rows, lines, heights) &&
            lastPage == p.cursor.page && endY == p.cursor.y
    ensures lastPage < |doc.pages|
  {
    var opts := ResolveOptions(options);
    var t := Table(font, opts, TableFrame(doc.pages[page].width, |headers|, opts));
    lastPage, endY, lines, heights := DrawLaidOut(doc, t, page, headers, rows, newPageSize);
  }

  /** The body of `drawTable` once the geometry is fixed: the header band,
      the pre-pass, then the draw loop. */
  method DrawLaidOut(doc: Document, t: Table, page: nat, headers: seq<string>, rows: seq<seq<Cell>>,
                     newPageSize: PageSize)
    returns (lastPage: nat, endY: real, ghost lines: seq<seq<seq<string>>>, ghost heights: seq<real>)
    requires page < |doc.pages|
    modifies doc
    ensures |lines| == |heights| == |rows| && forall i :: 0 <= i < |rows| ==> |lines[i]| == |rows[i]|
    ensures forall i :: 0 <= i < |rows| ==> WrappedAs(t, rows[i], lines[i]) && heights[i] == RowHeightOf(t, rows[i], lines[i])
    ensures var p := TablePagination(t, page, |old(doc.pages)|, newPageSize.height, heights);
            doc.pages == old(doc.pages) + NewPages(p.pageCount - |old(doc.pages)|, newPageSize) &&
            doc.log == old(doc.log) + TableCommands(t, page, |old(doc.pages)|, newPageSize.height, headers,
                                                    rows, lines, heights) &&
            lastPage == p.cursor.page && endY == p.cursor.y
    ensures lastPage < |doc.pages|
  {
    DrawHeaders(doc, page, headers, t.opts, t.frame);
    ghost var headerLog := doc.log;
    var rowHeights;
    rowHeights, lines := ComputeRowHeights(t, rows);
    heights := rowHeights;
    lastPage, endY := DrawRows(doc, t, rows, lines, rowHeights, page, newPageSize, old(doc.pages), headerLog);
    AppendAssoc(old(doc.log), HeaderCommands(page, headers, |headers|, t.opts, t.frame),
                RowsCommands(t, rows, lines, heights, TablePagination(t, page, |old(doc.pages)|, newPageSize.height,
                                                                      heights).tops, |rows|));
  }

  /** The draw loop: each row goes below the previous one, or to the top of a
      new page when it would cross the bottom margin. */
  method DrawRows(doc: Document, t: Table, rows: seq<seq<Cell>>, ghost lines: seq<seq<seq<string>>>,
                  rowHeights: seq<real>, page: nat, newPageSize: PageSize,
                  ghost pages0: seq<PageSize>, ghost log0: seq<Command>)
    returns (lastPage: nat, endY: real)
    requires doc.pages == pages0 && doc.log == log0 && page < |pages0|
    requires |lines| == |rowHeights| == |rows|
    requires forall i :: 0 <= i < |rows| ==> |lines[i]| == |rows[i]| && WrappedAs(t, rows[i], lines[i])
    modifies doc
    ensures var p := TablePagination(t, page, |pages0|, newPageSize.height, rowHeights);
            doc.pages == pages0 + NewPages(p.pageCount - |pages0|, newPageSize) &&
            doc.log == log0 + RowsCommands(t, rows, lines, rowHeights, p.tops, |rows|) &&
            lastPage == p.cursor.page && endY == p.cursor.y && lastPage < |doc.pages|
  {
    var currentPage: nat := page;
    var currentY := t.frame.tableStartY;
    ghost var start := Cursor(page, currentY);
    ghost var pageCount := |pages0|;
    for i := 0 to |rows|
      invariant DrawnThrough(t, rows, lines, rowHeights, newPageSize, start, pageCount, pages0, log0, i,
                             currentPage, currentY, doc.pages, doc.log)
    {
      currentPage, currentY := DrawRowAt(doc, t, rows, lines, rowHeights, i, currentPage, currentY, newPageSize,
                                         start, pageCount, pages0, log0);
    }
    lastPage, endY := currentPage, currentY;
  }

  /** The first `i` rows are drawn: the cursor, the pages appended and the
      commands issued are those of paginating and drawing them from `start`
      in a document that had the pages `pages0` and the log `log0`. */
  ghost predicate DrawnThrough(t: Table, rows: seq<seq<Cell>>, lines: seq<seq<seq<string>>>, heights: seq<real>,
                               newPageSize: PageSize, start: Cursor, pageCount: nat,
                               pages0: seq<PageSize>, log0: seq<Command>, i: nat,
                               page: nat, y: real, pages: seq<PageSize>, log: seq<Command>)
    requires i <= |rows| == |lines| == |heights|
    requires forall k :: 0 <= k < |rows| ==> |lines[k]| == |rows[k]|
  {
    var p := Paginate(t.opts, newPageSize.height, start, pageCount, heights, i);
    page < |pages| && p.cursor == Cursor(page, y) && p.pageCount == |pages| &&
    pages == pages0 + NewPages(p.pageCount - pageCount, newPageSize) &&
    log == log0 + RowsCommands(t, rows, lines, heights, p.tops, i)
  }

  /** One iteration of the draw loop: the page break, if the row needs one,
      then the row, then the cursor moved below it. */
  method DrawRowAt(doc: Document, t: Table, rows: seq<seq<Cell>>, ghost lines: seq<seq<seq<string>>>,
                   rowHeights: seq<real>, i: nat, currentPage: nat, currentY: real, newPageSize: PageSize,
                   ghost start: Cursor, ghost pageCount: nat, ghost pages0: seq<PageSize>, ghost log0: seq<Command>)
    returns (nextPage: nat, nextY: real)
    requires i < |rows| == |lines| == |rowHeights|
    requires forall k :: 0 <= k < |rows| ==> |lines[k]| == |rows[k]| && WrappedAs(t, rows[k], lines[k])
    requires DrawnThrough(t, rows, lines, rowHeights, newPageSize, start, pageCount, pages0, log0, i,
                          currentPage, currentY, doc.pages, doc.log)
    modifies doc
    ensures DrawnThrough(t, rows, lines, rowHeights, newPageSize, start, pageCount, pages0, log0, i + 1,
                         nextPage, nextY, doc.pages, doc.log)
  {
    ghost var p := Paginate(t.opts, newPageSize.height, start, pageCount, rowHeights, i);
    ghost var pagesBefore, logBefore := doc.pages, doc.log;
    nextPage, nextY := currentPage, currentY;
    var rowHeight := rowHeights[i];
    var totalHeight := rowHeight;
    // A row that would cross the bottom margin starts a new page.
    if nextY - totalHeight < t.opts.margin.bottom {
      nextPage := doc.AddPage(newPageSize);
      nextY := doc.pages[nextPage].height - t.opts.margin.top;
      totalHeight := rowHeight;
      assert NewPages(1, newPageSize) == [newPageSize];
    } else {
      assert NewPages(0, newPageSize) == [];
    }
    DrawRow(doc, t, rows[i], lines[i], nextPage, nextY, rowHeight);
    nextY := nextY - totalHeight;
    DrawRowsStep(t, rows, lines, rowHeights, newPageSize, start, pageCount, pages0, log0,
                 i, currentPage, currentY, pagesBefore, logBefore, nextPage, nextY, doc.pages, doc.log);
  }

  /** The loop invariant of `DrawRows` carried over one row. */
  lemma DrawRowsStep(t: Table, rows: seq<seq<Cell>>, lines: seq<seq<seq<string>>>, heights: seq<real>,
                     newPageSize: PageSize, start: Cursor, pageCount: nat, pages0: seq<PageSize>, log0: seq<Command>,
                     i: nat, page: nat, y: real, pages: seq<PageSize>, log: seq<Command>,
                     page': nat, y': real, pages': seq<PageSize>, log': seq<Command>)
    requires i < |rows| == |lines| == |heights|
    requires forall k :: 0 <= k < |rows| ==> |lines[k]| == |rows[k]|
    requires DrawnThrough(t, rows, lines, heights, newPageSize, start, pageCount, pages0, log0, i, page, y, pages, log)
    requires var p := Paginate(t.opts, newPageSize.height, start, pageCount, heights, i);
             var next := PaginateRow(t.opts, newPageSize.height, p, heights[i]);
             Cursor(page', y') == next.cursor &&
             pages' == pages + NewPages(next.pageCount - p.pageCount, newPageSize) &&
             log' == log + RowCommands(t, rows[i], lines[i], RowTop(t.opts, newPageSize.height, p, heights[i]),
                                       heights[i], |rows[i]|)
    ensures DrawnThrough(t, rows, lines, heights, newPageSize, start, pageCount, pages0, log0, i + 1,
                         page', y', pages', log')
  {
    var p := Paginate(t.opts, newPageSize.height, start, pageCount, heights, i);
    var next := PaginateRow(t.opts, newPageSize.height, p, heights[i]);
    var top := RowTop(t.opts, newPageSize.height, p, heights[i]);
    assert next == Paginate(t.opts, newPageSize.height, start, pageCount, heights, i + 1);
    assert next.tops == p.tops + [top] && next.tops[i] == top;
    if Overflows(t.opts, p.cursor, heights[i]) {
      assert |pages'| == |pages| + 1 && page' == |pages|;
    } else {
      assert pages' == pages && page' == page;
    }
    NewPagesAppend(p.pageCount - pageCount, next.pageCount - p.pageCount, newPageSize);
    AppendAssoc(pages0, NewPages(p.pageCount - pageCount, newPageSize), NewPages(next.pageCount - p.pageCount, newPageSize));
    assert pages' == pages0 + NewPages(next.pageCount - pageCount, newPageSize);
    RowsCommandsTops(t, rows, lines, heights, p.tops, [top], i);
    var rowCmds := RowCommands(t, rows[i], lines[i], top, heights[i], |rows[i]|);
    assert RowsCommands(t, rows, lines, heights, next.tops, i + 1)
        == RowsCommands(t, rows, lines, heights, p.tops, i) + rowCmds;
    AppendAssoc(log0, RowsCommands(t, rows, lines, heights, p.tops, i), rowCmds);
  }

  /** Rows drawn at the first tops do not depend on the tops after them. */
  lemma {:induction false} RowsCommandsTops(t: Table, rows: seq<seq<Cell>>, lines: seq<seq<seq<string>>>,
                                            heights: seq<real>, tops: seq<Cursor>, more: seq<Cursor>, count: nat)
    requires count <= |rows| == |lines| == |heights| && count <= |tops|
    requires forall i :: 0 <= i < count ==> |lines[i]| == |rows[i]|
    ensures RowsCommands(t, rows, lines, heights, tops + more, count) == RowsCommands(t, rows, lines, heights, tops, count)
  {
    if count > 0 {
      RowsCommandsTops(t, rows, lines, heights, tops, more, count - 1);
      assert (tops + more)[count - 1] == tops[count - 1];
    }
  }

  lemma {:induction false} NewPagesAppend(a: nat, b: nat, size: PageSize)
    ensures NewPages(a + b, size) == NewPages(a, size) + NewPages(b, size)
    decreases b
  {
    if b > 0 {
      NewPagesAppend(a, b - 1, size);
      AppendAssoc(NewPages(a, size), NewPages(b - 1, size), [size]);
    }
  }

  lemma AppendAssoc<T>(a: seq<T>, b: seq<T>, c: seq<T>)
    ensures a + b + c == a + (b + c)
  {
  }

  /** The lines and heights the pre-pass computed are the table's. */
  lemma ComputedLayout(t: Table, rows: seq<seq<Cell>>, lines: seq<seq<seq<string>>>, heights: seq<real>)
    requires |lines| == |heights| == |rows|
    requires forall i :: 0 <= i < |rows| ==>
               WrappedAs(t, rows[i], lines[i]) && heights[i] == RowHeightOf(t, rows[i], lines[i])
    ensures lines == TableLines(t, rows) && heights == RowHeights(t, rows)
  {
    forall i | 0 <= i < |rows|
      ensures lines[i] == RowLines(t, rows[i])
    {
      var row := rows[i];
      forall j | 0 <= j < |row|
        ensures lines[i][j] == RowLines(t, row)[j]
      {
        assert lines[i][j] == CellLines(t, |row|, row[j]);
      }
    }
  }
}
