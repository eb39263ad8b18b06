/** The values `drawTable` works with (cells, options, page sizes, the drawing
    commands it issues) and, as functions, the layout it computes: the table's
    frame on its first page, the row heights of the pre-pass, the pagination of
    the draw pass and the commands each part of the table produces. */
module TableModel {
  import opened Wrappers
  import opened Wrapping

  // ---------------------------------------------------------------------------
  // Cells

  /** An `rgb(r, g, b)` colour, recorded as given. */
  datatype Color = Color(red: real, green: real, blue: real)

  const Black := Color(0.0, 0.0, 0.0)
  const White := Color(1.0, 1.0, 1.0)
  const HeaderFill := Color(0.95, 0.95, 0.95)

  /** `align`: only the value 'center' centres; anything else is left. */
  datatype Align = Left | Center

  /** A cell is a bare string or an object with a `text` and optional style. */
  datatype Cell =
    | Plain(value: string)
    | Styled(text: string, fontSize: Option<real>, bold: bool, align: Align,
             backgroundColor: Option<Color>, foregroundColor: Option<Color>,
             borderWidth: Option<real>)

  /** `row[j].text || row[j]` is a string: an object cell with empty text would
      be handed to the wrapper as the object itself, which cannot be split. */
  predicate HasText(cell: Cell)
  {
    cell.Plain? || cell.text != ""
  }

  /** The text handed to the wrapper: a bare string, or an object cell's
      `text`, which is non-empty for every cell the table can draw. */
  function CellText(cell: Cell): (s: string)
    ensures cell.Plain? ==> s == cell.value
    ensures cell.Styled? && HasText(cell) ==> s != ""
  {
    match cell
    case Plain(s) => s
    case Styled(text, _, _, _, _, _, _) => text
  }

  /** `row[j].fontSize || fontSize`: a missing or zero size falls back to the
      table's. */
  function FontSizeOf(cell: Cell, tableFontSize: real): (fs: real)
  {
    if cell.Styled? && cell.fontSize.Some? && cell.fontSize.value != 0.0 then cell.fontSize.value
    else tableFontSize
  }

  /** A bare string, a missing size or a size of 0 takes the table's size, and
      a non-zero table size never gives a cell size of 0. */
  lemma FontSizeFallback(cell: Cell, tableFontSize: real)
    ensures cell.Plain? || cell.fontSize.None? || cell.fontSize == Some(0.0) ==>
              FontSizeOf(cell, tableFontSize) == tableFontSize
    ensures tableFontSize != 0.0 ==> FontSizeOf(cell, tableFontSize) != 0.0
  {
  }

  /** The cell's `borderWidth` whenever it is defined, zero included. */
  function BorderWidthOf(cell: Cell, tableBorderWidth: real): (w: real)
    ensures cell.Styled? && cell.borderWidth.Some? ==> w == cell.borderWidth.value
    ensures cell.Plain? || cell.borderWidth.None? ==> w == tableBorderWidth
  {
    if cell.Styled? then cell.borderWidth.GetOr(tableBorderWidth) else tableBorderWidth
  }

  /** The cell's `backgroundColor`, white when it has none. */
  function BackgroundOf(cell: Cell): (c: Color)
    ensures c == White || (cell.Styled? && cell.backgroundColor == Some(c))
    ensures cell.Plain? ==> c == White
  {
    if cell.Styled? then cell.backgroundColor.GetOr(White) else White
  }

  /** The cell's `foregroundColor`, black when it has none. */
  function ForegroundOf(cell: Cell): (c: Color)
    ensures c == Black || (cell.Styled? && cell.foregroundColor == Some(c))
    ensures cell.Plain? ==> c == Black
  {
    if cell.Styled? then cell.foregroundColor.GetOr(Black) else Black
  }

  /** The font a text run is drawn with: the page's own (headers), or one of
      the two embedded Helvetica fonts. */
  datatype FontChoice = PageFont | Regular | Bold

  function FontOf(cell: Cell): (f: FontChoice)
    ensures f != PageFont
    ensures f == Bold <==> cell.Styled? && cell.bold
  {
    if cell.Styled? && cell.bold then Bold else Regular
  }

  /** Only an object cell whose `align` is 'center' is centred; a bare string
      is always left-aligned. */
  predicate Centered(cell: Cell): (b: bool)
    ensures b ==> cell.Styled?
  {
    cell.Styled? && cell.align == Center
  }

  // ---------------------------------------------------------------------------
  // Options

  datatype Margin = Margin(top: real, bottom: real, left: real, right: real)
  datatype Padding = Padding(top: real, bottom: real, left: real, right: real)

  datatype Options = Options(margin: Margin, fontSize: real, startPosY: real,
                             headerHeight: real, borderWidth: real, cellPadding: Padding)

  /** The options object as a caller passes it: every property may be left out. */
  datatype OptionsInput = OptionsInput(margin: Option<Margin>, fontSize: Option<real>,
                                       startPosY: Option<real>, headerHeight: Option<real>,
                                       borderWidth: Option<real>, cellPadding: Option<Padding>)

  const DefaultOptions := Options(Margin(10.0, 50.0, 50.0, 50.0), 14.0, 0.0, 20.0, 1.0,
                                  Padding(5.0, 5.0, 5.0, 5.0))

  /** The destructuring with defaults: each property left out takes its default. */
  function ResolveOptions(input: OptionsInput): (opts: Options)
    ensures opts.margin == if input.margin.Some? then input.margin.value else Margin(10.0, 50.0, 50.0, 50.0)
    ensures opts.fontSize == if input.fontSize.Some? then input.fontSize.value else 14.0
    ensures opts.startPosY == if input.startPosY.Some? then input.startPosY.value else 0.0
    ensures opts.headerHeight == if input.headerHeight.Some? then input.headerHeight.value else 20.0
    ensures opts.borderWidth == if input.borderWidth.Some? then input.borderWidth.value else 1.0
    ensures opts.cellPadding == if input.cellPadding.Some? then input.cellPadding.value else Padding(5.0, 5.0, 5.0, 5.0)
  {
    Options(input.margin.GetOr(DefaultOptions.margin),
            input.fontSize.GetOr(DefaultOptions.fontSize),
            input.startPosY.GetOr(DefaultOptions.startPosY),
            input.headerHeight.GetOr(DefaultOptions.headerHeight),
            input.borderWidth.GetOr(DefaultOptions.borderWidth),
            input.cellPadding.GetOr(DefaultOptions.cellPadding))
  }

  // ---------------------------------------------------------------------------
  // Geometry

  datatype PageSize = PageSize(width: real, height: real)

  /** Where the table lies on the page it starts on: its left edge, the width
      between the side margins, and the bottom of the header band, where the
      first row's cursor starts. */
  datatype Frame = Frame(startX: real, usableWidth: real, tableStartY: real)

  function TableFrame(pageWidth: real, headerCount: nat, opts: Options): (f: Frame)
    ensures f.startX == opts.margin.left && f.startX + f.usableWidth == pageWidth - opts.margin.right
    ensures headerCount > 0 ==> f.tableStartY + opts.headerHeight == opts.startPosY - opts.margin.top
    ensures headerCount == 0 ==> f.tableStartY == opts.startPosY - opts.margin.top
  {
    var startX := opts.margin.left;
    var endX := pageWidth - opts.margin.right;
    var startY := opts.startPosY - opts.margin.top;
    Frame(startX, endX - startX, startY - (if headerCount > 0 then opts.headerHeight else 0.0))
  }

  /** Columns share the usable width equally among `count` cells. */
  function ColumnWidth(frame: Frame, count: nat): (w: real)
    requires count > 0
    ensures w * count as real == frame.usableWidth
  {
    frame.usableWidth / count as real
  }

  /** The left edge of column `i`: the columns from `i` on fill the rest of
      the usable width. */
  function ColumnX(frame: Frame, count: nat, i: nat): (x: real)
    requires count > 0
    ensures x + ColumnWidth(frame, count) * (count - i) as real == frame.startX + frame.usableWidth
  {
    frame.startX + ColumnWidth(frame, count) * i as real
  }

  /** The width the text of a cell is wrapped to. */
  function ContentWidth(opts: Options, frame: Frame, count: nat): (w: real)
    requires count > 0
    ensures opts.cellPadding.left + w + opts.cellPadding.right == ColumnWidth(frame, count)
  {
    ColumnWidth(frame, count) - opts.cellPadding.left - opts.cellPadding.right
  }

  /** What stays fixed during one `drawTable` call. */
  datatype Table = Table(font: Font, opts: Options, frame: Frame)

  // ---------------------------------------------------------------------------
  // Drawing commands

  /** One call of `drawRectangle` or `drawText` on the page with that index. */
  datatype Command =
    | Rectangle(page: nat, x: real, y: real, width: real, height: real,
                color: Color, borderColor: Color, borderWidth: real, fill: bool)
    | Text(page: nat, text: string, x: real, y: real, size: real, color: Color, font: FontChoice)

  /** The fixed text height used to centre header labels vertically. */
  const HeaderTextHeight := 10.0

  /** Header cell `i`: a filled rectangle on the band, and its label inset by
      the left padding and centred vertically in the band for a text
      `HeaderTextHeight` high. */
  function HeaderCellCommands(page: nat, headers: seq<string>, i: nat, opts: Options, frame: Frame): (cmds: seq<Command>)
    requires i < |headers|
    ensures |cmds| == 2 && cmds[0].Rectangle? && cmds[1].Text?
    ensures cmds[0].page == cmds[1].page == page && cmds[0].fill && cmds[0].y == frame.tableStartY
    ensures cmds[1].text == headers[i] && cmds[1].x == cmds[0].x + opts.cellPadding.left
    ensures cmds[1].y + HeaderTextHeight / 2.0 == cmds[0].y + cmds[0].height / 2.0
  {
    var x := ColumnX(frame, |headers|, i);
    [Rectangle(page, x, frame.tableStartY, ColumnWidth(frame, |headers|), opts.headerHeight,
               HeaderFill, Black, opts.borderWidth, true),
     Text(page, headers[i], x + opts.cellPadding.left,
          frame.tableStartY + (opts.headerHeight - HeaderTextHeight) / 2.0,
          opts.fontSize, Black, PageFont)]
  }

  /** The commands drawing the first `count` header cells. */
  function HeaderCommands(page: nat, headers: seq<string>, count: nat, opts: Options, frame: Frame): seq<Command>
    requires count <= |headers|
  {
    if count == 0 then []
    else HeaderCommands(page, headers, count - 1, opts, frame) + HeaderCellCommands(page, headers, count - 1, opts, frame)
  }

  // ---------------------------------------------------------------------------
  // Row heights (the pre-pass)

  /** The lines of a cell in a row of `count` cells. */
  function CellLines(t: Table, count: nat, cell: Cell): seq<string>
    requires count > 0
  {
    Wrap(t.font, FontSizeOf(cell, t.opts.fontSize), ContentWidth(t.opts, t.frame, count), CellText(cell))
  }

  /** The height of `lineCount` lines of the given size with vertical padding. */
  function LinesHeight(lineCount: nat, fontSize: real, pad: Padding): (h: real)
    ensures lineCount == 0 ==> h == pad.top + pad.bottom
  {
    lineCount as real * fontSize + pad.top + pad.bottom
  }

  /** `rowLines[j]` is what cell `j` of `row` wraps to, for every cell. */
  predicate WrappedAs(t: Table, row: seq<Cell>, rowLines: seq<seq<string>>)
  {
    |rowLines| == |row| &&
    forall j {:trigger CellLines(t, |row|, row[j])} :: 0 <= j < |row| ==> rowLines[j] == CellLines(t, |row|, row[j])
  }

  /** The lines of every cell of a row. */
  function RowLines(t: Table, row: seq<Cell>): (rowLines: seq<seq<string>>)
    ensures |rowLines| == |row|
  {
    seq(|row|, j requires 0 <= j < |row| => CellLines(t, |row|, row[j]))
  }

  /** The lines of every cell of every row. */
  function TableLines(t: Table, rows: seq<seq<Cell>>): (lines: seq<seq<seq<string>>>)
    ensures |lines| == |rows|
  {
    seq(|rows|, i requires 0 <= i < |rows| => RowLines(t, rows[i]))
  }

  /** The heights of the first `|rowLines|` cells of `row`, given their lines. */
  function CellHeights(t: Table, row: seq<Cell>, rowLines: seq<seq<string>>): (hs: seq<real>)
    requires |rowLines| <= |row|
    ensures |hs| == |rowLines|
  {
    seq(|rowLines|, j requires 0 <= j < |rowLines| =>
      LinesHeight(|rowLines[j]|, FontSizeOf(row[j], t.opts.fontSize), t.opts.cellPadding))
  }

  /** The running maximum of the pre-pass, which starts from 0: a
      non-negative bound of the heights (and the least one, see
      `MaxHeightAttained`). */
  function MaxHeight(hs: seq<real>): (m: real)
    ensures 0.0 <= m
    ensures forall i :: 0 <= i < |hs| ==> hs[i] <= m
  {
    if |hs| == 0 then 0.0
    else
      var m := MaxHeight(hs[..|hs| - 1]);
      var h := hs[|hs| - 1];
      if h > m then h else m
  }

  /** The height of a row whose cells wrap to `rowLines`. */
  function RowHeightOf(t: Table, row: seq<Cell>, rowLines: seq<seq<string>>): real
    requires |rowLines| == |row|
  {
    MaxHeight(CellHeights(t, row, rowLines))
  }

  function RowHeight(t: Table, row: seq<Cell>): real
  {
    RowHeightOf(t, row, RowLines(t, row))
  }

  function RowHeights(t: Table, rows: seq<seq<Cell>>): (hs: seq<real>)
    ensures |hs| == |rows|
  {
    seq(|rows|, i requires 0 <= i < |rows| => RowHeight(t, rows[i]))
  }

  // ---------------------------------------------------------------------------
  // Pagination (the draw pass's cursor)

  /** A page index and a vertical position on it. */
  datatype Cursor = Cursor(page: nat, y: real)

  /** After some rows: the cursor, the number of pages in the document, and the
      top of each row drawn so far (the page and `currentY` it was drawn at). */
  datatype Pagination = Pagination(cursor: Cursor, pageCount: nat, tops: seq<Cursor>)

  /** One row of height `h`: a row that would end below the bottom margin goes
      to a new page, appended to the document, whose top margin it starts at;
      the cursor then moves down by the row. */
  function PaginateRow(opts: Options, newPageHeight: real, p: Pagination, h: real): (q: Pagination)
    ensures |q.tops| == |p.tops| + 1
    ensures p.pageCount <= q.pageCount <= p.pageCount + 1
  {
    var top := RowTop(opts, newPageHeight, p, h);
    Pagination(Cursor(top.page, top.y - h),
               if Overflows(opts, p.cursor, h) then p.pageCount + 1 else p.pageCount,
               p.tops + [top])
  }

  /** A row of height `h` drawn at `at` would end below the bottom margin. */
  predicate Overflows(opts: Options, at: Cursor, h: real): (b: bool)
  {
    at.y - h < opts.margin.bottom
  }

  /** Where the next row of height `h` is drawn: at the cursor, or at the top
      margin of the page about to be appended. */
  function RowTop(opts: Options, newPageHeight: real, p: Pagination, h: real): (top: Cursor)
  {
    if Overflows(opts, p.cursor, h) then Cursor(p.pageCount, newPageHeight - opts.margin.top) else p.cursor
  }

  /** The cursor moved over the first `count` rows of the given heights, from
      `start` in a document of `pageCount` pages. */
  function Paginate(opts: Options, newPageHeight: real, start: Cursor, pageCount: nat, heights: seq<real>,
                    count: nat): (p: Pagination)
    requires count <= |heights|
    ensures |p.tops| == count && pageCount <= p.pageCount
  {
    if count == 0 then Pagination(start, pageCount, [])
    else PaginateRow(opts, newPageHeight, Paginate(opts, newPageHeight, start, pageCount, heights, count - 1),
                     heights[count - 1])
  }

  /** `count` pages of the given size. */
  function NewPages(count: nat, size: PageSize): seq<PageSize>
  {
    if count == 0 then [] else NewPages(count - 1, size) + [size]
  }

  // ---------------------------------------------------------------------------
  // Row commands (the draw pass)

  /** Line `k` of a cell whose rectangle has its lower left corner at
      (`cellStartX`, `cellStartY`): drawn in the cell's size, colour and font,
      its baseline `k + 1` font sizes below the top padding and raised by a
      fifth of the font height; left-aligned at the left padding, or centred on
      a band of the content width that starts at the cell's left edge. */
  function LineCommand(t: Table, page: nat, cell: Cell, cellStartX: real, cellStartY: real,
                       cellWidth: real, rowHeight: real, line: string, k: nat): (c: Command)
    ensures c.Text? && c.page == page && c.text == line
    ensures c.size == FontSizeOf(cell, t.opts.fontSize) && c.color == ForegroundOf(cell) && c.font == FontOf(cell)
  {
    var fs := FontSizeOf(cell, t.opts.fontSize);
    var pad := t.opts.cellPadding;
    var baselineOffset := t.font.heightAtSize(fs) * 0.2;
    var textWidth := t.font.widthOfTextAtSize(line, fs);
    var contentWidth := cellWidth - pad.left - pad.right;
    var x := if Centered(cell) then cellStartX + (contentWidth - textWidth) / 2.0 else cellStartX + pad.left;
    var y := cellStartY + rowHeight - pad.top - (fs * (k + 1) as real - baselineOffset);
    Text(page, line, x, y, fs, ForegroundOf(cell), FontOf(cell))
  }

  /** The commands drawing the first `count` of a cell's lines. */
  function LineCommands(t: Table, page: nat, cell: Cell, cellStartX: real, cellStartY: real,
                        cellWidth: real, rowHeight: real, lines: seq<string>, count: nat): (cmds: seq<Command>)
    requires count <= |lines|
    ensures |cmds| == count
  {
    if count == 0 then []
    else LineCommands(t, page, cell, cellStartX, cellStartY, cellWidth, rowHeight, lines, count - 1)
         + [LineCommand(t, page, cell, cellStartX, cellStartY, cellWidth, rowHeight, lines[count - 1], count - 1)]
  }

  /** Cell `j` of a row of height `rowHeight` whose top is at `top`, wrapped
      to `lines`: its unfilled rectangle, then its lines. */
  function CellCommands(t: Table, row: seq<Cell>, j: nat, lines: seq<string>, top: Cursor, rowHeight: real): (cmds: seq<Command>)
    requires j < |row|
    ensures |cmds| == 1 + |lines|
  {
    var cell := row[j];
    var cellWidth := ColumnWidth(t.frame, |row|);
    var cellStartX := ColumnX(t.frame, |row|, j);
    var cellStartY := top.y - rowHeight;
    [Rectangle(top.page, cellStartX, cellStartY, cellWidth, rowHeight,
               BackgroundOf(cell), Black, BorderWidthOf(cell, t.opts.borderWidth), false)]
    + LineCommands(t, top.page, cell, cellStartX, cellStartY, cellWidth, rowHeight, lines, |lines|)
  }

  /** The commands drawing the first `count` cells of a row whose cells wrap
      to `rowLines`. */
  function RowCommands(t: Table, row: seq<Cell>, rowLines: seq<seq<string>>, top: Cursor, rowHeight: real,
                       count: nat): seq<Command>
    requires count <= |row| == |rowLines|
  {
    if count == 0 then []
    else RowCommands(t, row, rowLines, top, rowHeight, count - 1)
         + CellCommands(t, row, count - 1, rowLines[count - 1], top, rowHeight)
  }

  /** The commands drawing the first `count` rows, wrapped to `lines`, with
      the given heights, at the given tops. */
  function RowsCommands(t: Table, rows: seq<seq<Cell>>, lines: seq<seq<seq<string>>>, heights: seq<real>,
                        tops: seq<Cursor>, count: nat): seq<Command>
    requires count <= |rows| == |lines| == |heights| && count <= |tops|
    requires forall i :: 0 <= i < count ==> |lines[i]| == |rows[i]|
  {
    if count == 0 then []
    else RowsCommands(t, rows, lines, heights, tops, count - 1)
         + RowCommands(t, rows[count - 1], lines[count - 1], tops[count - 1], heights[count - 1], |rows[count - 1]|)
  }

  // ---------------------------------------------------------------------------
  // The whole table

  /** The cursor over rows of the given heights, from the bottom of the header
      band of page `startPage` in a document of `pageCount` pages. */
  function TablePagination(t: Table, startPage: nat, pageCount: nat, newPageHeight: real,
                           heights: seq<real>): Pagination
  {
    Paginate(t.opts, newPageHeight, Cursor(startPage, t.frame.tableStartY), pageCount, heights, |heights|)
  }

  /** Everything `drawTable` draws for rows that wrap to `lines` and have the
      given heights: the header band, then every row. */
  function TableCommands(t: Table, startPage: nat, pageCount: nat, newPageHeight: real, headers: seq<string>,
                         rows: seq<seq<Cell>>, lines: seq<seq<seq<string>>>, heights: seq<real>): seq<Command>
    requires |rows| == |lines| == |heights|
    requires forall i :: 0 <= i < |rows| ==> |lines[i]| == |rows[i]|
  {
    HeaderCommands(startPage, headers, |headers|, t.opts, t.frame)
    + RowsCommands(t, rows, lines, heights, TablePagination(t, startPage, pageCount, newPageHeight, heights).tops, |rows|)
  }
}
