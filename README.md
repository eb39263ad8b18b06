# pdf-lib-autotable in Dafny

pdf-lib-autotable adds one method to a pdf-lib page, `drawTable(headers, rows, options)`.
It draws a table onto the page and returns `{ lastPage, endY }`, the page and the height at which the table ends.
The table is drawn in three steps:

- **Header band.** The headers are laid out in equal-width columns between the side margins. Each header gets a grey filled rectangle and a label.
- **Height pre-pass.** Every cell's text is wrapped to its column by `wrapTextIntoLines`. Each row is as tall as its tallest cell, where a cell's height is its line count times its font size plus the vertical padding.
- **Draw pass.** A cursor moves down the page. A row that would cross the bottom margin goes to the top margin of a page appended to the document. Each cell is drawn as a bordered rectangle with its wrapped lines inside, left-aligned or centred, in the cell's size, colour and weight.

`wrapTextIntoLines` is a greedy line breaker:

- Words separated by single spaces are packed onto a line while the measured width stays within the budget.
- A word too wide for a line of its own is cut into pieces, character by character.

The project models both parts, in five modules:

- `Strings` (`strings.dfy`): JavaScript's `split(' ')` and the joins that undo it.
- `Wrapping` (`wrapping.dfy`): `wrapTextIntoLines`. It is a method with the source's loops, proved equal to the function `Wrap`. The splitting loop is the one exception: where the source's loop never exits, the model's puts the offending character on a line of its own (see Findings). Lemmas state what the lines are: non-empty, within the width, and the text again when joined with spaces.
- `TableModel` (`table_model.dfy`): the values involved (cells, options, the frame of the table, page sizes, drawing commands). It also holds the layout as functions: lines and heights of the pre-pass, the pagination of the draw pass, the commands each part draws.
- `TableDrawing` (`table_drawing.dfy`): `drawTable` as methods on a `Document` whose pages and drawing log they change. Each method is proved to append exactly the commands and pages that `TableModel` describes.
- `PaginationProperties` and `LayoutProperties` (`pagination_properties.dfy`, `layout_properties.dfy`): what that layout guarantees:
  - rows stack down the page;
  - a page break happens exactly when a row would cross the bottom margin;
  - no appended page is left blank;
  - columns tile the usable width;
  - rows are as tall as their tallest cell;
  - every line lies inside its cell;
  - nothing is drawn on a page the document does not have.

The font is a parameter. Its two metrics, `widthOfTextAtSize` and `heightAtSize`, are arbitrary functions: nothing is assumed about them, not even that a longer string is wider. The document's pages are a sequence of page sizes. Every `drawRectangle` and `drawText` call becomes a `Command` appended to the document's log.

Where the code and its documentation differ, the model follows the code:

- A word cut into pieces has its last piece pushed as a line of its own (index.js:240-244). It is not kept as the line that the next word may join.
- Cell rectangles are drawn with `fill: false` even when a background colour is given (index.js:144-145).
- With the default `startPosY` of 0, `startY` is -10 and `tableStartY` is -30 (index.js:49-50). The header band spans heights -30 to -10, below the page's bottom edge. The cursor starts at -30, under the bottom margin of 50, so the first row goes to a new page (`DefaultFirstRowOnNewPage`).

There is one exception. The character-splitting loop never exits when the first character of what remains of a word is too wide on its own (index.js:228-237). There the model follows the documented behaviour instead: the loop advances by one character. Findings has the details; `Wrapping.AsWrittenAgrees` proves that on every input where the source's loop exits, both loops give the same lines.

## Model

| member | source | states |
|---|---|---|
| Strings.SplitOnSpace | index.js:202 | `split(' ')` returns at least one piece, even for the empty string |
| Strings.SplitOnSpaceChars | index.js:202 | no piece of the split contains a space, and every character of a piece is a character of the text |
| Strings.JoinSplit | index.js:202 | joining the pieces of `split(' ')` with single spaces gives back the text, for every text |
| Wrapping.SplitStep | index.js:228-237 | one iteration of the corrected splitting loop either takes one more character or shortens the remaining part, so the loop ends |
| Wrapping.SplitRunPieces | index.js:226-242 | the splitting loop keeps the lines already emitted; the pieces it adds are non-empty, concatenate to the word in order, and each fits or is one character too wide on its own |
| Wrapping.SplitWordPieces | index.js:224-245 | a word cut by the splitting loop is given back by concatenating its pieces, and each piece fits or is a single character of the word |
| Wrapping.SplitRun | index.js:226-242 | the splitting loop, run to the end, keeps the lines it started with and adds only non-empty ones |
| Wrapping.AddWord | index.js:205-246 | one word of the word loop never revises a finished line and adds only non-empty ones |
| Wrapping.WrapWords | index.js:204-247 | the word loop finishes only non-empty lines |
| Wrapping.Wrap | index.js:199-255 | no line `wrapTextIntoLines` returns is empty |
| Wrapping.WrapTextIntoLines | index.js:199-255 | the loops compute `Wrap`, and every line returned is non-empty and within `maxWidth` unless it is one character of the text too wide on its own |
| Wrapping.WrapWordsOk | index.js:204-247 | across the word loop, finished lines are acceptable for the text and the line being built fits |
| Wrapping.WrapLinesOk | index.js:199-255 | every line of `Wrap` is non-empty and fits, or is a single character of the text that is too wide alone |
| Wrapping.WrapLinesFit | index.js:222-242 | when every character fits on its own, every line fits |
| Wrapping.WrapEmpty | index.js:202-252 | the empty text wraps to no lines, whatever the width |
| Wrapping.WrapWordsJoin | index.js:204-247 | with non-empty words that each fit, the lines so far, joined with spaces, are the words so far joined with spaces |
| Wrapping.WrapRoundTrip | index.js:199-255 | when the text splits into non-empty words that each fit, joining the lines with single spaces gives back the text |
| Wrapping.AsWrittenStalls | index.js:228-237 | as written, when the first character of the remaining part does not fit, every iteration pushes an empty line and leaves the part unchanged, forever |
| Wrapping.SplitStepAsWritten | index.js:229-236 | one iteration as written keeps the lines pushed so far; it shortens the remaining part, or takes one more character, or else pushes an empty line and leaves the part as it was |
| Wrapping.IterateAsWritten | index.js:228-237 | any number of iterations as written keep the lines pushed so far and never lengthen the remaining part |
| Wrapping.AsWrittenAgrees | index.js:226-244 | whenever the loop as written exits, its lines followed by the push of the non-empty remainder are what the corrected loop returns |
| Wrapping.SplitStepAgrees | index.js:228-237 | outside that stall, the corrected step is the step as written |
| TableModel.CellText | index.js:97 | the text wrapped for a cell is the bare string, or the object's `text`, which is non-empty for every drawable cell |
| TableModel.FontSizeFallback | index.js:99 | a bare string, a missing size or a size of 0 falls back to the table's `fontSize`, and a non-zero table size never gives 0 |
| TableModel.BorderWidthOf | index.js:143 | a cell's `borderWidth` is used whenever it is given, 0 included; otherwise the table's |
| TableModel.BackgroundOf | index.js:144 | a cell's rectangle colour is its `backgroundColor`, or white |
| TableModel.ForegroundOf | index.js:175 | a cell's text colour is its `foregroundColor`, or black |
| TableModel.FontOf | index.js:176 | cell text is drawn in the bold font exactly when the cell is an object with `bold` set, and never in the page's own font |
| TableModel.Centered | index.js:164 | only an object cell can be centred; a bare string is left-aligned |
| TableModel.ResolveOptions | index.js:13-30 | each option given is used as given, even 0; each one left out takes its default (margins 10/50/50/50, font size 14, `startPosY` 0, header height 20, border width 1, padding 5 on each side) |
| TableModel.TableFrame | index.js:43-50 | the table spans from the left margin to the page width less the right margin; the header band ends at `startPosY` less the top margin, and the rows start `headerHeight` below that, or there when there are no headers |
| TableModel.ColumnWidth | index.js:118 | `count` columns of this width make up the usable width |
| TableModel.ColumnX | index.js:131 | the columns from column `i` on fill the rest of the usable width |
| TableModel.ContentWidth | index.js:98 | the wrap width plus the left and right padding is the column width |
| TableModel.HeaderCellCommands | index.js:67-84 | a header cell is a filled rectangle at the band's bottom and its label, inset by the left padding and centred vertically in the band for a text 10 high |
| TableModel.LinesHeight | index.js:101 | a cell with no lines is as tall as its vertical padding |
| TableModel.PaginateRow | index.js:119-184 | one row of the draw loop adds exactly one top and appends at most one page |
| TableModel.LineCommand | index.js:171-177 | line `k` of a cell is a text of that line on the row's page, in the cell's size, colour and font |
| TableModel.LineCommands | index.js:151-179 | the line loop issues one command per line |
| TableModel.CellCommands | index.js:137-179 | a cell is its rectangle followed by one command per line |
| TableModel.MaxHeight | index.js:94-105 | the running maximum of the pre-pass is non-negative and at least every cell height |
| TableModel.Paginate | index.js:115-184 | the draw loop records one top per row, and never removes pages |
| TableDrawing.Document.AddPage | index.js:37-40 | `addPage()` appends one page of the given size, leaves the log alone, and returns its index |
| TableDrawing.Document.DrawRectangle | index.js:137-146 | a rectangle call appends exactly that rectangle to the log |
| TableDrawing.Document.DrawText | index.js:171-177 | a text call appends exactly that text to the log |
| TableDrawing.DrawHeaders | index.js:57-85 | the header loop appends, for each header in order, its filled rectangle and its label |
| TableDrawing.ComputeRowHeights | index.js:88-109 | the pre-pass yields one height per row, the height of the row's wrapped cells, and (as a ghost) what each cell wraps to |
| TableDrawing.MaxCellHeight | index.js:92-108 | the inner loop yields the running maximum of the row's cell heights over the lines each cell wraps to |
| TableDrawing.CellHeight | index.js:97-101 | a cell's height is its wrapped line count times its font size plus the top and bottom padding |
| TableDrawing.MaxHeightSnoc | index.js:103-105 | one more cell raises the running maximum to its height exactly when it is taller |
| TableDrawing.DrawCell | index.js:130-179 | a cell appends its rectangle and then its lines, wrapped again to the same lines as in the pre-pass |
| TableDrawing.DrawLines | index.js:151-179 | the line loop appends one text per wrapped line, in order |
| TableDrawing.DrawRow | index.js:129-180 | the cell loop appends the commands of every cell of the row, in order, on the current page |
| TableDrawing.DrawRowAt | index.js:116-183 | one iteration of the draw loop appends a page exactly when the row overflows, draws the row at its top, and moves the cursor below it |
| TableDrawing.DrawRows | index.js:112-187 | the draw loop appends the pages and commands of the pagination of the row heights, and ends at its cursor |
| TableDrawing.DrawLaidOut | index.js:53-187 | with the geometry fixed, the header band, the pre-pass and the draw loop append exactly the table's commands and pages and return where the table ends |
| TableDrawing.DrawTable | index.js:11-188 | with the options resolved against their defaults, `drawTable` appends the header band and every row to the log and the pages its pagination needs to the document. It returns the last page and `endY`, both on a page the document has |
| TableDrawing.ComputedLayout | index.js:88-109 | lines and heights that match every cell's wrap and every row's height are the table's `TableLines` and `RowHeights` |
| PaginationProperties.PaginatePrefix | index.js:115-184 | where the first rows go does not depend on the rows after them |
| PaginationProperties.PaginateTop | index.js:119-126 | row `i` is drawn where the cursor after the first `i` rows puts it |
| PaginationProperties.RowTopAt | index.js:122-126 | a row is drawn at the cursor exactly when it ends at or above the bottom margin there, and otherwise at the top margin of the page about to be appended; never on an earlier page than the cursor |
| PaginationProperties.PaginateBounds | index.js:122-126 | starting on an existing page, the cursor stays on an existing page, at most one page is appended per row, and the cursor ends below the last row |
| PaginationProperties.PaginateStacks | index.js:115-184 | each row is drawn right below the previous one (or at the start) if it fits there; otherwise it is drawn at the top margin of an appended page that comes after every page used so far |
| PaginationProperties.PaginateNoBlankPages | index.js:122-126 | every page the table appends starts with a row at its top margin |
| PaginationProperties.PaginateWithinMargins | index.js:122-126 | when every row fits between the margins of an empty page, no row ends below the bottom margin |
| PaginationProperties.PaginatePages | index.js:122-126 | the page count only grows as rows are drawn |
| PaginationProperties.DefaultFirstRowOnNewPage | index.js:49-54 | with the default options, the first row of any non-negative height goes to the top margin of a new page, so the document grows |
| PaginationProperties.EmptyTable | tests/pdf_page_methods.test.js:83-94 | without rows, only the header band is drawn, no page is appended, and the table ends right below the header band |
| LayoutProperties.ResolveOptionsGiven | index.js:13-30 | options given in full are used as given; with none given, the documented defaults apply |
| LayoutProperties.ColumnsTile | index.js:118-131 | the columns of a row start at the left margin, each starts where the previous one ends, and the last ends at the right margin |
| LayoutProperties.HeaderCommandsLayout | index.js:57-85 | the header band is one filled rectangle and one label per header, on the table's first page, each label inset by the left padding |
| LayoutProperties.MaxHeightAttained | index.js:94-105 | the running maximum is one of the heights unless it stayed at 0 |
| LayoutProperties.RowHeightTallestCell | index.js:91-109 | a row is as tall as its tallest cell: no cell is taller, and one cell has that height unless none is taller than 0 |
| LayoutProperties.MaxHeightMonotone | index.js:103-105 | raising any cell's height never lowers the running maximum |
| LayoutProperties.RowHeightMonotone | index.js:101-105 | a row is at least as tall when any of its cells wraps to more lines |
| LayoutProperties.LineCommandsPlaced | index.js:151-179 | a cell's lines are drawn in order, one font size apart, each at the cell's font size, inside the cell's padded area when the cell is tall enough |
| LayoutProperties.LineInRow | index.js:154-161 | when `n` lines fit the row height, the baseline of line `k`, raised by a fifth of the font height, lies between the bottom padding and one font size below the top padding |
| LayoutProperties.LineSpacing | index.js:161 | consecutive lines are one font size apart |
| LayoutProperties.LineCommandPosition | index.js:154-168 | line `k`'s baseline is `k + 1` font sizes below the top padding, raised by a fifth of the font height; it is left-aligned at the left padding, or, when centred, its middle is at the middle of a band of the content width starting at the cell's left edge |
| LayoutProperties.LineCommandsAt | index.js:151-179 | the line loop draws line `k` as line command `k`, for every `k` |
| LayoutProperties.CellCommandsLines | index.js:130-179 | after its rectangle, a cell draws line `k` as line command `k` at its column and the row's bottom |
| LayoutProperties.CellRectangle | index.js:137-146 | a cell's rectangle is in its column on the row's page, spans the row from its bottom to its top, and is never filled; its colour is the cell's background and its border black, of the cell's border width |
| LayoutProperties.CellCommandsInRow | index.js:130-179 | a cell's rectangle spans the row and its lines lie inside it when the row is tall enough for them |
| LayoutProperties.RowCommandsWithin | index.js:129-180 | every command of a row lies in the row when the row is tall enough for each cell's lines |
| LayoutProperties.RowCommandsInRow | index.js:115-184 | a row drawn at the height its cells' lines give it, which the pre-pass computes, has every rectangle spanning it and every line inside its cell |
| LayoutProperties.RowCommandsOnPage | index.js:129-180 | every command of a row is on the row's page |
| LayoutProperties.LineCommandsOnPage | index.js:171-177 | every line of a cell is drawn on the cell's page |
| LayoutProperties.RowsCommandsOnPages | index.js:115-184 | rows drawn at tops on existing pages have all their commands on those pages |
| LayoutProperties.NewPagesLength | index.js:37-40 | appending `n` pages adds exactly `n` pages of the given size |
| LayoutProperties.TableCommandsOnPages | index.js:11-188 | starting on an existing page, every command the table draws is on a page the document has once the appended pages are added |

## Left out

- Font embedding (index.js:33-34) is asynchronous pdf-lib work. The font is a parameter, and its metrics are arbitrary functions.
- Both passes measure with the regular font, also for bold cells (index.js:99, 149, 157). The model does the same, so it has one `Font`. Which font a line is drawn with is recorded in the command.
- pdf-lib itself is not modelled. This covers the page objects, the size `addPage()` gives a new page, `rgb`, and the saved bytes. Pages are page sizes, `lastPage` is a page index, the new page size is a parameter of `DrawTable`, and colours are recorded as given.
- Attaching the function to `PDFPage.prototype` (index.js:11) is not modelled.
- `marginTopAdjusted` (index.js:46) is computed and never used, so it is not modelled.
- Numbers are reals. Floating-point rounding is not modelled.
- JavaScript truthiness is modelled only for a missing or zero `fontSize` and a missing colour or border width. `NaN` sizes, colour arrays of other lengths and partially given `margin` or `cellPadding` objects are not modelled.
- A cell must be a string or an object with non-empty `text`. Otherwise `row[j].text || row[j]` is not a string and the source throws. `DrawTable` requires `HasText` of every cell rather than modelling the exception.
- Wrapping.WrapTextIntoLines: where the source's splitting loop never exits (a word whose first remaining character alone is wider than `maxWidth`), the model returns lines with that character on a line of its own. The same goes for `Wrap`, `CellLines`, `CellHeight`, `DrawCell` and `DrawTable`, which use it. Where the source's loop exits, `AsWrittenAgrees` proves the two loops give the same lines.
- Strings are sequences of Unicode characters. JavaScript's `split`, `slice` and `length` (index.js:202, 229-234) count UTF-16 code units, so the source can cut a character outside the Basic Multilingual Plane between its two surrogates. The model cannot.
- The font's `widthOfTextAtSize` is a total function. The embedded font can throw on text it cannot encode (index.js:157, 206, 209, 229). That error is not modelled.
- A row with no cells divides by zero for its column width, but never uses the result. The model draws nothing for it and gives it height 0, as the source does.
- DrawTable: the lines each cell wraps to and the row heights are returned as ghost values. The contract states them per cell and per row. `ComputedLayout` turns them into `TableLines` and `RowHeights`, which the property lemmas use.
- LineCommandsPlaced: assumes a non-negative font size, which the source does not check.
- LineInRow: assumes a non-negative font size, which the source does not check.
- CellCommandsInRow: assumes a non-negative font size, which the source does not check.
- RowCommandsWithin: assumes non-negative font sizes, which the source does not check.
- RowCommandsInRow: assumes non-negative font sizes, which the source does not check.
- RowHeightMonotone: assumes non-negative font sizes, which the source does not check.
- PaginateWithinMargins: assumes every row fits between the margins of an empty page. The source does not check this, and a taller row still crosses the bottom margin.
- The test file is not modelled beyond the empty-table scenario (`EmptyTable`). Its other scenarios appear as `DefaultFirstRowOnNewPage` (pages are created), `ColumnsTile` (rows with different cell counts) and the centring in `LineCommand`.

## Findings

| source | as written | input that shows it | evidently intended | confidence | as-written member | corrected member |
|---|---|---|---|---|---|---|
| index.js:228-237 | when the prefix of `startIndex + 1` characters does not fit and `startIndex` is 0, the loop pushes `wordPart.slice(0, 0)` (an empty line), leaves `wordPart` unchanged and resets `startIndex` to 0, so it never exits | any cell text with a non-empty word whose first character alone is wider than `maxWidth`, e.g. any such text when `maxWidth` is 0 or negative (narrow columns, large padding); a text made only of spaces never enters the loop | the first character goes on a line of its own and the loop continues with the rest, so every iteration advances | high (not executed) | Wrapping.AsWrittenStalls | Wrapping.SplitRunPieces |
