/** Compiling a screen, or a pair of screens, into drawing commands
    (`src/vt100/term.rs`, the writers of `src/vt100/row.rs`, `src/vt100/grid.rs`
    and `src/vt100/screen.rs`).  The output is the command sequence the bytes
    stand for. */
module Painter {
  import opened Wrappers
  import opened Attributes
  import opened Cells
  import opened Screens

  /** What has been written, and where the writer believes the terminal's cursor
      and drawing attributes are. */
  datatype Pen = Pen(out: seq<Command>, pos: Pos, attrs: Attrs)

  function MoveFromTo(from: Pos, to: Pos): seq<Command> {
    if to.row == from.row + 1 && to.col == 0 then [CarriageReturn, LineFeed]
    else if from.row == to.row && from.col < to.col then [CursorForward(to.col - from.col)]
    else if to != from then [MoveTo(to.row, to.col)]
    else []
  }

  function Restyle(target: Attrs, from: Attrs): seq<Command>
    requires target.WellFormed()
  {
    match Difference(target, from)
    case None => []
    case Some(params) => [Rendition(params)]
  }

  function Scalars(contents: seq<Scalar>): (out: seq<Command>)
    ensures |out| == |contents|
  {
    seq(|contents|, i requires 0 <= i < |contents| => Print(contents[i]))
  }

  function Spaces(n: nat): seq<Command> {
    seq(n, _ => Print(SPACE))
  }

  function EraseCount(n: nat): seq<Command> {
    if n == 0 then [] else [EraseCharacter(n)]
  }

  function CellWidth(cell: Cell): nat {
    if cell.wide then 2 else 1
  }

  /** A run of cells to erase, found but not yet written. */
  datatype Pending = Pending(col: nat, attrs: Attrs)

  datatype RowPainter = RowPainter(pen: Pen, erase: Option<Pending>, skip: bool)

  /** Reaching the start of a pending erase.  After the end of a soft-wrapped row
      the writer draws spaces to be carried over to this row. */
  function ReachErase(pen: Pen, to: Pos, wrapping: bool, cols: nat): seq<Command> {
    if wrapping && pen.pos.row + 1 == to.row && pen.pos.col >= cols then
      if to.col > 0 then Spaces(to.col) else [Print(SPACE), Backspace]
    else MoveFromTo(pen.pos, to)
  }

  function Flush(pen: Pen, pending: Pending, row: nat, wrapping: bool, cols: nat, erase: seq<Command>): (r: Pen)
    requires pending.attrs.WellFormed()
    ensures r.attrs.WellFormed()
  {
    var to := Pos(row, pending.col);
    Pen(pen.out + ReachErase(pen, to, wrapping, cols) + Restyle(pending.attrs, pen.attrs) + erase, to, pending.attrs)
  }

  /** Drawing one cell; at the start of a row that continues a soft-wrapped one
      the cursor is left past the end so that the character itself wraps. */
  function DrawCell(pen: Pen, cell: Cell, at: Pos, wrapping: bool, cols: nat): (r: Pen)
    requires cell.attrs.WellFormed()
    ensures r.attrs.WellFormed()
  {
    var carried := wrapping && pen.pos.row + 1 == at.row && pen.pos.col + (if cell.wide then 1 else 0) >= cols
      && at.col == 0;
    Pen(pen.out + (if at == pen.pos || carried then [] else MoveFromTo(pen.pos, at))
        + Restyle(cell.attrs, pen.attrs) + Scalars(cell.contents),
        Pos(at.row, at.col + CellWidth(cell)), cell.attrs)
  }

  predicate EndsErase(cell: Cell, pending: Pending) {
    cell.contents != [] || cell.attrs != pending.attrs
  }

  predicate PainterReady(p: RowPainter, k: nat) {
    && p.pen.attrs.WellFormed()
    && (p.erase.Some? ==> p.erase.value.attrs.WellFormed() && p.erase.value.col <= k)
  }

  /** One iteration of the writers' loop over the columns of a row. */
  function PaintCell(p: RowPainter, cell: Cell, shown: Cell, at: Pos, wrapping: bool, cols: nat): (r: RowPainter)
    requires cell.attrs.WellFormed() && PainterReady(p, at.col)
    ensures PainterReady(r, at.col)
  {
    if p.skip then p.(skip := false)
    else
      var ends := p.erase.Some? && EndsErase(cell, p.erase.value);
      var pen := if ends then
        Flush(p.pen, p.erase.value, at.row, wrapping, cols, EraseCount(at.col - p.erase.value.col)) else p.pen;
      var erase := if ends then None else p.erase;
      if cell == shown then RowPainter(pen, erase, cell.wide)
      else if cell.contents != [] then RowPainter(DrawCell(pen, cell, at, wrapping, cols), erase, cell.wide)
      else RowPainter(pen, if erase.None? then Some(Pending(at.col, cell.attrs)) else erase, cell.wide)
  }

  /** Columns `k` onwards, for a terminal showing `shown` where `cells` is wanted. */
  function PaintCells(p: RowPainter, cells: seq<Cell>, shown: seq<Cell>, row: nat, k: nat, wrapping: bool)
    : (r: RowPainter)
    requires |cells| == |shown| && k <= |cells| && ValidCells(cells, |cells|) && PainterReady(p, k)
    ensures PainterReady(r, |cells|)
    decreases |cells| - k
  {
    if k == |cells| then p
    else
      assert ValidCell(cells[k]);
      PaintCells(PaintCell(p, cells[k], shown[k], Pos(row, k), wrapping, |cells|), cells, shown, row, k + 1, wrapping)
  }

  /** The loop over a row and the final erase to its end. */
  function PaintColumns(pen: Pen, cells: seq<Cell>, shown: seq<Cell>, row: nat, wrapping: bool): (r: Pen)
    requires |cells| == |shown| && ValidCells(cells, |cells|) && pen.attrs.WellFormed()
    ensures r.attrs.WellFormed()
  {
    var p := PaintCells(RowPainter(pen, None, false), cells, shown, row, 0, wrapping);
    if p.erase.Some? then Flush(p.pen, p.erase.value, row, wrapping, |cells|, [EraseInLine(0)]) else p.pen
  }

  /** Redrawing an unchanged first cell so that the row above becomes wrapped. */
  function RedrawFirst(pen: Pen, cell: Cell, row: nat): (r: Pen)
    requires cell.attrs.WellFormed()
    ensures r.attrs.WellFormed()
  {
    Pen(pen.out + Restyle(cell.attrs, pen.attrs)
        + (if cell.contents == [] then [Print(SPACE)] else Scalars(cell.contents))
        + (if cell.wide then [Backspace, Backspace] else [Backspace])
        + (if cell.contents == [] then EraseCount(1) else []),
        Pos(row, 0), cell.attrs)
  }

  /** A row that starts or stops being wrapped has its last character redrawn. */
  function RedrawLast(pen: Pen, target: Row, row: nat): (r: Pen)
    requires |target.cells| >= 2 && ValidRow(target, |target.cells|) && pen.attrs.WellFormed()
    ensures r.attrs.WellFormed()
  {
    var cols := |target.cells|;
    var at := Pos(row, if target.cells[cols - 1].continuation then cols - 2 else cols - 1);
    var cell := target.cells[at.col];
    assert ValidCell(cell);
    var out := pen.out + MoveFromTo(pen.pos, at) + (if target.wrapped then [] else EraseCount(1));
    if cell.contents == [] then Pen(out, at, pen.attrs)
    else Pen(out + Restyle(cell.attrs, pen.attrs) + Scalars(cell.contents), Pos(row, at.col + CellWidth(cell)),
             cell.attrs)
  }

  /** `Row::write_contents_diff` over the whole width. */
  function PaintRow(pen: Pen, target: Row, shown: Row, row: nat, wrapping: bool, wasWrapping: bool): (r: Pen)
    requires |target.cells| == |shown.cells| >= 2 && ValidRow(target, |target.cells|) && pen.attrs.WellFormed()
    ensures r.attrs.WellFormed()
  {
    var cols := |target.cells|;
    assert ValidCell(target.cells[0]);
    var redraw := wrapping && !wasWrapping && target.cells[0] == shown.cells[0] && pen.pos.row + 1 == row
      && pen.pos.col + (if shown.cells[0].wide then 1 else 0) >= cols;
    var started := if redraw then RedrawFirst(pen, target.cells[0], row) else pen;
    var painted := PaintColumns(started, target.cells, shown.cells, row, wrapping);
    if target.wrapped != shown.wrapped then RedrawLast(painted, target, row) else painted
  }

  function PaintRows(pen: Pen, target: seq<Row>, shown: seq<Row>, i: nat, cols: nat): (r: Pen)
    requires |target| == |shown| && i <= |target| && 2 <= cols && ValidRows(target, cols) && ValidRows(shown, cols)
    requires pen.attrs.WellFormed()
    ensures r.attrs.WellFormed()
    decreases |target| - i
  {
    if i == |target| then pen
    else
      assert ValidRow(target[i], cols) && ValidRow(shown[i], cols);
      PaintRows(PaintRow(pen, target[i], shown[i], i, i > 0 && target[i - 1].wrapped, i > 0 && shown[i - 1].wrapped),
                target, shown, i + 1, cols)
  }

  // ------------------------------------------------------------ final position

  /** The cell whose drawing leaves the cursor past the end of a row. */
  function LastGlyph(row: Row): (at: nat)
    requires |row.cells| >= 2
    ensures at < |row.cells|
  {
    if row.cells[|row.cells| - 1].continuation then |row.cells| - 2 else |row.cells| - 1
  }

  function Redraw(pen: Pen, cell: Cell, at: Pos): seq<Command>
    requires cell.attrs.WellFormed() && pen.attrs.WellFormed()
  {
    MoveFromTo(pen.pos, at) + Restyle(cell.attrs, pen.attrs) + Scalars(cell.contents) + Restyle(pen.attrs, cell.attrs)
  }

  /** Getting past the end of a row above, unless already there. */
  function PastEnd(pen: Pen, row: Row, i: nat): seq<Command>
    requires |row.cells| >= 2 && ValidRow(row, |row.cells|) && pen.attrs.WellFormed()
  {
    assert ValidCell(row.cells[LastGlyph(row)]);
    if pen.pos.row != i || pen.pos.col < |row.cells| then Redraw(pen, row.cells[LastGlyph(row)], Pos(i, LastGlyph(row)))
    else []
  }

  function Feeds(n: nat): seq<Command> {
    seq(n, _ => LineFeed)
  }

  /** The nearest row above `row` whose last character was drawn. */
  function DrawnRowAbove(g: Grid, row: nat): (r: Option<nat>)
    requires ValidGrid(g) && row <= g.height
    ensures r.Some? ==> r.value < row && g.rows[r.value].cells[LastGlyph(g.rows[r.value])].contents != []
  {
    if row == 0 then None
    else
      assert ValidRow(g.rows[row - 1], g.cols);
      if g.rows[row - 1].cells[LastGlyph(g.rows[row - 1])].contents != [] then Some(row - 1)
      else DrawnRowAbove(g, row - 1)
  }

  /** The commands that leave the cursor past the end of a blank last column. */
  function Corner(last: Attrs, attrs: Attrs): seq<Command>
    requires last.WellFormed()
  {
    [Print(SPACE)] + Restyle(last, attrs) + ([SaveCursor, Backspace] + EraseCount(1) + [RestoreCursor])
  }

  /** `write_cursor_position_formatted`: a cursor past the end of its row can only
      be reached by drawing. */
  function PlaceCursor(g: Grid, pen: Pen): seq<Command>
    requires ValidGrid(g) && pen.attrs.WellFormed()
  {
    if pen.pos == g.pos || g.pos.col < g.cols then MoveFromTo(pen.pos, g.pos)
    else
      assert ValidRow(g.rows[g.pos.row], g.cols);
      var row := g.rows[g.pos.row];
      var cell := row.cells[LastGlyph(row)];
      assert ValidCell(cell);
      if cell.contents != [] then Redraw(pen, cell, Pos(g.pos.row, LastGlyph(row)))
      else
        match DrawnRowAbove(g, g.pos.row)
        case Some(i) =>
          assert ValidRow(g.rows[i], g.cols);
          PastEnd(pen, g.rows[i], i) + Feeds(g.pos.row - i)
        case None =>
          var last := row.cells[g.cols - 1];
          assert ValidCell(last);
          MoveFromTo(pen.pos, Pos(g.pos.row, g.cols - 1)) + Corner(last.attrs, pen.attrs)
            + Restyle(pen.attrs, last.attrs)
  }

  // ------------------------------------------------------------ whole screens

  predicate SameSize(s: Screen, t: Screen) {
    SameShape(s.grid, t.grid)
  }

  function ReverseVideo(on: bool): Command {
    if on then SetMode(ReverseVideoMode) else ResetMode(ReverseVideoMode)
  }

  function HideCursor(on: bool): Command {
    if on then ResetMode(ShowCursorMode) else SetMode(ShowCursorMode)
  }

  function ApplicationCursor(on: bool): Command {
    if on then SetMode(ApplicationCursorMode) else ResetMode(ApplicationCursorMode)
  }

  function BracketedPaste(on: bool): Command {
    if on then SetMode(BracketedPasteMode) else ResetMode(BracketedPasteMode)
  }

  function MouseModeChange(target: MouseMode, shown: MouseMode): seq<Command> {
    if target == shown then []
    else if target == NoMouse then [ResetMode(MouseTracking(shown))]
    else [SetMode(MouseTracking(target))]
  }

  function MouseEncodingChange(target: MouseEncoding, shown: MouseEncoding): seq<Command> {
    if target == shown then []
    else if target == DefaultEncoding then [ResetMode(MouseReporting(shown))]
    else [SetMode(MouseReporting(target))]
  }

  function PaintedRows(target: Screen, shown: Screen): (r: Pen)
    requires WellFormed(target) && WellFormed(shown) && SameSize(target, shown)
    ensures r.attrs.WellFormed()
  {
    PaintRows(Pen([], shown.grid.pos, shown.attrs), target.grid.rows, shown.grid.rows, 0, target.grid.cols)
  }

  /** `Screen::write_contents_diff`. */
  function ContentsDiff(target: Screen, shown: Screen): seq<Command>
    requires WellFormed(target) && WellFormed(shown) && SameSize(target, shown)
  {
    var pen := PaintedRows(target, shown);
    (if target.reverseVideo != shown.reverseVideo then [ReverseVideo(target.reverseVideo)] else [])
    + ((if target.hideCursor != shown.hideCursor then [HideCursor(target.hideCursor)] else [])
    + (pen.out
    + (PlaceCursor(target.grid, pen)
    + Restyle(target.attrs, pen.attrs))))
  }

  /** `Screen::write_input_mode_diff`. */
  function InputModeDiff(target: Screen, shown: Screen): seq<Command> {
    (if target.keypad != shown.keypad then [Keypad(target.keypad)] else [])
    + ((if target.applicationCursor != shown.applicationCursor
        then [ApplicationCursor(target.applicationCursor)] else [])
    + ((if target.bracketedPaste != shown.bracketedPaste then [BracketedPaste(target.bracketedPaste)] else [])
    + (MouseModeChange(target.mouse, shown.mouse)
    + MouseEncodingChange(target.encoding, shown.encoding))))
  }

  /** `Screen::state_diff`. */
  function StateDiff(target: Screen, shown: Screen): seq<Command>
    requires WellFormed(target) && WellFormed(shown) && SameSize(target, shown)
  {
    ContentsDiff(target, shown) + InputModeDiff(target, shown)
  }

  // -------------------------------------------------------------- full repaint

  /** `Row::write_contents_formatted` over the whole width. */
  function FormatRow(pen: Pen, target: Row, row: nat, wrapping: bool): (r: Pen)
    requires |target.cells| >= 2 && ValidRow(target, |target.cells|) && pen.attrs.WellFormed()
    ensures r.attrs.WellFormed()
  {
    var started := if wrapping && target.cells[0] == EMPTY then RedrawFirst(pen, EMPTY, row) else pen;
    PaintColumns(started, target.cells, Blanks(|target.cells|, PLAIN), row, wrapping)
  }

  function FormatRows(pen: Pen, target: seq<Row>, i: nat, cols: nat): (r: Pen)
    requires i <= |target| && 2 <= cols && ValidRows(target, cols) && pen.attrs.WellFormed()
    ensures r.attrs.WellFormed()
    decreases |target| - i
  {
    if i == |target| then pen
    else
      assert ValidRow(target[i], cols);
      FormatRows(FormatRow(pen, target[i], i, i > 0 && target[i - 1].wrapped), target, i + 1, cols)
  }

  function FormattedRows(target: Screen): (r: Pen)
    requires WellFormed(target)
    ensures r.attrs.WellFormed()
  {
    FormatRows(Pen([], Pos(0, 0), PLAIN), target.grid.rows, 0, target.grid.cols)
  }

  /** `Screen::write_contents_formatted`. */
  function FullContents(target: Screen): seq<Command>
    requires WellFormed(target)
  {
    var pen := FormattedRows(target);
    [ReverseVideo(target.reverseVideo), HideCursor(target.hideCursor),
     Rendition([]), MoveTo(0, 0), EraseInDisplay(0)]
    + (pen.out
    + (PlaceCursor(target.grid, pen)
    + Restyle(target.attrs, pen.attrs)))
  }

  /** `Screen::write_input_mode_formatted`. */
  function FullInputModes(target: Screen): seq<Command> {
    [Keypad(target.keypad), ApplicationCursor(target.applicationCursor), BracketedPaste(target.bracketedPaste)]
    + (MouseModeChange(target.mouse, NoMouse)
    + MouseEncodingChange(target.encoding, DefaultEncoding))
  }

  /** `Screen::state_formatted`. */
  function StateFormatted(target: Screen): seq<Command>
    requires WellFormed(target)
  {
    FullContents(target) + FullInputModes(target)
  }
}
