/** What each piece of painter output does to a terminal. */
module Painting {
  import opened Attributes
  import opened Cells
  import opened Screens
  import opened Painter

  /** The painter draws on terminals with the default margins and origin. */
  predicate Surface(t: Screen) {
    && WellFormed(t)
    && t.grid.top == 0 && t.grid.bottom == t.grid.height - 1
    && !t.grid.origin
  }

  function Moved(t: Screen, pos: Pos): Screen {
    t.(grid := t.grid.(pos := pos))
  }

  function WithCells(t: Screen, row: nat, cells: seq<Cell>): Screen
    requires row < |t.grid.rows|
  {
    t.(grid := t.grid.(rows := t.grid.rows[row := t.grid.rows[row].(cells := cells)]))
  }

  /** The last column belongs to a drawn character. */
  predicate EndDrawn(row: Row) {
    row.cells != [] && (row.cells[|row.cells| - 1].contents != [] || row.cells[|row.cells| - 1].continuation)
  }

  /** A wrapped row ends in a drawn character. */
  predicate FlagFits(row: Row) {
    row.wrapped ==> EndDrawn(row)
  }

  lemma RunOne(t: Screen, c: Command)
    requires WellFormed(t)
    ensures Run(t, [c]) == Exec(t, c)
  {
    hide Exec;
    assert [c][1..] == [];
  }

  lemma RunCons(t: Screen, c: Command, rest: seq<Command>)
    requires WellFormed(t)
    ensures Run(t, [c] + rest) == Run(Exec(t, c), rest)
  {
    hide Exec;
    assert ([c] + rest)[1..] == rest;
  }

  lemma ReturnEffect(t: Screen)
    requires WellFormed(t)
    ensures Exec(t, CarriageReturn) == Moved(t, Pos(t.grid.pos.row, 0))
  {
    hide ExecEditing, Text, SwitchMode, EraseDisplay, EraseLine, EraseCells, Rendered, ValidRows;
  }

  lemma FeedEffect(t: Screen)
    requires Surface(t) && t.grid.pos.row + 1 < t.grid.height
    ensures Exec(t, LineFeed) == Moved(t, Pos(t.grid.pos.row + 1, t.grid.pos.col))
  {
    hide ExecEditing, Text, SwitchMode, EraseDisplay, EraseLine, EraseCells, Rendered, ValidRows;
  }

  lemma ForwardEffect(t: Screen, n: nat)
    requires WellFormed(t) && t.grid.pos.col + n < t.grid.cols
    ensures Exec(t, CursorForward(n)) == Moved(t, Pos(t.grid.pos.row, t.grid.pos.col + n))
  {
    hide ExecEditing, Text, SwitchMode, EraseDisplay, EraseLine, EraseCells, Rendered, ValidRows;
  }

  lemma MoveToEffect(t: Screen, to: Pos)
    requires Surface(t) && to.row < t.grid.height && to.col < t.grid.cols
    ensures Exec(t, MoveTo(to.row, to.col)) == Moved(t, to)
  {
    hide ExecEditing, Text, SwitchMode, EraseDisplay, EraseLine, EraseCells, Rendered, ValidRows;
  }

  lemma MoveEffect(t: Screen, to: Pos)
    requires Surface(t) && to.row < t.grid.height
    requires to.col < t.grid.cols || to == t.grid.pos
    ensures Run(t, MoveFromTo(t.grid.pos, to)) == Moved(t, to)
  {
    hide Exec;
    var from := t.grid.pos;
    if to.row == from.row + 1 && to.col == 0 {
      assert [CarriageReturn, LineFeed] == [CarriageReturn] + [LineFeed];
      RunCons(t, CarriageReturn, [LineFeed]);
      ReturnEffect(t);
      var start := Moved(t, Pos(from.row, 0));
      RunOne(start, LineFeed);
      FeedEffect(start);
    } else if from.row == to.row && from.col < to.col {
      RunOne(t, CursorForward(to.col - from.col));
      ForwardEffect(t, to.col - from.col);
    } else if to != from {
      RunOne(t, MoveTo(to.row, to.col));
      MoveToEffect(t, to);
    }
  }

  lemma RestyleEffect(t: Screen, target: Attrs)
    requires WellFormed(t) && target.WellFormed()
    ensures Run(t, Restyle(target, t.attrs)) == t.(attrs := target)
  {
    hide ExecDrawing, SwitchMode, ValidRows, Sgr, Difference;
    SgrRoundTrip(target, t.attrs);
    match Difference(target, t.attrs)
    case None =>
    case Some(params) => RunOne(t, Rendition(params));
  }

  // ------------------------------------------------------------- drawing a cell

  function Partial(cell: Cell, k: nat): Cell
    requires k <= |cell.contents|
  {
    cell.(contents := cell.contents[..k])
  }

  lemma MarkEffect(t: Screen, c: Scalar)
    requires WellFormed(t) && IsMark(c) && t.grid.pos.col > 0
    ensures ValidRow(t.grid.rows[t.grid.pos.row], t.grid.cols)
    ensures
      var cells := t.grid.rows[t.grid.pos.row].cells;
      var at := MarkColumn(cells, t.grid.pos.col);
      Exec(t, Print(c)) == WithCells(t, t.grid.pos.row, cells[at := Append(cells[at], c)])
  {
    hide ExecEditing, SwitchMode, EraseDisplay, EraseLine, EraseCells, Rendered;
    assert ValidRow(t.grid.rows[t.grid.pos.row], t.grid.cols);
    assert Text(t.grid, c, t.attrs) == AttachMark(t.grid, c);
  }

  /** The cursor sits just after a partly drawn cell. */
  predicate Drawing(t: Screen, cell: Cell, at: nat, k: nat) {
    && ValidCell(cell) && 1 <= k <= |cell.contents|
    && t.grid.pos.row < |t.grid.rows|
    && t.grid.pos.col == at + CellWidth(cell) <= |t.grid.rows[t.grid.pos.row].cells|
    && t.grid.rows[t.grid.pos.row].cells[at] == Partial(cell, k)
    && (cell.wide ==> t.grid.rows[t.grid.pos.row].cells[at + 1].continuation)
  }

  function CellSet(t: Screen, at: nat, cell: Cell): Screen
    requires t.grid.pos.row < |t.grid.rows| && at < |t.grid.rows[t.grid.pos.row].cells|
  {
    WithCells(t, t.grid.pos.row, t.grid.rows[t.grid.pos.row].cells[at := cell])
  }

  lemma PartialGrows(cell: Cell, k: nat)
    requires ValidCell(cell) && 1 <= k < |cell.contents|
    ensures IsMark(cell.contents[k])
    ensures Append(Partial(cell, k), cell.contents[k]) == Partial(cell, k + 1)
  {
    assert ByteLength(cell.contents[..k]) < CONTENT_BYTES - 4;
    assert cell.contents[..k] + [cell.contents[k]] == cell.contents[..k + 1];
  }

  lemma MarkStep(t: Screen, cell: Cell, at: nat, k: nat)
    requires WellFormed(t) && Drawing(t, cell, at, k) && k < |cell.contents|
    ensures Exec(t, Print(cell.contents[k])) == CellSet(t, at, Partial(cell, k + 1))
    ensures Drawing(CellSet(t, at, Partial(cell, k + 1)), cell, at, k + 1)
  {
    hide Exec;
    PartialGrows(cell, k);
    MarkEffect(t, cell.contents[k]);
    assert MarkColumn(t.grid.rows[t.grid.pos.row].cells, t.grid.pos.col) == at;
  }

  lemma CellSetTwice(t: Screen, at: nat, a: Cell, b: Cell)
    requires t.grid.pos.row < |t.grid.rows| && at < |t.grid.rows[t.grid.pos.row].cells|
    ensures CellSet(CellSet(t, at, a), at, b) == CellSet(t, at, b)
  {
    var cells := t.grid.rows[t.grid.pos.row].cells;
    assert cells[at := a][at := b] == cells[at := b];
    assert CellSet(CellSet(t, at, a), at, b).grid.rows == CellSet(t, at, b).grid.rows;
  }

  lemma CellSetSame(t: Screen, at: nat)
    requires t.grid.pos.row < |t.grid.rows| && at < |t.grid.rows[t.grid.pos.row].cells|
    ensures CellSet(t, at, t.grid.rows[t.grid.pos.row].cells[at]) == t
  {
    var row := t.grid.rows[t.grid.pos.row];
    assert row.cells[at := row.cells[at]] == row.cells;
    assert t.grid.rows[t.grid.pos.row := row] == t.grid.rows;
  }

  /** Marks drawn one after another rebuild the rest of the cell. */
  lemma {:induction false} MarksEffect(t: Screen, cell: Cell, at: nat, k: nat)
    requires WellFormed(t) && Drawing(t, cell, at, k)
    ensures Run(t, Scalars(cell.contents)[k..]) == CellSet(t, at, cell)
    decreases |cell.contents| - k
  {
    hide Exec;
    if k == |cell.contents| {
      assert Partial(cell, k) == cell;
      CellSetSame(t, at);
    } else {
      MarkStep(t, cell, at, k);
      var rest := Scalars(cell.contents)[k + 1..];
      assert Scalars(cell.contents)[k..] == [Print(cell.contents[k])] + rest;
      RunCons(t, Print(cell.contents[k]), rest);
      MarksEffect(CellSet(t, at, Partial(cell, k + 1)), cell, at, k + 1);
      CellSetTwice(t, at, Partial(cell, k + 1), cell);
    }
  }

  /** The row after drawing only the base scalar of `cell`. */
  function BaseInked(row: Row, at: nat, cell: Cell): (r: Row)
    requires cell.contents != [] && at + CellWidth(cell) <= |row.cells| && ValidRow(row, |row.cells|)
    ensures |r.cells| == |row.cells| && r.cells[at] == Drawn(cell.contents[0], cell.attrs)
    ensures cell.wide ==> r.cells[at + 1] == CONTINUATION
  {
    if cell.wide then PutWide(row, at, cell.contents[0], cell.attrs)
    else row.(cells := PutNarrow(row.cells, at, cell.contents[0], cell.attrs))
  }

  /** A row of cells after drawing `cell` at column `at`. */
  function Inked(row: Row, at: nat, cell: Cell): (r: Row)
    requires cell.contents != [] && at + CellWidth(cell) <= |row.cells| && ValidRow(row, |row.cells|)
    ensures |r.cells| == |row.cells|
  {
    var base := BaseInked(row, at, cell);
    base.(cells := base.cells[at := cell])
  }

  /** The terminal after its current row became `row` and its cursor moved to `col`. */
  function Rewritten(t: Screen, row: Row, col: nat): Screen
    requires t.grid.pos.row < |t.grid.rows|
  {
    t.(grid := t.grid.(rows := t.grid.rows[t.grid.pos.row := row], pos := Pos(t.grid.pos.row, col)))
  }

  lemma RewrittenCell(t: Screen, row: Row, col: nat, at: nat, cell: Cell)
    requires t.grid.pos.row < |t.grid.rows| && at < |row.cells|
    ensures CellSet(Rewritten(t, row, col), at, cell) == Rewritten(t, row.(cells := row.cells[at := cell]), col)
  {
    var i := t.grid.pos.row;
    assert t.grid.rows[i := row][i := row.(cells := row.cells[at := cell])]
      == t.grid.rows[i := row.(cells := row.cells[at := cell])];
  }

  lemma BaseEffect(t: Screen, cell: Cell)
    requires WellFormed(t) && ValidCell(cell) && cell.contents != [] && t.attrs == cell.attrs
    requires t.grid.pos.col + CellWidth(cell) <= t.grid.cols
    ensures ValidRow(t.grid.rows[t.grid.pos.row], t.grid.cols)
    ensures
      var next := Rewritten(t, BaseInked(t.grid.rows[t.grid.pos.row], t.grid.pos.col, cell),
                            t.grid.pos.col + CellWidth(cell));
      Exec(t, Print(cell.contents[0])) == next && Drawing(next, cell, t.grid.pos.col, 1)
  {
    hide ExecEditing, SwitchMode, EraseDisplay, EraseLine, EraseCells, Rendered;
    var c := cell.contents[0];
    assert ValidRow(t.grid.rows[t.grid.pos.row], t.grid.cols);
    assert IsBase(c) && Columns(c) == CellWidth(cell);
    assert Text(t.grid, c, t.attrs) == DrawBase(t.grid, c, t.attrs);
    assert cell.contents[..1] == [c];
    assert Partial(cell, 1) == Drawn(c, cell.attrs);
  }

  lemma DrawEffect(t: Screen, cell: Cell)
    requires WellFormed(t) && ValidCell(cell) && cell.contents != [] && t.attrs == cell.attrs
    requires t.grid.pos.col + CellWidth(cell) <= t.grid.cols
    ensures ValidRow(t.grid.rows[t.grid.pos.row], t.grid.cols)
    ensures Run(t, Scalars(cell.contents))
            == Rewritten(t, Inked(t.grid.rows[t.grid.pos.row], t.grid.pos.col, cell), t.grid.pos.col + CellWidth(cell))
  {
    hide Exec, Run, PutWide, PutNarrow, ValidCell, Paired;

    BaseEffect(t, cell);
    var at, line := t.grid.pos.col, t.grid.rows[t.grid.pos.row];
    var next := Rewritten(t, BaseInked(line, at, cell), at + CellWidth(cell));
    var rest := Scalars(cell.contents)[1..];
    assert Scalars(cell.contents) == [Print(cell.contents[0])] + rest;
    RunCons(t, Print(cell.contents[0]), rest);
    MarksEffect(next, cell, at, 1);
    RewrittenCell(t, BaseInked(line, at, cell), at + CellWidth(cell), at, cell);
  }
}
