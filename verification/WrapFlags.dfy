/** What every command keeps of the soft-wrap flags: a wrapped row ends in a drawn
    character, and the last row is never wrapped. */
module WrapFlags {
  import opened Attributes
  import opened Cells
  import opened Screens
  import opened Painting

  predicate FlagsFit(rows: seq<Row>) {
    && (forall i :: 0 <= i < |rows| ==> FlagFits(rows[i]))
    && (rows != [] ==> !rows[|rows| - 1].wrapped)
  }

  // ------------------------------------------------------------------------ one row

  /** An edit of a row: its flag may only be lost, or stays with a drawn end. */
  predicate Edited(row: Row, next: Row) {
    FlagFits(row) ==> FlagFits(next) && (next.wrapped ==> row.wrapped)
  }

  lemma EraseEdits(row: Row, from: nat, to: nat, attrs: Attrs)
    requires from <= to <= |row.cells| && attrs.WellFormed() && ValidRow(row, |row.cells|)
    ensures Edited(row, EraseRange(row, from, to, attrs))
  {
    hide ValidContents, Paired;
  }

  lemma NarrowEdits(row: Row, at: nat, c: Scalar, attrs: Attrs)
    requires at < |row.cells| && ValidRow(row, |row.cells|)
    ensures Edited(row, row.(cells := PutNarrow(row.cells, at, c, attrs)))
  {
    hide ValidContents;
    assert PairedAt(row.cells, at);
    assert PairedAt(row.cells, |row.cells| - 1);
  }

  lemma WideEdits(row: Row, at: nat, c: Scalar, attrs: Attrs)
    requires at + 1 < |row.cells| && ValidRow(row, |row.cells|)
    ensures Edited(row, PutWide(row, at, c, attrs))
  {
    hide ValidContents;
    assert PairedAt(row.cells, at) && PairedAt(row.cells, at + 1);
    assert PairedAt(row.cells, |row.cells| - 1);
  }

  lemma MarkEdits(row: Row, at: nat, c: Scalar)
    requires at < |row.cells|
    ensures Edited(row, row.(cells := row.cells[at := Append(row.cells[at], c)]))
  {
  }

  lemma RowEdited(rows: seq<Row>, i: nat, next: Row)
    requires FlagsFit(rows) && i < |rows| && Edited(rows[i], next)
    ensures FlagsFit(rows[i := next])
  {
    assert FlagFits(rows[i]);
  }

  // ----------------------------------------------------------------------- many rows

  lemma NewRowFits(cols: nat)
    ensures FlagFits(NewRow(cols)) && !NewRow(cols).wrapped
  {
  }

  lemma UpFits(rows: seq<Row>, lo: nat, end: nat, count: nat, cols: nat)
    requires FlagsFit(rows) && lo < end <= |rows| && ValidRows(rows, cols)
    ensures FlagsFit(ShiftUp(rows, lo, end, count, cols))
  {
    hide FlagFits, ValidRows, NewRow;
    NewRowFits(cols);
    var k := Min(count, end - lo);
    var r := ShiftUp(rows, lo, end, count, cols);
    forall i | 0 <= i < |r| ensures FlagFits(r[i]) {
      assert r[i] == if i < lo || i >= end then rows[i] else if i < end - k then rows[i + k] else NewRow(cols);
    }
    assert r[|r| - 1] == rows[|r| - 1] || r[|r| - 1] == NewRow(cols);
  }

  lemma DownFits(rows: seq<Row>, lo: nat, end: nat, count: nat, cols: nat)
    requires FlagsFit(rows) && lo <= end <= |rows| && ValidRows(rows, cols)
    ensures forall i :: 0 <= i < |rows| ==> FlagFits(ShiftDown(rows, lo, end, count, cols)[i])
    ensures end < |rows| ==> FlagsFit(ShiftDown(rows, lo, end, count, cols))
    ensures lo < end ==> FlagsFit(Unwrapped(ShiftDown(rows, lo, end, count, cols), end - 1))
  {
    hide ValidRows, NewRow;
    NewRowFits(cols);
    var k := Min(count, end - lo);
    var r := ShiftDown(rows, lo, end, count, cols);
    forall i | 0 <= i < |r| ensures FlagFits(r[i]) {
      assert r[i] == if i < lo || i >= end then rows[i] else if i < lo + k then NewRow(cols) else rows[i - k];
    }
    if end < |rows| { assert r[|r| - 1] == rows[|r| - 1]; }
    if lo < end {
      var u := Unwrapped(r, end - 1);
      assert u[|u| - 1] == if end == |rows| then r[end - 1].(wrapped := false) else r[|u| - 1];
    }
  }

  lemma UnwrappedFits(rows: seq<Row>, at: nat)
    requires FlagsFit(rows) && at < |rows|
    ensures FlagsFit(Unwrapped(rows, at))
  {
    RowEdited(rows, at, rows[at].(wrapped := false));
  }

  lemma ClearFits(g: Grid, lo: nat, end: nat, attrs: Attrs)
    requires ValidGrid(g) && FlagsFit(g.rows) && lo <= end <= g.height && attrs.WellFormed()
    ensures FlagsFit(ClearRows(g, lo, end, attrs).rows)
  {
    hide ValidRows;
    var r := ClearRows(g, lo, end, attrs).rows;
    forall i | 0 <= i < |r| ensures FlagFits(r[i]) && (!g.rows[i].wrapped ==> !r[i].wrapped) {
      assert r[i] == if lo <= i < end then ClearedRow(g.cols, attrs) else g.rows[i];
      assert FlagFits(g.rows[i]);
    }
  }

  // ------------------------------------------------------------------ grid operations

  lemma ScrollUpFits(g: Grid, count: nat)
    requires ValidGrid(g) && FlagsFit(g.rows)
    ensures FlagsFit(ScrollUp(g, count).rows)
  {
    hide ShiftUp;
    UpFits(g.rows, g.top, g.bottom + 1, Min(count, g.height - g.top), g.cols);
  }

  lemma ScrollDownFits(g: Grid, count: nat)
    requires ValidGrid(g) && FlagsFit(g.rows)
    ensures FlagsFit(ScrollDown(g, count).rows)
  {
    hide ShiftDown, Unwrapped;
    DownFits(g.rows, g.top, g.bottom + 1, count, g.cols);
  }

  lemma LinesFit(g: Grid, count: nat)
    requires ValidGrid(g) && FlagsFit(g.rows)
    ensures FlagsFit(InsertLines(g, count).rows) && FlagsFit(DeleteLines(g, count).rows)
  {
    hide ShiftDown, ShiftUp, Unwrapped, FlagsFit;
    if g.pos.row <= g.bottom {
      DownFits(g.rows, g.pos.row, g.bottom + 1, count, g.cols);
      UpFits(g.rows, g.pos.row, g.bottom + 1, Min(count, g.height - g.pos.row), g.cols);
    } else {
      UpFits(g.rows, g.bottom, g.pos.row + 1, count, g.cols);
      UnwrappedFits(ShiftUp(g.rows, g.bottom, g.pos.row + 1, count, g.cols), g.bottom);
      DownFits(g.rows, g.bottom + 1, g.pos.row, Min(count, g.height - g.pos.row), g.cols);
    }
  }

  lemma EraseFits(g: Grid, from: nat, to: nat, attrs: Attrs)
    requires ValidGrid(g) && FlagsFit(g.rows) && from <= to <= g.cols && attrs.WellFormed()
    ensures FlagsFit(EraseColumns(g, from, to, attrs).rows)
  {
    hide EraseRange, ValidContents, Paired;
    assert ValidRow(g.rows[g.pos.row], g.cols);
    EraseEdits(CurrentRow(g), from, to, attrs);
    RowEdited(g.rows, g.pos.row, EraseRange(CurrentRow(g), from, to, attrs));
  }

  lemma EraseDisplayFits(g: Grid, mode: nat, attrs: Attrs)
    requires ValidGrid(g) && FlagsFit(g.rows) && attrs.WellFormed()
    ensures FlagsFit(EraseDisplay(g, mode, attrs).rows)
  {
    hide EraseColumns, ClearRows, FlagsFit;
    if mode == 0 {
      ClearFits(g, g.pos.row + 1, g.height, attrs);
      var h := ClearRows(g, g.pos.row + 1, g.height, attrs);
      EraseFits(h, h.pos.col, h.cols, attrs);
    } else if mode == 1 {
      ClearFits(g, 0, g.pos.row, attrs);
      var h := ClearRows(g, 0, g.pos.row, attrs);
      EraseFits(h, 0, Min(h.pos.col, h.cols - 1) + 1, attrs);
    } else if mode == 2 {
      ClearFits(g, 0, g.height, attrs);
    }
  }

  lemma EraseLineFits(g: Grid, mode: nat, attrs: Attrs)
    requires ValidGrid(g) && FlagsFit(g.rows) && attrs.WellFormed()
    ensures FlagsFit(EraseLine(g, mode, attrs).rows)
  {
    hide EraseColumns;
    if mode == 0 {
      EraseFits(g, g.pos.col, g.cols, attrs);
    } else if mode == 1 {
      EraseFits(g, 0, Min(g.pos.col, g.cols - 1) + 1, attrs);
    } else if mode == 2 {
      RowEdited(g.rows, g.pos.row, ClearedRow(g.cols, attrs));
    }
  }

  lemma CellsFit(g: Grid, count: nat)
    requires ValidGrid(g) && FlagsFit(g.rows)
    ensures FlagsFit(InsertCells(g, count).rows) && FlagsFit(DeleteCells(g, count).rows)
  {
    hide ValidContents, Paired, Truncated, CutLeft, CutRight;
    RowEdited(g.rows, g.pos.row, InsertBlanks(CurrentRow(g), g.pos.col, count));
    RowEdited(g.rows, g.pos.row, DeleteRange(CurrentRow(g), g.pos.col, Min(count, g.cols - g.pos.col)));
  }

  lemma LineDownFits(g: Grid)
    requires ValidGrid(g) && FlagsFit(g.rows)
    ensures FlagsFit(LineDown(g).0.rows)
    ensures
      var (h, scrolled) := LineDown(g);
      g.pos.row - scrolled < h.pos.row ==> h.rows[g.pos.row - scrolled] == g.rows[g.pos.row]
  {
    hide FlagsFit, ValidRows;
    ScrollUpFits(g, 1);
    if g.pos.row == g.bottom {
      assert ScrollUp(g, 1).rows[g.bottom - 1] == g.rows[g.bottom];
    }
  }

  lemma WrapFits(g: Grid, width: nat)
    requires ValidGrid(g) && FlagsFit(g.rows) && width <= 2
    ensures FlagsFit(ColumnWrap(g, width, g.pos.col > g.cols - width && LastCellDrawn(g)).rows)
  {
    hide LineDown, ValidRows;
    if g.pos.col > g.cols - width {
      var start := At(g, g.pos.row, 0);
      LineDownFits(start);
      var (h, scrolled) := LineDown(start);
      var left := g.pos.row - scrolled;
      var wrap := LastCellDrawn(g) && left + 1 == h.pos.row;
      assert wrap ==> EndDrawn(h.rows[left]) by {
        if wrap {
          assert h.rows[left] == g.rows[g.pos.row];
          LastIsDrawn(g);
        }
      }
      Flagged(h.rows, left, wrap);
    }
  }

  lemma LastIsDrawn(g: Grid)
    requires ValidGrid(g) && LastCellDrawn(g)
    ensures EndDrawn(g.rows[g.pos.row])
  {
    assert ValidRow(g.rows[g.pos.row], g.cols);
  }

  lemma Flagged(rows: seq<Row>, i: nat, wrap: bool)
    requires FlagsFit(rows) && i < |rows| && (wrap ==> EndDrawn(rows[i]) && i + 1 < |rows|)
    ensures FlagsFit(rows[i := rows[i].(wrapped := wrap)])
  {
  }

  lemma TextFits(g: Grid, c: Scalar, attrs: Attrs)
    requires ValidGrid(g) && FlagsFit(g.rows) && attrs.WellFormed() && !IsC1(c)
    ensures FlagsFit(Text(g, c, attrs).rows)
  {
    hide ColumnWrap, PutWide, PutNarrow, Append, FlagsFit, ValidContents, Paired;
    if !IsUndrawable(c) {
      var width := Columns(c);
      WrapFits(g, width);
      var h := ColumnWrap(g, width, g.pos.col > g.cols - width && LastCellDrawn(g));
      if width == 0 {
        if h.pos.col > 0 { MarkFits(h, h.pos.row, h.pos.col, c); }
        else if h.pos.row > 0 && h.rows[h.pos.row - 1].wrapped { MarkFits(h, h.pos.row - 1, h.cols, c); }
      } else {
        BaseFits(h, c, attrs);
      }
    }
  }

  lemma MarkFits(g: Grid, row: nat, col: nat, c: Scalar)
    requires ValidGrid(g) && FlagsFit(g.rows) && row < g.height && 0 < col <= g.cols && IsMark(c)
    ensures FlagsFit(MarkAt(g, row, col, c).rows)
  {
    hide Append, ValidContents, FlagsFit;
    assert ValidRow(g.rows[row], g.cols);
    var cells := g.rows[row].cells;
    var at := MarkColumn(cells, col);
    MarkEdits(g.rows[row], at, c);
    RowEdited(g.rows, row, g.rows[row].(cells := cells[at := Append(cells[at], c)]));
  }

  lemma BaseFits(g: Grid, c: Scalar, attrs: Attrs)
    requires ValidGrid(g) && FlagsFit(g.rows) && IsBase(c) && attrs.WellFormed() && g.pos.col + Columns(c) <= g.cols
    ensures FlagsFit(DrawBase(g, c, attrs).rows)
  {
    hide PutWide, PutNarrow, ValidContents, Paired, FlagsFit;
    var row, i := CurrentRow(g), g.pos.row;
    if c.width == Wide {
      WideEdits(row, g.pos.col, c, attrs);
      RowEdited(g.rows, i, PutWide(row, g.pos.col, c, attrs));
    } else {
      NarrowEdits(row, g.pos.col, c, attrs);
      RowEdited(g.rows, i, row.(cells := PutNarrow(row.cells, g.pos.col, c, attrs)));
    }
  }

  // ------------------------------------------------------------------------- commands

  lemma EditingFits(g: Grid, command: Command)
    requires ValidGrid(g) && FlagsFit(g.rows)
    ensures FlagsFit(ExecEditing(g, command).rows)
  {
    hide FlagsFit, ValidRows, InsertLines, DeleteLines, InsertCells, DeleteCells, ScrollUp, ScrollDown;
    match command
    case ReverseIndex => ScrollDownFits(g, 1);
    case InsertLine(n) => LinesFit(g, n);
    case DeleteLine(n) => LinesFit(g, n);
    case InsertCharacter(n) => CellsFit(g, n);
    case DeleteCharacter(n) => CellsFit(g, n);
    case PanDown(n) => ScrollUpFits(g, n);
    case PanUp(n) => ScrollDownFits(g, n);
    case _ =>
  }

  lemma Bounds(g: Grid)
    requires ValidGrid(g)
    ensures g.pos.row < g.height && g.pos.col <= g.cols && 2 <= g.cols && 2 <= g.height
  {
  }

  lemma DrawingFits(g: Grid, attrs: Attrs, command: Command)
    requires ValidGrid(g) && FlagsFit(g.rows) && attrs.WellFormed()
    ensures FlagsFit(ExecDrawing(g, attrs, command).rows)
  {
    hide FlagsFit, ValidGrid, ExecEditing, Text, LineDown, EraseDisplay, EraseLine, EraseColumns, ClampRow, ClampCol;
    Bounds(g);
    match command
    case Print(c) => if !IsC1(c) { TextFits(g, c, attrs); }
    case LineFeed => LineDownFits(g);
    case Backspace =>
    case CarriageReturn =>
    case CursorForward(_) =>
    case MoveTo(_, _) =>
    case EraseInDisplay(mode) => EraseDisplayFits(g, mode, attrs);
    case EraseInLine(mode) => EraseLineFits(g, mode, attrs);
    case EraseCharacter(n) => EraseFits(g, g.pos.col, Min(g.pos.col + n, g.cols), attrs);
    case _ => EditingFits(g, command);
  }

  lemma FreshFits(height: nat, cols: nat)
    requires 2 <= height && 2 <= cols
    ensures FlagsFit(FreshScreen(height, cols).grid.rows)
  {
  }

  lemma ExecFits(s: Screen, command: Command)
    requires WellFormed(s) && FlagsFit(s.grid.rows)
    ensures FlagsFit(Exec(s, command).grid.rows)
  {
    hide FlagsFit, WellFormed, ValidGrid, Exec, ExecDrawing, FreshScreen, SwitchMode;
    if BeyondGrid(command) {
      ExecIsBeyondGrid(s, command);
      match command
      case Reset => FreshFits(s.grid.height, s.grid.cols);
      case SetMode(mode) => SwitchKeepsRows(s, mode, true);
      case ResetMode(mode) => SwitchKeepsRows(s, mode, false);
      case _ =>
    } else {
      ExecIsOnGrid(s, command);
      DrawingFits(s.grid, s.attrs, command);
    }
  }

  lemma SwitchKeepsRows(s: Screen, mode: PrivateMode, on: bool)
    requires WellFormed(s)
    ensures SwitchMode(s, mode, on).grid.rows == s.grid.rows
  {
    hide ValidRows;
  }

  /** Over every run of commands from a fresh screen. */
  lemma {:induction false} RunFits(s: Screen, commands: seq<Command>)
    requires WellFormed(s) && FlagsFit(s.grid.rows)
    ensures FlagsFit(Run(s, commands).grid.rows)
    decreases |commands|
  {
    hide Exec, FlagsFit;
    if commands != [] {
      ExecFits(s, commands[0]);
      RunFits(Exec(s, commands[0]), commands[1..]);
    }
  }

  lemma ReachableFlagsFit(height: nat, cols: nat, commands: seq<Command>)
    requires 2 <= height && 2 <= cols
    ensures FlagsFit(Run(FreshScreen(height, cols), commands).grid.rows)
  {
    hide Run, FlagsFit, FreshScreen;
    FreshFits(height, cols);
    RunFits(FreshScreen(height, cols), commands);
  }
}
