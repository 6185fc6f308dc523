/** Painting one row: column by column, the terminal's row turns from what it
    showed into what is wanted, and its soft-wrap flag is followed exactly. */
module RowPainting {
  import opened Wrappers
  import opened Attributes
  import opened Cells
  import opened Screens
  import opened Painter
  import opened Painting

  /** Columns before `p` are as wanted and columns after it untouched.  At `p`
      itself a cell may have lost the wide character it was half of. */
  predicate Progress(cur: seq<Cell>, cells: seq<Cell>, shown: seq<Cell>, p: nat) {
    && |cur| == |cells| == |shown| && p <= |cur|
    && cur[..p] == cells[..p]
    && (forall i :: p < i < |cur| ==> cur[i] == shown[i])
    && (p < |cur| ==>
        && !cells[p].continuation && !cur[p].continuation
        && (if shown[p].continuation then !cur[p].wide else cur[p] == shown[p]))
  }

  predicate ValidPair(cells: seq<Cell>, shown: seq<Cell>) {
    |cells| == |shown| && ValidCells(cells, |cells|) && ValidCells(shown, |shown|)
  }

  lemma KeepProgress(cur: seq<Cell>, cells: seq<Cell>, shown: seq<Cell>, p: nat)
    requires ValidPair(cells, shown) && Progress(cur, cells, shown, p) && p < |cur|
    requires cells[p] == shown[p]
    ensures p + CellWidth(cells[p]) <= |cur| && Progress(cur, cells, shown, p + CellWidth(cells[p]))
  {
    assert PairedAt(cells, p) && PairedAt(shown, p);
    assert ValidCell(cells[p]) && ValidCell(shown[p]);
    if p + 1 < |cur| {
      assert PairedAt(cells, p + 1) && PairedAt(shown, p + 1);
      assert ValidCell(cells[p + 1]) && ValidCell(shown[p + 1]);
    }
    if p + 2 < |cur| { assert PairedAt(cells, p + 2) && PairedAt(shown, p + 2); }
    var q := p + CellWidth(cells[p]);
    assert cur[..q] == cells[..q];
  }

  lemma DrawProgress(cur: seq<Cell>, flag: bool, cells: seq<Cell>, shown: seq<Cell>, p: nat)
    requires ValidPair(cells, shown) && ValidCells(cur, |cur|) && Progress(cur, cells, shown, p) && p < |cur|
    requires cells[p].contents != []
    ensures p + CellWidth(cells[p]) <= |cur|
    ensures Progress(Inked(Row(cur, flag), p, cells[p]).cells, cells, shown, p + CellWidth(cells[p]))
  {
    assert PairedAt(cells, p);
    if cells[p].wide {
      DrawWideProgress(cur, flag, cells, shown, p);
    } else {
      DrawNarrowProgress(cur, flag, cells, shown, p);
    }
  }

  lemma DrawNarrowProgress(cur: seq<Cell>, flag: bool, cells: seq<Cell>, shown: seq<Cell>, p: nat)
    requires ValidPair(cells, shown) && ValidCells(cur, |cur|) && Progress(cur, cells, shown, p) && p < |cur|
    requires cells[p].contents != [] && !cells[p].wide
    ensures Progress(Inked(Row(cur, flag), p, cells[p]).cells, cells, shown, p + 1)
  {
    assert PairedAt(shown, p) && PairedAt(cur, p);
    if p + 1 < |cur| {
      assert PairedAt(cells, p + 1) && PairedAt(shown, p + 1);
      assert ValidCell(shown[p + 1]);
    }
    var next := Inked(Row(cur, flag), p, cells[p]).cells;
    assert next[..p] == cur[..p];
    assert next[..p + 1] == cells[..p + 1];
  }

  lemma DrawWideProgress(cur: seq<Cell>, flag: bool, cells: seq<Cell>, shown: seq<Cell>, p: nat)
    requires ValidPair(cells, shown) && ValidCells(cur, |cur|) && Progress(cur, cells, shown, p) && p + 1 < |cur|
    requires cells[p].contents != [] && cells[p].wide
    ensures Progress(Inked(Row(cur, flag), p, cells[p]).cells, cells, shown, p + 2)
  {
    assert PairedAt(cells, p) && PairedAt(shown, p) && PairedAt(cur, p);
    assert PairedAt(shown, p + 1);
    assert ValidCell(cells[p + 1]) && ValidCell(shown[p + 1]);
    if p + 2 < |cur| { assert PairedAt(cells, p + 2) && PairedAt(shown, p + 2); }
    var next := Inked(Row(cur, flag), p, cells[p]).cells;
    assert next[..p] == cur[..p];
    assert next[..p + 2] == cells[..p + 2];
  }

  lemma EraseProgress(cur: seq<Cell>, flag: bool, cells: seq<Cell>, shown: seq<Cell>, p: nat, to: nat, attrs: Attrs)
    requires ValidPair(cells, shown) && ValidCells(cur, |cur|) && Progress(cur, cells, shown, p)
    requires p < to <= |cur| && attrs.WellFormed()
    requires forall i :: p <= i < to ==> cells[i] == Blank(attrs)
    ensures Progress(EraseRange(Row(cur, flag), p, to, attrs).cells, cells, shown, to)
  {
    var next := EraseRange(Row(cur, flag), p, to, attrs).cells;
    assert cells[to - 1] == Blank(attrs);
    if to < |cur| { assert PairedAt(cells, to) && ValidCell(shown[to]); }
    assert next[..p] == cur[..p];
    assert next[..to] == cells[..to];
  }

  // --------------------------------------------------------------- the wrap flag

  /** Painting destroys the wide character that ended the shown row by something
      before its second half, and the row forgets that it was wrapped. */
  predicate Cut(cells: seq<Cell>, shown: seq<Cell>)
    requires |cells| == |shown| >= 2
  {
    shown[|shown| - 1].continuation && cells[|cells| - 2].contents == []
  }

  predicate EndsDrawn(cells: seq<Cell>) {
    EndDrawn(Row(cells, false))
  }

  /** The flag of a row that was marked `flag`, once it is painted. */
  predicate EndFlag(flag: bool, cut: bool, cells: seq<Cell>) {
    flag && EndsDrawn(cells) && !cut
  }

  /** The flag when columns before `p` are painted. */
  predicate FlagNow(now: bool, flag: bool, cut: bool, cells: seq<Cell>, p: nat) {
    now == if p >= |cells| then EndFlag(flag, cut, cells) else flag && (p == |cells| - 1 ==> !cut)
  }

  /** Two rows of one width, the shown one marked `flag`; a wrapped row ends in a
      drawn character.  Before the last column `cut` is known from the cells. */
  predicate FlaggedPair(flag: bool, cut: bool, cells: seq<Cell>, shown: seq<Cell>, p: nat) {
    && ValidPair(cells, shown) && |cells| >= 2 && (flag ==> EndsDrawn(shown))
    && (p < |cells| - 1 ==> cut == Cut(cells, shown))
  }

  lemma KeepFlag(cur: seq<Cell>, now: bool, flag: bool, cut: bool, cells: seq<Cell>, shown: seq<Cell>, p: nat)
    requires FlaggedPair(flag, cut, cells, shown, p) && Progress(cur, cells, shown, p) && p < |cur|
    requires cells[p] == shown[p]
    requires FlagNow(now, flag, cut, cells, p)
    ensures FlagNow(now, flag, cut, cells, p + CellWidth(cells[p]))
  {
    hide ValidContents;
    var n := |cells|;
    assert PairedAt(cells, p) && PairedAt(shown, p) && ValidCell(cells[p]);
    assert PairedAt(shown, n - 1) && ValidCell(shown[n - 2]) && ValidCell(shown[n - 1]);
    if p + 1 < n { assert PairedAt(shown, p + 1) && ValidCell(shown[p + 1]) && ValidCell(cells[p + 1]); }
  }

  lemma DrawFlag(cur: seq<Cell>, now: bool, flag: bool, cut: bool, cells: seq<Cell>, shown: seq<Cell>, p: nat)
    requires FlaggedPair(flag, cut, cells, shown, p) && ValidCells(cur, |cur|) && Progress(cur, cells, shown, p)
    requires p < |cur|
    requires FlagNow(now, flag, cut, cells, p) && cells[p].contents != []
    ensures p + CellWidth(cells[p]) <= |cur|
    ensures FlagNow(Inked(Row(cur, now), p, cells[p]).wrapped, flag, cut, cells, p + CellWidth(cells[p]))
  {
    hide ValidContents;
    var n := |cells|;
    assert PairedAt(cells, p) && PairedAt(cur, p) && PairedAt(shown, p) && ValidCell(cells[p]);
    assert PairedAt(shown, n - 1) && ValidCell(shown[n - 2]) && ValidCell(shown[n - 1]);
    if p + 1 < n { assert PairedAt(shown, p + 1) && ValidCell(shown[p + 1]) && ValidCell(cells[p + 1]); }
  }

  lemma EraseFlag(cur: seq<Cell>, now: bool, flag: bool, cut: bool, cells: seq<Cell>, shown: seq<Cell>, p: nat,
                  to: nat, attrs: Attrs)
    requires FlaggedPair(flag, cut, cells, shown, p) && ValidCells(cur, |cur|) && Progress(cur, cells, shown, p)
    requires FlagNow(now, flag, cut, cells, p) && p < to <= |cur| && attrs.WellFormed()
    requires forall i :: p <= i < to ==> cells[i] == Blank(attrs)
    ensures FlagNow(EraseRange(Row(cur, now), p, to, attrs).wrapped, flag, cut, cells, to)
  {
    hide ValidContents;
    assert cells[to - 1] == Blank(attrs);
  }

  // --------------------------------------------------- the terminal alongside

  /** The surface `t` after painting: only rows, cursor and attributes differ. */
  function Shown(t: Screen, rows: seq<Row>, pos: Pos, attrs: Attrs): Screen {
    t.(grid := t.grid.(rows := rows, pos := pos), attrs := attrs)
  }

  /** Running what the pen wrote shows these rows, with cursor and attributes
      where the pen believes they are. */
  predicate On(t: Screen, rows: seq<Row>, pen: Pen) {
    Surface(t) && |rows| == t.grid.height && Run(t, pen.out) == Shown(t, rows, pen.pos, pen.attrs)
  }

  lemma OnIsValid(t: Screen, rows: seq<Row>, pen: Pen)
    requires On(t, rows, pen)
    ensures Surface(Shown(t, rows, pen.pos, pen.attrs)) && pen.attrs.WellFormed()
    ensures pen.pos.row < t.grid.height && pen.pos.col <= t.grid.cols
    ensures ValidRows(rows, t.grid.cols) && 2 <= t.grid.cols && 2 <= t.grid.height == |rows|
  {
    hide Exec;
  }

  /** Writing more: what it does to the terminal is what the pen then believes. */
  lemma Continue(t: Screen, rows: seq<Row>, pen: Pen, out: seq<Command>, next: seq<Row>, pos: Pos, attrs: Attrs)
    requires On(t, rows, pen) && |next| == t.grid.height
    requires WellFormed(Shown(t, rows, pen.pos, pen.attrs))
    requires Run(Shown(t, rows, pen.pos, pen.attrs), out) == Shown(t, next, pos, attrs)
    ensures On(t, next, Pen(pen.out + out, pos, attrs))
  {
    hide Exec, WellFormed;
    RunConcat(t, pen.out, out);
  }

  lemma ReachEffect(u: Screen, at: Pos, attrs: Attrs)
    requires Surface(u) && at.row < u.grid.height && at.col < u.grid.cols && attrs.WellFormed()
    ensures Run(u, MoveFromTo(u.grid.pos, at) + Restyle(attrs, u.attrs)) == Moved(u, at).(attrs := attrs)
  {
    hide Exec;
    RunConcat(u, MoveFromTo(u.grid.pos, at), Restyle(attrs, u.attrs));
    MoveEffect(u, at);
    RestyleEffect(Moved(u, at), attrs);
  }

  lemma ReachOn(t: Screen, rows: seq<Row>, pen: Pen, at: Pos, attrs: Attrs)
    requires On(t, rows, pen) && attrs.WellFormed() && at.row < t.grid.height && at.col < t.grid.cols
    ensures On(t, rows, Pen(pen.out + MoveFromTo(pen.pos, at) + Restyle(attrs, pen.attrs), at, attrs))
  {
    hide Exec, Run, WellFormed, MoveFromTo, Restyle, Surface;
    OnIsValid(t, rows, pen);
    var u := Shown(t, rows, pen.pos, pen.attrs);
    var out := MoveFromTo(pen.pos, at) + Restyle(attrs, pen.attrs);
    SurfaceIsWellFormed(u);
    ReachEffect(u, at, attrs);
    Continue(t, rows, pen, out, rows, at, attrs);
    assert pen.out + out == pen.out + MoveFromTo(pen.pos, at) + Restyle(attrs, pen.attrs);
  }

  lemma MoveOn(t: Screen, rows: seq<Row>, pen: Pen, at: Pos)
    requires On(t, rows, pen) && at.row < t.grid.height && at.col < t.grid.cols
    ensures On(t, rows, Pen(pen.out + MoveFromTo(pen.pos, at), at, pen.attrs))
  {
    hide Exec, Run, WellFormed, MoveFromTo, Surface;
    OnIsValid(t, rows, pen);
    var u := Shown(t, rows, pen.pos, pen.attrs);
    SurfaceIsWellFormed(u);
    MoveEffect(u, at);
    Continue(t, rows, pen, MoveFromTo(pen.pos, at), rows, at, pen.attrs);
  }

  lemma SurfaceIsWellFormed(u: Screen)
    requires Surface(u)
    ensures WellFormed(u)
  {
  }

  lemma RestyleOn(t: Screen, rows: seq<Row>, pen: Pen, attrs: Attrs)
    requires On(t, rows, pen) && attrs.WellFormed()
    ensures On(t, rows, Pen(pen.out + Restyle(attrs, pen.attrs), pen.pos, attrs))
  {
    hide Exec, Run, WellFormed, Surface;
    OnIsValid(t, rows, pen);
    var u := Shown(t, rows, pen.pos, pen.attrs);
    SurfaceIsWellFormed(u);
    RestyleEffect(u, attrs);
    Continue(t, rows, pen, Restyle(attrs, pen.attrs), rows, pen.pos, attrs);
  }

  lemma ExecEraseCells(t: Screen, to: nat)
    requires WellFormed(t) && t.grid.pos.col < to <= t.grid.cols
    ensures ValidRow(t.grid.rows[t.grid.pos.row], t.grid.cols)
    ensures Exec(t, EraseCharacter(to - t.grid.pos.col))
            == Rewritten(t, EraseRange(t.grid.rows[t.grid.pos.row], t.grid.pos.col, to, t.attrs), t.grid.pos.col)
  {
    hide ExecEditing, Text, SwitchMode, EraseDisplay, EraseLine, Rendered, EraseRange, ValidCell, Paired;
  }

  lemma EraseCellsEffect(t: Screen, to: nat)
    requires WellFormed(t) && t.grid.pos.col < to <= t.grid.cols
    ensures ValidRow(t.grid.rows[t.grid.pos.row], t.grid.cols)
    ensures Run(t, EraseCount(to - t.grid.pos.col))
            == Rewritten(t, EraseRange(t.grid.rows[t.grid.pos.row], t.grid.pos.col, to, t.attrs), t.grid.pos.col)
  {
    hide Exec, Run;
    ExecEraseCells(t, to);
    RunOne(t, EraseCharacter(to - t.grid.pos.col));
  }

  lemma ExecEraseLine(t: Screen)
    requires WellFormed(t)
    ensures ValidRow(t.grid.rows[t.grid.pos.row], t.grid.cols)
    ensures Exec(t, EraseInLine(0))
            == Rewritten(t, EraseRange(t.grid.rows[t.grid.pos.row], t.grid.pos.col, t.grid.cols, t.attrs),
                         t.grid.pos.col)
  {
    hide ExecEditing, Text, SwitchMode, EraseDisplay, EraseCells, EraseBackward, ClearedRow, Rendered, EraseRange,
      ValidCell, Paired;
  }

  lemma EraseLineEffect(t: Screen)
    requires WellFormed(t)
    ensures ValidRow(t.grid.rows[t.grid.pos.row], t.grid.cols)
    ensures Run(t, [EraseInLine(0)])
            == Rewritten(t, EraseRange(t.grid.rows[t.grid.pos.row], t.grid.pos.col, t.grid.cols, t.attrs),
                         t.grid.pos.col)
  {
    hide Exec, Run, EraseRange;
    ExecEraseLine(t);
    RunOne(t, EraseInLine(0));
  }

  /** Drawing a cell where the cursor stands. */
  lemma InkOn(t: Screen, rows: seq<Row>, pen: Pen, cell: Cell)
    requires On(t, rows, pen) && ValidCell(cell) && cell.contents != [] && pen.attrs == cell.attrs
    requires pen.pos.row < |rows| && pen.pos.col + CellWidth(cell) <= t.grid.cols
    requires ValidRow(rows[pen.pos.row], t.grid.cols)
    ensures On(t, rows[pen.pos.row := Inked(rows[pen.pos.row], pen.pos.col, cell)],
               Pen(pen.out + Scalars(cell.contents), Pos(pen.pos.row, pen.pos.col + CellWidth(cell)), pen.attrs))
  {
    hide Exec, Run, WellFormed, Surface, Inked, Paired;
    OnIsValid(t, rows, pen);
    var u, row := Shown(t, rows, pen.pos, pen.attrs), rows[pen.pos.row];
    SurfaceIsWellFormed(u);
    DrawEffect(u, cell);
    Continue(t, rows, pen, Scalars(cell.contents), rows[pen.pos.row := Inked(row, pen.pos.col, cell)],
             Pos(pen.pos.row, pen.pos.col + CellWidth(cell)), pen.attrs);
  }

  /** Erasing from the cursor up to column `to`, or to the end of the row. */
  lemma EraseOn(t: Screen, rows: seq<Row>, pen: Pen, to: nat, erase: seq<Command>)
    requires On(t, rows, pen) && pen.pos.row < |rows| && ValidRow(rows[pen.pos.row], t.grid.cols)
    requires pen.pos.col < to <= t.grid.cols && pen.attrs.WellFormed()
    requires erase == EraseCount(to - pen.pos.col) || (to == t.grid.cols && erase == [EraseInLine(0)])
    ensures On(t, rows[pen.pos.row := EraseRange(rows[pen.pos.row], pen.pos.col, to, pen.attrs)],
               Pen(pen.out + erase, pen.pos, pen.attrs))
  {
    hide Exec, Run, WellFormed, Surface, EraseRange, ValidCell, Paired;
    OnIsValid(t, rows, pen);
    var u, row := Shown(t, rows, pen.pos, pen.attrs), rows[pen.pos.row];
    SurfaceIsWellFormed(u);
    if erase == EraseCount(to - pen.pos.col) { EraseCellsEffect(u, to); } else { EraseLineEffect(u); }
    Continue(t, rows, pen, erase, rows[pen.pos.row := EraseRange(row, pen.pos.col, to, pen.attrs)], pen.pos, pen.attrs);
  }

  lemma LineIsValid(t: Screen, rows: seq<Row>, row: nat, line: Row, pen: Pen)
    requires row < |rows| && On(t, rows[row := line], pen)
    ensures ValidRow(line, t.grid.cols) && |rows| == t.grid.height && pen.attrs.WellFormed()
  {
    hide Exec, Run, Surface;
    OnIsValid(t, rows[row := line], pen);
    assert rows[row := line][row] == line;
  }

  /** Writing out a pending erase, up to column `to` or to the end of the row. */
  lemma FlushOn(t: Screen, rows: seq<Row>, row: nat, pen: Pen, line: Row, pending: Pending, to: nat,
                erase: seq<Command>)
    requires row < |rows| && On(t, rows[row := line], pen) && pending.attrs.WellFormed()
    requires pending.col < to <= t.grid.cols
    requires erase == EraseCount(to - pending.col) || (to == t.grid.cols && erase == [EraseInLine(0)])
    ensures ValidRow(line, t.grid.cols)
    ensures On(t, rows[row := EraseRange(line, pending.col, to, pending.attrs)],
               Flush(pen, pending, row, false, t.grid.cols, erase))
  {
    hide Exec, Run, Surface, On, EraseRange, ValidCell, Paired, MoveFromTo, Restyle, EraseCount;
    LineIsValid(t, rows, row, line, pen);
    var at, now := Pos(row, pending.col), rows[row := line];
    ReachOn(t, now, pen, at, pending.attrs);
    var reached := Pen(pen.out + MoveFromTo(pen.pos, at) + Restyle(pending.attrs, pen.attrs), at, pending.attrs);
    EraseOn(t, now, reached, to, erase);
    var next := EraseRange(line, pending.col, to, pending.attrs);
    assert now[row := next] == rows[row := next];
  }

  lemma DrawCellOn(t: Screen, rows: seq<Row>, row: nat, pen: Pen, line: Row, cell: Cell, k: nat)
    requires row < |rows| && On(t, rows[row := line], pen) && ValidCell(cell) && cell.contents != []
    requires k + CellWidth(cell) <= t.grid.cols
    ensures ValidRow(line, t.grid.cols)
    ensures On(t, rows[row := Inked(line, k, cell)], DrawCell(pen, cell, Pos(row, k), false, t.grid.cols))
  {
    hide Exec, Run, Surface, On, Inked, ValidContents, Paired, Restyle, Scalars;
    LineIsValid(t, rows, row, line, pen);
    var at, now := Pos(row, k), rows[row := line];
    ReachOn(t, now, pen, at, cell.attrs);
    var reached := Pen(pen.out + MoveFromTo(pen.pos, at) + Restyle(cell.attrs, pen.attrs), at, cell.attrs);
    InkOn(t, now, reached, cell);
    var next := Inked(line, k, cell);
    assert now[row := next] == rows[row := next];
  }

  // --------------------------------------------------------- column by column

  /** The first column not yet shown as wanted. */
  function Frontier(p: RowPainter, k: nat): nat {
    if p.erase.Some? then p.erase.value.col else if p.skip then k + 1 else k
  }

  /** The painter before column `k`: pending columns are blanks of one style, and a
      skipped column is the second half of a wide character. */
  predicate PainterAt(p: RowPainter, cells: seq<Cell>, k: nat) {
    && k <= |cells|
    && (p.skip ==> p.erase.None? && 0 < k < |cells| && cells[k - 1].wide)
    && (p.erase.Some? ==>
        && p.erase.value.attrs.WellFormed() && p.erase.value.col < k
        && forall i :: p.erase.value.col <= i < k ==> cells[i] == Blank(p.erase.value.attrs))
  }

  /** The painter and the terminal's row `line`, which was marked `flag` at first. */
  predicate RowState(t: Screen, rows: seq<Row>, row: nat, cells: seq<Cell>, shown: seq<Cell>,
                     k: nat, p: RowPainter, line: Row, flag: bool, cut: bool) {
    && row < |rows| && On(t, rows[row := line], p.pen)
    && FlaggedPair(flag, cut, cells, shown, Frontier(p, k)) && |cells| == t.grid.cols && PainterAt(p, cells, k)
    && Progress(line.cells, cells, shown, Frontier(p, k))
    && FlagNow(line.wrapped, flag, cut, cells, Frontier(p, k))
  }

  /** A pending erase written out at column `k`, or at the end of the row. */
  lemma FlushStep(t: Screen, rows: seq<Row>, row: nat, cells: seq<Cell>, shown: seq<Cell>, k: nat, p: RowPainter,
                  line: Row, flag: bool, cut: bool, erase: seq<Command>)
    returns (next: Row)
    requires RowState(t, rows, row, cells, shown, k, p, line, flag, cut) && p.erase.Some?
    requires erase == EraseCount(k - p.erase.value.col) || (k == |cells| && erase == [EraseInLine(0)])
    ensures RowState(t, rows, row, cells, shown, k,
                     RowPainter(Flush(p.pen, p.erase.value, row, false, |cells|, erase), None, false), next, flag, cut)
  {
    hide Exec, Run, On, Flush, EraseCount, EraseRange, Progress, FlagNow, ValidContents, Paired;
    var pending := p.erase.value;
    FlushOn(t, rows, row, p.pen, line, pending, k, erase);
    next := EraseRange(line, pending.col, k, pending.attrs);
    assert line == Row(line.cells, line.wrapped);
    assert |line.cells| == |cells| by { ProgressWidth(line.cells, cells, shown, pending.col); }
    EraseProgress(line.cells, line.wrapped, cells, shown, pending.col, k, pending.attrs);
    EraseFlag(line.cells, line.wrapped, flag, cut, cells, shown, pending.col, k, pending.attrs);
  }

  lemma ProgressWidth(cur: seq<Cell>, cells: seq<Cell>, shown: seq<Cell>, p: nat)
    requires Progress(cur, cells, shown, p)
    ensures |cur| == |cells| == |shown| && p <= |cells|
  {
  }

  /** Drawing the cell at `k`, nothing being pending. */
  lemma DrawStep(t: Screen, rows: seq<Row>, row: nat, cells: seq<Cell>, shown: seq<Cell>, k: nat, p: RowPainter,
                 line: Row, flag: bool, cut: bool)
    returns (next: Row)
    requires RowState(t, rows, row, cells, shown, k, p, line, flag, cut) && p.erase.None? && !p.skip
    requires k < |cells| && cells[k].contents != []
    ensures ValidCell(cells[k])
    ensures RowState(t, rows, row, cells, shown, k + 1,
                     RowPainter(DrawCell(p.pen, cells[k], Pos(row, k), false, |cells|), None, cells[k].wide),
                     next, flag, cut)
  {
    hide Exec, Run, On, DrawCell, Inked, Progress, FlagNow, ValidContents;
    assert ValidCell(cells[k]) && PairedAt(cells, k);
    DrawCellOn(t, rows, row, p.pen, line, cells[k], k);
    next := Inked(line, k, cells[k]);
    assert line == Row(line.cells, line.wrapped);
    assert |line.cells| == |cells| by { ProgressWidth(line.cells, cells, shown, k); }
    DrawProgress(line.cells, line.wrapped, cells, shown, k);
    DrawFlag(line.cells, line.wrapped, flag, cut, cells, shown, k);
  }

  lemma KeepStep(t: Screen, rows: seq<Row>, row: nat, cells: seq<Cell>, shown: seq<Cell>, k: nat, p: RowPainter,
                 line: Row, flag: bool, cut: bool)
    requires RowState(t, rows, row, cells, shown, k, p, line, flag, cut) && p.erase.None? && !p.skip
    requires k < |cells| && cells[k] == shown[k]
    ensures RowState(t, rows, row, cells, shown, k + 1, RowPainter(p.pen, None, cells[k].wide), line, flag, cut)
  {
    hide Exec, Run, On, Progress, FlagNow, ValidContents;
    assert PairedAt(cells, k);
    assert |line.cells| == |cells| by { ProgressWidth(line.cells, cells, shown, k); }
    KeepProgress(line.cells, cells, shown, k);
    KeepFlag(line.cells, line.wrapped, flag, cut, cells, shown, k);
  }

  /** A cell without contents is a plain blank wherever the loop looks at it. */
  lemma BlankHere(cells: seq<Cell>, k: nat)
    requires k < |cells| && ValidCells(cells, |cells|) && cells[k].contents == [] && !cells[k].continuation
    ensures cells[k] == Blank(cells[k].attrs) && cells[k].attrs.WellFormed()
  {
    assert ValidCell(cells[k]);
  }

  lemma PendingNotContinuation(cells: seq<Cell>, p: RowPainter, k: nat)
    requires ValidCells(cells, |cells|) && k < |cells| && p.erase.Some? && p.erase.value.col < k
    requires forall i :: p.erase.value.col <= i < k ==> cells[i] == Blank(p.erase.value.attrs)
    ensures !cells[k].continuation
  {
    assert PairedAt(cells, k) && cells[k - 1] == Blank(p.erase.value.attrs);
  }

  lemma PaintCellStep(t: Screen, rows: seq<Row>, row: nat, cells: seq<Cell>, shown: seq<Cell>, k: nat, p: RowPainter,
                      line: Row, flag: bool, cut: bool)
    returns (next: Row)
    requires RowState(t, rows, row, cells, shown, k, p, line, flag, cut) && k < |cells| && PainterReady(p, k)
    ensures ValidCell(cells[k])
    ensures RowState(t, rows, row, cells, shown, k + 1,
                     PaintCell(p, cells[k], shown[k], Pos(row, k), false, |cells|), next, flag, cut)
  {
    hide Exec, Run, On, Progress, FlagNow, Flush, DrawCell, ValidContents;
    assert ValidCell(cells[k]);
    next := line;
    if p.skip {
      return;
    }
    var q := p;
    if p.erase.Some? {
      PendingNotContinuation(cells, p, k);
      if EndsErase(cells[k], p.erase.value) {
        next := FlushStep(t, rows, row, cells, shown, k, p, line, flag, cut, EraseCount(k - p.erase.value.col));
        q := RowPainter(Flush(p.pen, p.erase.value, row, false, |cells|, EraseCount(k - p.erase.value.col)),
                        None, false);
      } else {
        BlankHere(cells, k);
        return;
      }
    }
    if cells[k] == shown[k] {
      KeepStep(t, rows, row, cells, shown, k, q, next, flag, cut);
    } else if cells[k].contents != [] {
      next := DrawStep(t, rows, row, cells, shown, k, q, next, flag, cut);
    } else {
      assert !cells[k].continuation by { StartsCharacter(t, rows, row, cells, shown, k, q, next, flag, cut); }
      BlankHere(cells, k);
    }
  }

  lemma StartsCharacter(t: Screen, rows: seq<Row>, row: nat, cells: seq<Cell>, shown: seq<Cell>, k: nat, p: RowPainter,
                        line: Row, flag: bool, cut: bool)
    requires RowState(t, rows, row, cells, shown, k, p, line, flag, cut) && k < |cells| && p.erase.None? && !p.skip
    ensures !cells[k].continuation
  {
    hide Exec, Run, On, FlagNow, ValidContents;
  }

  lemma {:induction false} PaintCellsTrack(t: Screen, rows: seq<Row>, row: nat, cells: seq<Cell>, shown: seq<Cell>,
                                           k: nat, p: RowPainter, line: Row, flag: bool, cut: bool)
    returns (next: Row)
    requires RowState(t, rows, row, cells, shown, k, p, line, flag, cut) && PainterReady(p, k)
    ensures RowState(t, rows, row, cells, shown, |cells|, PaintCells(p, cells, shown, row, k, false), next, flag, cut)
    decreases |cells| - k
  {
    hide Exec, Run, On, Progress, FlagNow, PaintCell, ValidContents, Paired;
    if k == |cells| {
      next := line;
    } else {
      var mid := PaintCellStep(t, rows, row, cells, shown, k, p, line, flag, cut);
      next := PaintCellsTrack(t, rows, row, cells, shown, k + 1,
                              PaintCell(p, cells[k], shown[k], Pos(row, k), false, |cells|), mid, flag, cut);
    }
  }

  /** The loop from column `k` on, and the final erase. */
  function PaintRest(p: RowPainter, cells: seq<Cell>, shown: seq<Cell>, row: nat, k: nat, wrapping: bool): (r: Pen)
    requires |cells| == |shown| && k <= |cells| && ValidCells(cells, |cells|) && PainterReady(p, k)
    ensures r.attrs.WellFormed()
  {
    var q := PaintCells(p, cells, shown, row, k, wrapping);
    if q.erase.Some? then Flush(q.pen, q.erase.value, row, wrapping, |cells|, [EraseInLine(0)]) else q.pen
  }

  /** The loop and the final erase, from a state before any column: the row is as
      wanted, with exactly this flag. */
  lemma RestTracks(t: Screen, rows: seq<Row>, row: nat, cells: seq<Cell>, shown: seq<Cell>, k: nat, p: RowPainter,
                   line: Row, flag: bool, cut: bool)
    requires RowState(t, rows, row, cells, shown, k, p, line, flag, cut) && PainterReady(p, k)
    ensures On(t, rows[row := Row(cells, EndFlag(flag, cut, cells))], PaintRest(p, cells, shown, row, k, false))
  {
    hide Exec, Run, On, PaintCells, Flush, EndFlag, ValidContents, Paired;
    var last := PaintCellsTrack(t, rows, row, cells, shown, k, p, line, flag, cut);
    var q := PaintCells(p, cells, shown, row, k, false);
    if q.erase.Some? { last := FlushStep(t, rows, row, cells, shown, |cells|, q, last, flag, cut, [EraseInLine(0)]); }
    assert last.cells == last.cells[..|cells|] == cells[..|cells|] == cells;
    assert last == Row(cells, EndFlag(flag, cut, cells));
  }

  /** Running what the writer emits for a row turns the shown cells into the
      wanted ones, and the writer knows where the cursor and attributes end up. */
  lemma PaintColumnsTrack(t: Screen, rows: seq<Row>, row: nat, pen: Pen, cells: seq<Cell>)
    requires row < |rows| && On(t, rows, pen) && ValidPair(cells, rows[row].cells) && |cells| == t.grid.cols
    requires FlagFits(rows[row])
    ensures |cells| >= 2 && pen.attrs.WellFormed()
    ensures On(t, rows[row := Row(cells, EndFlag(rows[row].wrapped, Cut(cells, rows[row].cells), cells))],
               PaintColumns(pen, cells, rows[row].cells, row, false))
  {
    hide Exec, Run, Surface, PaintCells, EndFlag, ValidContents;
    var shown := rows[row];
    OnIsValid(t, rows, pen);
    assert PairedAt(cells, 0) && PairedAt(shown.cells, 0);
    assert rows[row := shown] == rows;
    RestTracks(t, rows, row, cells, shown.cells, 0, RowPainter(pen, None, false), shown, shown.wrapped,
               Cut(cells, shown.cells));
  }
}
