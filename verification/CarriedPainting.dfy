/** Drawing on a row from past the end of the row above: the row above becomes
    soft-wrapped and the painter's special cases begin. */
module CarriedPainting {
  import opened Wrappers
  import opened Attributes
  import opened Cells
  import opened Screens
  import opened Painter
  import opened Painting
  import opened RowPainting
  import opened ScreenPainting

  /** The rows after row `r` became soft-wrapped onto the next. */
  function Wrap(rows: seq<Row>, r: nat): (w: seq<Row>)
    requires r < |rows|
    ensures |w| == |rows|
  {
    rows[r := rows[r].(wrapped := true)]
  }

  /** A character that does not fit on a drawn row wraps first. */
  lemma WrapFirst(u: Screen, c: Scalar)
    requires Surface(u) && u.grid.pos.col + Columns(c) > u.grid.cols && u.grid.pos.row + 1 < u.grid.height
    requires IsBase(c) && EndDrawn(u.grid.rows[u.grid.pos.row])
    ensures
      var v := u.(grid := u.grid.(rows := Wrap(u.grid.rows, u.grid.pos.row), pos := Pos(u.grid.pos.row + 1, 0)));
      Surface(v) && Exec(u, Print(c)) == Exec(v, Print(c))
  {
    hide Exec, Text, ValidRows;
    var g := u.grid;
    var v := u.(grid := g.(rows := Wrap(g.rows, g.pos.row), pos := Pos(g.pos.row + 1, 0)));
    assert Surface(v) by { WrapIsValid(g.rows, g.pos.row, g.cols); }
    ExecIsOnGrid(u, Print(c));
    ExecIsOnGrid(v, Print(c));
    WrapText(g, v.grid, c, u.attrs);
  }

  lemma WrapText(g: Grid, h: Grid, c: Scalar, attrs: Attrs)
    requires ValidGrid(g) && g.bottom == g.height - 1 && g.pos.col + Columns(c) > g.cols && g.pos.row + 1 < g.height
    requires h == g.(rows := Wrap(g.rows, g.pos.row), pos := Pos(g.pos.row + 1, 0)) && ValidGrid(h)
    requires IsBase(c) && attrs.WellFormed() && EndDrawn(g.rows[g.pos.row])
    ensures Text(g, c, attrs) == Text(h, c, attrs)
  {
    hide DrawBase, ValidContents, Paired;
    assert ValidRow(g.rows[g.pos.row], g.cols);
    assert LastCellDrawn(g);
    assert ColumnWrap(g, Columns(c), true) == h;
    assert ColumnWrap(h, Columns(c), false) == h;
  }

  lemma WrapIsValid(rows: seq<Row>, r: nat, cols: nat)
    requires ValidRows(rows, cols) && r < |rows|
    ensures ValidRows(Wrap(rows, r), cols)
  {
  }

  /** A whole cell printed there: only its first scalar wraps. */
  lemma WrapCell(u: Screen, cell: Cell)
    requires Surface(u) && u.grid.pos.col + CellWidth(cell) > u.grid.cols && u.grid.pos.row + 1 < u.grid.height
    requires ValidCell(cell) && cell.contents != [] && EndDrawn(u.grid.rows[u.grid.pos.row])
    ensures
      var v := u.(grid := u.grid.(rows := Wrap(u.grid.rows, u.grid.pos.row), pos := Pos(u.grid.pos.row + 1, 0)));
      Surface(v) && Run(u, Scalars(cell.contents)) == Run(v, Scalars(cell.contents))
  {
    hide Exec, Run, ValidRows, EndDrawn;
    var v := u.(grid := u.grid.(rows := Wrap(u.grid.rows, u.grid.pos.row), pos := Pos(u.grid.pos.row + 1, 0)));
    var c, rest := cell.contents[0], Scalars(cell.contents)[1..];
    WrapFirst(u, c);
    assert Scalars(cell.contents) == [Print(c)] + rest;
    RunCons(u, Print(c), rest);
    RunCons(v, Print(c), rest);
  }

  /** Drawing a cell of either width that does not fit on the row above. */
  lemma CarryInk(t: Screen, rows: seq<Row>, pen: Pen, cell: Cell)
    requires On(t, rows, pen) && ValidCell(cell) && cell.contents != [] && pen.attrs == cell.attrs
    requires pen.pos.row + 1 < |rows| && pen.pos.col + CellWidth(cell) > t.grid.cols
    requires ValidRow(rows[pen.pos.row + 1], t.grid.cols) && EndDrawn(rows[pen.pos.row]) && 2 <= t.grid.cols
    ensures
      var r := pen.pos.row;
      On(t, Wrap(rows, r)[r + 1 := Inked(rows[r + 1], 0, cell)],
         Pen(pen.out + Scalars(cell.contents), Pos(r + 1, CellWidth(cell)), pen.attrs))
  {
    hide Exec, Run, WellFormed, Surface, Inked, Paired, EndDrawn;
    OnIsValid(t, rows, pen);
    var r, row := pen.pos.row, rows[pen.pos.row + 1];
    var u, v := Shown(t, rows, pen.pos, pen.attrs), Shown(t, Wrap(rows, r), Pos(r + 1, 0), pen.attrs);
    SurfaceIsWellFormed(u);
    WrapCell(u, cell);
    SurfaceIsWellFormed(v);
    DrawEffect(v, cell);
    Continue(t, rows, pen, Scalars(cell.contents), Wrap(rows, r)[r + 1 := Inked(row, 0, cell)],
             Pos(r + 1, CellWidth(cell)), pen.attrs);
  }

  /** The cells of `n` spaces. */
  function SpaceCells(n: nat, attrs: Attrs): (cells: seq<Cell>)
    ensures |cells| == n && forall i :: 0 <= i < n ==> cells[i] == Drawn(SPACE, attrs)
  {
    seq(n, _ => Drawn(SPACE, attrs))
  }

  lemma SpaceIsValid(attrs: Attrs)
    requires attrs.WellFormed()
    ensures ValidCell(Drawn(SPACE, attrs)) && Scalars(Drawn(SPACE, attrs).contents) == [Print(SPACE)]
  {
  }

  lemma BackspaceOn(t: Screen, rows: seq<Row>, pen: Pen)
    requires On(t, rows, pen) && pen.pos.col > 0
    ensures On(t, rows, Pen(pen.out + [Backspace], Pos(pen.pos.row, pen.pos.col - 1), pen.attrs))
  {
    hide Exec, Run, WellFormed, Surface;
    OnIsValid(t, rows, pen);
    var u := Shown(t, rows, pen.pos, pen.attrs);
    SurfaceIsWellFormed(u);
    RunOne(u, Backspace);
    ExecBackspace(u);
    Continue(t, rows, pen, [Backspace], rows, Pos(pen.pos.row, pen.pos.col - 1), pen.attrs);
  }

  lemma RestyleNothing(attrs: Attrs)
    requires attrs.WellFormed()
    ensures Restyle(attrs, attrs) == []
  {
    SgrRoundTrip(attrs, attrs);
  }

  /** One more space where the cursor stands. */
  lemma SpaceOn(t: Screen, rows: seq<Row>, row: nat, want: seq<Cell>, shown: seq<Cell>, j: nat, pen: Pen,
                line: Row, flag: bool, cut: bool)
    returns (next: Row)
    requires RowState(t, rows, row, want, shown, j, RowPainter(pen, None, false), line, flag, cut)
    requires pen.pos == Pos(row, j) && j < |want| && want[j] == Drawn(SPACE, pen.attrs)
    ensures RowState(t, rows, row, want, shown, j + 1,
                     RowPainter(Pen(pen.out + [Print(SPACE)], Pos(row, j + 1), pen.attrs), None, false),
                     next, flag, cut)
  {
    hide RowState, Restyle, ValidContents;
    var p := RowPainter(pen, None, false);
    assert pen.attrs.WellFormed() by { StateStyle(t, rows, row, want, shown, j, p, line, flag, cut); }
    SpaceIsValid(pen.attrs);
    RestyleNothing(pen.attrs);
    next := DrawStep(t, rows, row, want, shown, j, p, line, flag, cut);
    assert DrawCell(pen, want[j], Pos(row, j), false, |want|)
      == Pen(pen.out + [Print(SPACE)], Pos(row, j + 1), pen.attrs);
  }

  lemma StateStyle(t: Screen, rows: seq<Row>, row: nat, cells: seq<Cell>, shown: seq<Cell>, k: nat, p: RowPainter,
                   line: Row, flag: bool, cut: bool)
    requires RowState(t, rows, row, cells, shown, k, p, line, flag, cut)
    ensures p.pen.attrs.WellFormed() && ValidPair(cells, shown) && |cells| == t.grid.cols
  {
    hide Run, Exec, Surface, Progress, FlagNow, ValidContents, Paired;
    OnIsValid(t, rows[row := line], p.pen);
  }

  lemma {:induction false} SpacesOn(t: Screen, rows: seq<Row>, row: nat, want: seq<Cell>, shown: seq<Cell>, j: nat,
                                    n: nat, pen: Pen,
                                    line: Row, flag: bool, cut: bool)
    returns (next: Row)
    requires RowState(t, rows, row, want, shown, j, RowPainter(pen, None, false), line, flag, cut)
    requires pen.pos == Pos(row, j) && j + n <= |want|
    requires forall i :: j <= i < j + n ==> want[i] == Drawn(SPACE, pen.attrs)
    ensures RowState(t, rows, row, want, shown, j + n,
                     RowPainter(Pen(pen.out + Spaces(n), Pos(row, j + n), pen.attrs), None, false), next, flag, cut)
    decreases n
  {
    hide RowState;
    if n == 0 {
      next := line;
      assert pen.out + Spaces(0) == pen.out;
    } else {
      var mid := SpaceOn(t, rows, row, want, shown, j, pen, line, flag, cut);
      next := SpacesOn(t, rows, row, want, shown, j + 1, n - 1,
                       Pen(pen.out + [Print(SPACE)], Pos(row, j + 1), pen.attrs), mid, flag, cut);
      assert pen.out + [Print(SPACE)] + Spaces(n - 1) == pen.out + Spaces(n);
    }
  }

  // ------------------------------------------------------------- the loop, unrolled

  /** The pen stands past the end of the row above. */
  predicate Carrying(pen: Pen, row: nat, cols: nat) {
    pen.pos.row + 1 == row && pen.pos.col >= cols
  }

  lemma HomeCell(p: RowPainter, cell: Cell, shown: Cell, at: Pos, cols: nat)
    requires cell.attrs.WellFormed() && PainterReady(p, at.col) && p.pen.pos.row == at.row
    ensures PaintCell(p, cell, shown, at, true, cols) == PaintCell(p, cell, shown, at, false, cols)
    ensures PaintCell(p, cell, shown, at, false, cols).pen.pos.row == at.row
  {
    hide Restyle, Scalars, EraseCount;
  }

  lemma {:induction false} HomeCells(p: RowPainter, cells: seq<Cell>, shown: seq<Cell>, row: nat, k: nat)
    requires ValidPair(cells, shown) && k <= |cells| && PainterReady(p, k) && p.pen.pos.row == row
    ensures PaintCells(p, cells, shown, row, k, true) == PaintCells(p, cells, shown, row, k, false)
    ensures PaintCells(p, cells, shown, row, k, false).pen.pos.row == row
    decreases |cells| - k
  {
    hide PaintCell, ValidContents, Paired;
    if k < |cells| {
      assert ValidCell(cells[k]);
      HomeCell(p, cells[k], shown[k], Pos(row, k), |cells|);
      HomeCells(PaintCell(p, cells[k], shown[k], Pos(row, k), false, |cells|), cells, shown, row, k + 1);
    }
  }

  /** Once on the row itself, characters of any width are painted as on any row. */
  lemma HomeRest(p: RowPainter, cells: seq<Cell>, shown: seq<Cell>, row: nat, k: nat)
    requires ValidPair(cells, shown) && k <= |cells| && PainterReady(p, k) && p.pen.pos.row == row
    ensures PaintRest(p, cells, shown, row, k, true) == PaintRest(p, cells, shown, row, k, false)
  {
    hide PaintCells, Restyle, ValidContents, Paired;
    HomeCells(p, cells, shown, row, k);
  }

  function FirstChange(cells: seq<Cell>, shown: seq<Cell>): (k: nat)
    requires |cells| == |shown|
    ensures k <= |cells| && (forall i :: 0 <= i < k ==> cells[i] == shown[i])
    ensures k < |cells| ==> cells[k] != shown[k]
  {
    if cells == [] || cells[0] != shown[0] then 0 else 1 + FirstChange(cells[1..], shown[1..])
  }

  /** The painter on its way through unchanged columns. */
  function Skipping(pen: Pen, cells: seq<Cell>, j: nat): RowPainter
    requires j <= |cells|
  {
    RowPainter(pen, None, j > 0 && cells[j - 1].wide)
  }

  lemma ChangeStarts(cells: seq<Cell>, shown: seq<Cell>, k: nat)
    requires ValidPair(cells, shown) && k == FirstChange(cells, shown)
    ensures k > 0 ==> !cells[k - 1].wide
    ensures k < |cells| ==> !cells[k].continuation && !shown[k].continuation
  {
    hide ValidContents, FirstChange;
    if k > 0 { assert PairedAt(cells, k - 1) && PairedAt(shown, k - 1); }
    if k < |cells| { assert PairedAt(cells, k) && PairedAt(shown, k) && ValidCell(cells[k]) && ValidCell(shown[k]); }
  }

  lemma {:induction false} SkipUnchanged(pen: Pen, cells: seq<Cell>, shown: seq<Cell>, row: nat, j: nat, wrapping: bool)
    requires ValidPair(cells, shown) && pen.attrs.WellFormed() && j <= FirstChange(cells, shown)
    ensures PaintCells(Skipping(pen, cells, j), cells, shown, row, j, wrapping)
            == PaintCells(RowPainter(pen, None, false), cells, shown, row, FirstChange(cells, shown), wrapping)
    decreases |cells| - j
  {
    hide Flush, DrawCell, ValidContents, FirstChange;
    var k := FirstChange(cells, shown);
    if j == k {
      ChangeStarts(cells, shown, k);
    } else {
      assert ValidCell(cells[j]) && PairedAt(cells, j);
      if j > 0 { assert PairedAt(cells, j - 1); }
      assert PaintCell(Skipping(pen, cells, j), cells[j], shown[j], Pos(row, j), wrapping, |cells|)
        == Skipping(pen, cells, j + 1);
      SkipUnchanged(pen, cells, shown, row, j + 1, wrapping);
    }
  }

  lemma SkipToChange(pen: Pen, cells: seq<Cell>, shown: seq<Cell>, row: nat, wrapping: bool)
    requires ValidPair(cells, shown) && pen.attrs.WellFormed()
    ensures PaintRest(RowPainter(pen, None, false), cells, shown, row, 0, wrapping)
            == PaintRest(RowPainter(pen, None, false), cells, shown, row, FirstChange(cells, shown), wrapping)
  {
    hide PaintCells, Flush, ValidCells, FirstChange;
    SkipUnchanged(pen, cells, shown, row, 0, wrapping);
  }

  /** Where a run of pending blanks ends. */
  function RunEnd(cells: seq<Cell>, k: nat, pending: Pending): (m: nat)
    requires k <= |cells|
    ensures k <= m <= |cells| && (forall i :: k <= i < m ==> !EndsErase(cells[i], pending))
    ensures m < |cells| ==> EndsErase(cells[m], pending)
    decreases |cells| - k
  {
    if k == |cells| || EndsErase(cells[k], pending) then k else RunEnd(cells, k + 1, pending)
  }

  lemma {:induction false} SkipPending(pen: Pen, pending: Pending, cells: seq<Cell>, shown: seq<Cell>, row: nat,
                                       j: nat, m: nat, wrapping: bool)
    requires ValidPair(cells, shown) && PainterReady(RowPainter(pen, Some(pending), false), j) && j <= m <= |cells|
    requires forall i :: j <= i < m ==> !EndsErase(cells[i], pending)
    ensures PaintCells(RowPainter(pen, Some(pending), false), cells, shown, row, j, wrapping)
            == PaintCells(RowPainter(pen, Some(pending), false), cells, shown, row, m, wrapping)
    decreases m - j
  {
    hide Flush, DrawCell, ValidContents, Paired;
    if j < m {
      assert ValidCell(cells[j]);
      assert PaintCell(RowPainter(pen, Some(pending), false), cells[j], shown[j], Pos(row, j), wrapping, |cells|)
             == RowPainter(pen, Some(pending), false);
      SkipPending(pen, pending, cells, shown, row, j + 1, m, wrapping);
    }
  }

  lemma BlankRun(cells: seq<Cell>, k: nat, m: nat)
    requires ValidCells(cells, |cells|) && k < m <= |cells| && cells[k].contents == [] && !cells[k].continuation
    requires forall i :: k < i < m ==> !EndsErase(cells[i], Pending(k, cells[k].attrs))
    ensures cells[k].attrs.WellFormed() && forall i :: k <= i < m ==> cells[i] == Blank(cells[k].attrs)
  {
    hide ValidContents;
    forall i | k <= i < m ensures cells[i] == Blank(cells[k].attrs) {
      if k < i { assert ValidCell(cells[i - 1]) && PairedAt(cells, i); }
      BlankHere(cells, i);
    }
  }

  /** A changed blank at `k` starts a pending erase, which is written at the end of
      its run; the loop goes on from there. */
  lemma BlankFrom(pen: Pen, cells: seq<Cell>, shown: seq<Cell>, row: nat, k: nat, m: nat, wrapping: bool)
    requires ValidPair(cells, shown) && pen.attrs.WellFormed() && k < |cells| && cells[k] != shown[k]
    requires cells[k].contents == [] && !cells[k].continuation
    requires m == RunEnd(cells, k + 1, Pending(k, cells[k].attrs))
    ensures k < m && forall i :: k <= i < m ==> cells[i] == Blank(cells[k].attrs)
    ensures cells[k].attrs.WellFormed()
    ensures
      var erase := if m == |cells| then [EraseInLine(0)] else EraseCount(m - k);
      var flushed := RowPainter(Flush(pen, Pending(k, cells[k].attrs), row, wrapping, |cells|, erase), None, false);
      PaintRest(RowPainter(pen, None, false), cells, shown, row, k, wrapping)
        == PaintRest(flushed, cells, shown, row, m, false)
  {
    hide Flush, DrawCell, ValidContents, Paired, Restyle, EraseCount, EndsErase;
    var pending := Pending(k, cells[k].attrs);
    BlankRun(cells, k, m);
    var p := RowPainter(pen, Some(pending), false);
    assert PaintCell(RowPainter(pen, None, false), cells[k], shown[k], Pos(row, k), wrapping, |cells|) == p;
    SkipPending(pen, pending, cells, shown, row, k + 1, m, wrapping);
    if m < |cells| { FlushThenGo(pen, pending, cells, shown, row, m, wrapping); }
  }

  /** The cell that ends a pending erase is handled as if the erase had been
      written before it. */
  lemma FlushThenGo(pen: Pen, pending: Pending, cells: seq<Cell>, shown: seq<Cell>, row: nat, m: nat, wrapping: bool)
    requires ValidPair(cells, shown) && m < |cells| && PainterReady(RowPainter(pen, Some(pending), false), m)
    requires EndsErase(cells[m], pending)
    ensures PaintRest(RowPainter(pen, Some(pending), false), cells, shown, row, m, wrapping)
            == PaintRest(RowPainter(Flush(pen, pending, row, wrapping, |cells|, EraseCount(m - pending.col)),
                                    None, false),
                         cells, shown, row, m, false)
  {
    hide Flush, DrawCell, ValidContents, Paired, Restyle;
    assert ValidCell(cells[m]);
    var flushed := Flush(pen, pending, row, wrapping, |cells|, EraseCount(m - pending.col));
    FlushStyle(pen, pending, row, wrapping, |cells|, EraseCount(m - pending.col));
    var p, q := RowPainter(pen, Some(pending), false), RowPainter(flushed, None, false);
    assert PaintCell(p, cells[m], shown[m], Pos(row, m), wrapping, |cells|)
      == PaintCell(q, cells[m], shown[m], Pos(row, m), wrapping, |cells|);
    if wrapping { HomeRest(q, cells, shown, row, m); }
  }

  lemma FlushStyle(pen: Pen, pending: Pending, row: nat, wrapping: bool, cols: nat, erase: seq<Command>)
    requires pending.attrs.WellFormed()
    ensures Flush(pen, pending, row, wrapping, cols, erase).attrs == pending.attrs
    ensures Flush(pen, pending, row, wrapping, cols, erase).pos == Pos(row, pending.col)
  {
  }

  /** A changed cell with contents at `k` is drawn, and the loop goes on. */
  lemma DrawFrom(pen: Pen, cells: seq<Cell>, shown: seq<Cell>, row: nat, k: nat, wrapping: bool)
    requires ValidPair(cells, shown) && pen.attrs.WellFormed() && k < |cells| && cells[k] != shown[k]
    requires cells[k].contents != []
    ensures ValidCell(cells[k])
    ensures PaintRest(RowPainter(pen, None, false), cells, shown, row, k, wrapping)
            == PaintRest(RowPainter(DrawCell(pen, cells[k], Pos(row, k), wrapping, |cells|), None, cells[k].wide),
                         cells, shown, row, k + 1, false)
  {
    hide Flush, ValidContents, Paired, Restyle, Scalars;
    assert ValidCell(cells[k]);
    var q := RowPainter(DrawCell(pen, cells[k], Pos(row, k), wrapping, |cells|), None, cells[k].wide);
    assert PaintCell(RowPainter(pen, None, false), cells[k], shown[k], Pos(row, k), wrapping, |cells|) == q;
    if wrapping { HomeRest(q, cells, shown, row, k + 1); }
  }

  /** Columns before `m` do not matter to the loop from `m` on. */
  lemma {:induction false} SameRest(p: RowPainter, cells: seq<Cell>, want: seq<Cell>, shown: seq<Cell>, row: nat,
                                    m: nat, wrapping: bool)
    requires |want| == |cells| == |shown| && ValidCells(cells, |cells|) && ValidCells(want, |want|)
    requires m <= |cells| && PainterReady(p, m) && forall i :: m <= i < |cells| ==> want[i] == cells[i]
    ensures PaintCells(p, want, shown, row, m, wrapping) == PaintCells(p, cells, shown, row, m, wrapping)
    decreases |cells| - m
  {
    hide PaintCell, ValidContents, Paired;
    if m < |cells| {
      assert ValidCell(cells[m]);
      SameRest(PaintCell(p, cells[m], shown[m], Pos(row, m), wrapping, |cells|), cells, want, shown, row, m + 1,
               wrapping);
    }
  }
}
