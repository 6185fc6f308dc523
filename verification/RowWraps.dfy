/** Rows that start, keep or stop being soft-wrapped: redrawing their ends. */
module RowWraps {
  import opened Wrappers
  import opened Attributes
  import opened Cells
  import opened Screens
  import opened Painter
  import opened Painting
  import opened RowPainting
  import opened ScreenPainting
  import opened CarriedPainting
  import opened WrappedRows

  // ------------------------------------------------------------- the first cell again

  lemma BackOverOn(t: Screen, rows: seq<Row>, pen: Pen, cell: Cell)
    requires On(t, rows, pen) && pen.pos.col == CellWidth(cell)
    ensures On(t, rows, Pen(pen.out + (if cell.wide then [Backspace, Backspace] else [Backspace]),
                            Pos(pen.pos.row, 0), pen.attrs))
  {
    hide On;
    BackspaceOn(t, rows, pen);
    if cell.wide {
      BackspaceOn(t, rows, Pen(pen.out + [Backspace], Pos(pen.pos.row, 1), pen.attrs));
      assert pen.out + [Backspace] + [Backspace] == pen.out + [Backspace, Backspace];
    }
  }

  lemma SameRow(rows: seq<Row>, row: nat)
    requires 0 < row < |rows|
    ensures Wrap(rows, row - 1)[row := rows[row]] == Wrap(rows, row - 1)
  {
  }

  /** A space carried over onto a blank and erased again. */
  lemma BlankAgain(row: Row)
    requires |row.cells| >= 2 && ValidRow(row, |row.cells|) && row.cells[0].contents == [] && !row.cells[0].continuation
    ensures row.cells[0].attrs.WellFormed() && ValidRow(Inked(row, 0, Drawn(SPACE, row.cells[0].attrs)), |row.cells|)
    ensures EraseRange(Inked(row, 0, Drawn(SPACE, row.cells[0].attrs)), 0, 1, row.cells[0].attrs) == row
  {
    hide ValidContents, EraseRange, Inked, Paired;
    BlankHere(row.cells, 0);
    var attrs := row.cells[0].attrs;
    CellPaired(row.cells, 1);
    SpaceInked(row, attrs);
    FrontErased(Inked(row, 0, Drawn(SPACE, attrs)), 1, attrs);
    var again := EraseRange(Inked(row, 0, Drawn(SPACE, attrs)), 0, 1, attrs);
    assert again.cells[0] == again.cells[..1][0] == Blank(attrs);
    assert again.cells == row.cells;
  }

  /** Redrawing an unchanged first cell only makes the row above wrapped. */
  lemma RedrawFirstOn(t: Screen, rows: seq<Row>, pen: Pen, row: nat)
    requires On(t, rows, pen) && 0 < row < |rows| && Carrying(pen, row, t.grid.cols) && EndDrawn(rows[row - 1])
    requires ValidRow(rows[row], t.grid.cols) && t.grid.cols >= 2
    ensures ValidCell(rows[row].cells[0])
    ensures On(t, Wrap(rows, row - 1), RedrawFirst(pen, rows[row].cells[0], row))
  {
    hide Run, Exec, Surface, ValidContents, Restyle, EraseCount, On, Wrap, Scalars, Inked, EndDrawn, EraseRange;
    var line, above := rows[row], Wrap(rows, row - 1);
    var cell := line.cells[0];
    assert ValidCell(cell) && PairedAt(line.cells, 0);
    assert pen.pos.col == t.grid.cols by { OnIsValid(t, rows, pen); }
    RestyleOn(t, rows, pen, cell.attrs);
    var styled := Pen(pen.out + Restyle(cell.attrs, pen.attrs), pen.pos, cell.attrs);
    SameRow(rows, row);
    if cell.contents != [] {
      CarryInk(t, rows, styled, cell);
      InkedSame(line, 0);
      BackOverOn(t, above, Pen(styled.out + Scalars(cell.contents), Pos(row, CellWidth(cell)), cell.attrs), cell);
      assert RedrawFirst(pen, cell, row).out
        == styled.out + Scalars(cell.contents) + (if cell.wide then [Backspace, Backspace] else [Backspace]);
    } else {
      SpaceIsValid(cell.attrs);
      CarryInk(t, rows, styled, Drawn(SPACE, cell.attrs));
      BlankAgain(line);
      var inked := above[row := Inked(line, 0, Drawn(SPACE, cell.attrs))];
      BackOverOn(t, inked, Pen(styled.out + [Print(SPACE)], Pos(row, 1), cell.attrs), cell);
      EraseOn(t, inked, Pen(styled.out + [Print(SPACE)] + [Backspace], Pos(row, 0), cell.attrs), 1, EraseCount(1));
      assert inked[row := line] == above[row := line];
      assert RedrawFirst(pen, cell, row).out == styled.out + [Print(SPACE)] + [Backspace] + EraseCount(1);
    }
  }

  // -------------------------------------------------------------- the last cell again

  lemma EndGlyph(row: Row)
    requires |row.cells| >= 2 && ValidRow(row, |row.cells|) && EndDrawn(row)
    ensures row.cells[LastGlyph(row)].contents != []
  {
    hide ValidContents;
    var n := |row.cells|;
    assert PairedAt(row.cells, n - 1) && ValidCell(row.cells[n - 2]);
  }

  /** The two rows end in the same character. */
  predicate SameEnd(a: Row, b: Row) {
    && |a.cells| == |b.cells| >= 2
    && a.cells[|a.cells| - 1] == b.cells[|a.cells| - 1]
    && (a.cells[|a.cells| - 1].continuation ==> a.cells[|a.cells| - 2] == b.cells[|a.cells| - 2])
  }

  lemma GlyphAgainOn(t: Screen, rows: seq<Row>, pen: Pen, cell: Cell)
    requires On(t, rows, pen) && pen.pos.row < |rows| && ValidRow(rows[pen.pos.row], t.grid.cols) && 2 <= t.grid.cols
    requires ValidCell(cell) && cell.contents != [] && pen.pos.col + CellWidth(cell) == t.grid.cols
    ensures On(t, rows[pen.pos.row := Inked(rows[pen.pos.row], pen.pos.col, cell)],
               Pen(pen.out + Restyle(cell.attrs, pen.attrs) + Scalars(cell.contents),
                   Pos(pen.pos.row, t.grid.cols), cell.attrs))
  {
    hide Run, Exec, Surface, ValidContents, Restyle, Scalars, On, Inked;
    RestyleOn(t, rows, pen, cell.attrs);
    InkOn(t, rows, Pen(pen.out + Restyle(cell.attrs, pen.attrs), pen.pos, cell.attrs), cell);
  }

  /** A row that starts being wrapped: the cursor is left past its end. */
  lemma StartWrapOn(t: Screen, rows: seq<Row>, pen: Pen, target: Row, row: nat)
    requires On(t, rows, pen) && row < |rows| && |target.cells| == t.grid.cols && ValidRow(target, t.grid.cols)
    requires SameEnd(rows[row], target) && target.wrapped && EndDrawn(target)
    ensures pen.attrs.WellFormed()
    ensures On(t, rows, RedrawLast(pen, target, row)) && RedrawLast(pen, target, row).pos == Pos(row, t.grid.cols)
  {
    hide Run, Exec, Surface, ValidContents, Restyle, Scalars, On, MoveFromTo, EndDrawn, Inked, Paired;
    var line, g := rows[row], LastGlyph(target);
    assert pen.attrs.WellFormed() && row < t.grid.height && ValidRow(line, t.grid.cols) by { OnIsValid(t, rows, pen); }
    EndGlyph(target);
    LastGlyphEnds(target);
    var cell, at := target.cells[g], Pos(row, g);
    assert ValidCell(cell);
    MoveOn(t, rows, pen, at);
    var moved := Pen(pen.out + MoveFromTo(pen.pos, at), at, pen.attrs);
    GlyphAgainOn(t, rows, moved, cell);
    InkedSame(line, g);
    assert rows[row := line] == rows && moved.out + [] == moved.out;
  }

  /** Erasing one column of the last character and drawing it again. */
  lemma EraseInk(line: Row, attrs: Attrs)
    requires |line.cells| >= 2 && ValidRow(line, |line.cells|) && EndDrawn(line) && attrs.WellFormed()
    ensures
      var g := LastGlyph(line);
      && line.cells[g].contents != [] && g + CellWidth(line.cells[g]) == |line.cells|
      && Inked(EraseRange(line, g, g + 1, attrs), g, line.cells[g]) == line.(wrapped := false)
  {
    hide ValidContents;
    EndGlyph(line);
    LastGlyphEnds(line);
    var n, g := |line.cells|, LastGlyph(line);
    assert ValidCell(line.cells[g]) && PairedAt(line.cells, g) && ValidCell(line.cells[n - 1])
      && PairedAt(line.cells, n - 1);
    var erased := EraseRange(line, g, g + 1, attrs);
    assert PairedAt(erased.cells, g) && ValidRow(erased, n);
    assert forall i :: 0 <= i < g ==> erased.cells[i] == line.cells[i];
    assert Inked(erased, g, line.cells[g]).cells == line.cells;
  }

  lemma EraseBlankEnd(line: Row, attrs: Attrs)
    requires |line.cells| >= 2 && ValidRow(line, |line.cells|) && line.cells[|line.cells| - 1] == Blank(attrs)
    requires attrs.WellFormed()
    ensures EraseRange(line, |line.cells| - 1, |line.cells|, attrs) == line.(wrapped := false)
  {
    hide ValidContents;
    var n := |line.cells|;
    assert EraseRange(line, n - 1, n, attrs).cells == line.cells;
  }

  /** A row that stops being wrapped: its last character is erased and drawn again. */
  lemma StopWrapOn(t: Screen, rows: seq<Row>, pen: Pen, target: Row, row: nat)
    requires On(t, rows, pen) && row < |rows| && |target.cells| == t.grid.cols && ValidRow(target, t.grid.cols)
    requires SameEnd(rows[row], target) && !target.wrapped
    requires !EndDrawn(target) ==> pen.attrs == target.cells[t.grid.cols - 1].attrs
    ensures pen.attrs.WellFormed()
    ensures On(t, rows[row := rows[row].(wrapped := false)], RedrawLast(pen, target, row))
  {
    hide Run, Exec, Surface, ValidContents, Restyle, Scalars, On, MoveFromTo, EraseCount, EraseRange, Inked, Paired;
    var line, n, g := rows[row], t.grid.cols, LastGlyph(target);
    assert pen.attrs.WellFormed() && row < t.grid.height && ValidRow(line, n) by { OnIsValid(t, rows, pen); }
    var at := Pos(row, g);
    MoveOn(t, rows, pen, at);
    var moved := Pen(pen.out + MoveFromTo(pen.pos, at), at, pen.attrs);
    EraseOn(t, rows, moved, g + 1, EraseCount(1));
    var erased := EraseRange(line, g, g + 1, pen.attrs);
    var next, cleared := rows[row := erased], Pen(moved.out + EraseCount(1), at, pen.attrs);
    assert ValidCell(target.cells[g]);
    if EndDrawn(target) {
      EraseInk(line, pen.attrs);
      GlyphAgainOn(t, next, cleared, target.cells[g]);
      assert next[row := line.(wrapped := false)] == rows[row := line.(wrapped := false)];
    } else {
      BlankHere(target.cells, n - 1);
      EraseBlankEnd(line, pen.attrs);
    }
  }

  // ------------------------------------------------------------------- the whole row

  /** A changed last column without contents is erased last, in its own style. */
  lemma {:induction false} LastBlankStyle(p: RowPainter, cells: seq<Cell>, shown: seq<Cell>, row: nat, k: nat,
                                          wrapping: bool)
    requires ValidPair(cells, shown) && k < |cells| && PainterReady(p, k) && p.skip == (k > 0 && cells[k - 1].wide)
    requires cells[|cells| - 1].contents == [] && !cells[|cells| - 1].continuation
    requires cells[|cells| - 1] != shown[|cells| - 1]
    ensures PaintRest(p, cells, shown, row, k, wrapping).attrs == cells[|cells| - 1].attrs
    decreases |cells| - k
  {
    hide Flush, DrawCell, ValidContents;
    assert ValidCell(cells[k]) && PairedAt(cells, k);
    if k > 0 { assert PairedAt(cells, k - 1); }
    var q := PaintCell(p, cells[k], shown[k], Pos(row, k), wrapping, |cells|);
    if k + 1 < |cells| {
      LastBlankStyle(q, cells, shown, row, k + 1, wrapping);
    } else {
      assert q.erase.Some? && q.erase.value.attrs == cells[k].attrs;
      assert PaintCells(q, cells, shown, row, k + 1, wrapping) == q;
      FlushStyle(q.pen, q.erase.value, row, wrapping, |cells|, [EraseInLine(0)]);
    }
  }

  /** Where the pen stands once an unchanged first cell was redrawn, if it was. */
  function Started(pen: Pen, target: Row, shown: Row, row: nat, wrapping: bool, wasWrapping: bool): (r: Pen)
    requires |target.cells| == |shown.cells| >= 2 && ValidRow(target, |target.cells|) && pen.attrs.WellFormed()
    ensures r.attrs.WellFormed()
  {
    assert ValidCell(target.cells[0]);
    if wrapping && !wasWrapping && target.cells[0] == shown.cells[0] && Carrying(pen, row, |target.cells|)
    then RedrawFirst(pen, target.cells[0], row) else pen
  }

  /** Painting the row marks the row above as wrapped. */
  predicate Marks(pen: Pen, target: Row, shown: Row, row: nat, wrapping: bool, wasWrapping: bool)
    requires |target.cells| == |shown.cells| >= 2
  {
    wrapping && (!wasWrapping || Touches(pen, target.cells, shown.cells, row, true))
  }

  /** The row keeps being wrapped but painting it loses its flag. */
  predicate Forgets(pen: Pen, target: Row, shown: Row, row: nat, wrapping: bool, wasWrapping: bool)
    requires |target.cells| == |shown.cells| >= 2 && ValidRow(target, |target.cells|) && pen.attrs.WellFormed()
  {
    target.wrapped && shown.wrapped
    && Loses(Started(pen, target, shown, row, wrapping, wasWrapping), target.cells, shown.cells, row, wrapping)
  }

  /** What row `row` ends up as, before the next row is painted. */
  function RowEnding(pen: Pen, target: Row, shown: Row, row: nat, wrapping: bool, wasWrapping: bool): (r: Row)
    requires |target.cells| == |shown.cells| >= 2 && ValidRow(target, |target.cells|) && pen.attrs.WellFormed()
    ensures |r.cells| == |target.cells|
  {
    Row(Ending(Started(pen, target, shown, row, wrapping, wasWrapping), target.cells, shown.cells, row, wrapping),
        target.wrapped && shown.wrapped && !Forgets(pen, target, shown, row, wrapping, wasWrapping))
  }

  lemma EndingKeepsEnd(pen: Pen, cells: seq<Cell>, shown: seq<Cell>, row: nat, wrapping: bool, a: bool, b: bool)
    requires ValidPair(cells, shown) && |cells| >= 2
    ensures SameEnd(Row(Ending(pen, cells, shown, row, wrapping), a), Row(cells, b))
  {
    hide ValidContents, FirstChange, Ending;
    var zone, n := Zone(pen, cells, shown, row, wrapping), |cells|;
    EndingAt(pen, cells, shown, row, wrapping);
    assert ValidCell(cells[n - 2]) && PairedAt(cells, n - 1);
    if zone > 0 { ChangeStarts(cells, shown, zone); assert cells[zone].contents == []; }
  }

  /** What remains after the columns: a change of the flag. */
  lemma FinishRow(t: Screen, rows: seq<Row>, pen: Pen, target: Row, shown: Row, row: nat, line: Row, loses: bool)
    requires row < |rows| && On(t, rows[row := line], pen) && ValidRow(target, t.grid.cols) && SameEnd(line, target)
    requires |target.cells| == t.grid.cols && FlagFits(target)
    requires line.wrapped == EndFlag(shown.wrapped, loses, target.cells)
    requires !target.wrapped && shown.wrapped && !EndDrawn(target) ==> pen.attrs == target.cells[t.grid.cols - 1].attrs
    ensures pen.attrs.WellFormed()
    ensures
      var r := if target.wrapped != shown.wrapped then RedrawLast(pen, target, row) else pen;
      && On(t, rows[row := line.(wrapped := target.wrapped && shown.wrapped && !loses)], r)
      && (target.wrapped && !shown.wrapped ==> r.pos == Pos(row, t.grid.cols))
  {
    hide Run, Exec, Surface, On, RedrawLast, ValidContents, Paired, SameEnd;
    var now := rows[row := line];
    assert pen.attrs.WellFormed() by { OnIsValid(t, now, pen); }
    assert EndDrawn(target) == EndsDrawn(target.cells);
    if target.wrapped && !shown.wrapped {
      StartWrapOn(t, now, pen, target, row);
      assert line == line.(wrapped := false);
    } else if !target.wrapped && shown.wrapped {
      StopWrapOn(t, now, pen, target, row);
      assert now[row := line.(wrapped := false)] == rows[row := line.(wrapped := false)];
    } else {
      assert line == line.(wrapped := target.wrapped && shown.wrapped && !loses);
    }
  }

  lemma LastStyle(pen: Pen, target: Row, shown: Row, row: nat, wrapping: bool)
    requires |target.cells| == |shown.cells| >= 2 && ValidRow(target, |target.cells|) && ValidRow(shown, |shown.cells|)
    requires pen.attrs.WellFormed()
    requires shown.wrapped && FlagFits(shown) && !EndDrawn(target)
    ensures PaintColumns(pen, target.cells, shown.cells, row, wrapping).attrs == target.cells[|target.cells| - 1].attrs
  {
    hide PaintCells, Flush, ValidContents, Paired;
    LastBlankStyle(RowPainter(pen, None, false), target.cells, shown.cells, row, 0, wrapping);
  }

  /** The columns after the first cell was redrawn, if it was. */
  lemma StartedOn(t: Screen, rows: seq<Row>, pen: Pen, target: Row, row: nat, wrapping: bool, wasWrapping: bool)
    requires On(t, rows, pen) && row < |rows| && |target.cells| == t.grid.cols >= 2 && ValidRow(target, t.grid.cols)
    requires ValidRow(rows[row], t.grid.cols)
    requires wrapping ==> 0 < row && EndDrawn(rows[row - 1])
    requires wrapping && !wasWrapping ==> Carrying(pen, row, t.grid.cols)
    ensures pen.attrs.WellFormed() && |rows[row].cells| == t.grid.cols
    ensures
      var shown, started := rows[row], Started(pen, target, rows[row], row, wrapping, wasWrapping);
      var redrawn := wrapping && !wasWrapping && target.cells[0] == shown.cells[0];
      && On(t, WrapIf(rows, row, redrawn), started)
      && (redrawn || Touches(started, target.cells, shown.cells, row, wrapping))
        == Marks(pen, target, shown, row, wrapping, wasWrapping)
      && (redrawn ==> !Touches(started, target.cells, shown.cells, row, wrapping))
  {
    hide Run, Exec, Surface, On, Wrap, EndDrawn, ValidContents, Paired, Restyle, Scalars, EraseCount;
    assert pen.attrs.WellFormed() && ValidRow(rows[row], t.grid.cols) by { OnIsValid(t, rows, pen); }
    var shown := rows[row];
    if wrapping && !wasWrapping {
      if target.cells[0] == shown.cells[0] { RedrawFirstOn(t, rows, pen, row); }
    }
  }

  /** Painting one row, wrapped or not, above or below wrapped rows. */
  lemma RowOn(t: Screen, rows: seq<Row>, pen: Pen, target: Row, row: nat, wrapping: bool, wasWrapping: bool)
    requires On(t, rows, pen) && row < |rows| && |target.cells| == t.grid.cols >= 2 && ValidRow(target, t.grid.cols)
    requires ValidRow(rows[row], t.grid.cols) && FlagFits(target) && FlagFits(rows[row])
    requires wrapping ==> 0 < row && EndDrawn(rows[row - 1])
    requires wrapping && !wasWrapping ==> Carrying(pen, row, t.grid.cols)
    ensures pen.attrs.WellFormed() && |rows[row].cells| == t.grid.cols
    ensures
      var shown := rows[row];
      var r := PaintRow(pen, target, shown, row, wrapping, wasWrapping);
      && On(t, WrapIf(rows, row, Marks(pen, target, shown, row, wrapping, wasWrapping))
              [row := RowEnding(pen, target, shown, row, wrapping, wasWrapping)], r)
      && (target.wrapped && !shown.wrapped ==> r.pos == Pos(row, t.grid.cols))
  {
    hide Run, Exec, Surface, On, Wrap, PaintColumns, RedrawFirst, RedrawLast, Ending, EndFlag, EndDrawn, ValidContents,
      Paired, Touches, Loses, SameEnd;
    var shown, cols := rows[row], t.grid.cols;
    StartedOn(t, rows, pen, target, row, wrapping, wasWrapping);
    assert ValidCell(target.cells[0]);
    var started := Started(pen, target, shown, row, wrapping, wasWrapping);
    var redrawn := wrapping && !wasWrapping && target.cells[0] == shown.cells[0];
    var above := WrapIf(rows, row, redrawn);
    if wrapping { StillDrawn(rows, row, redrawn); }
    ColumnsOn(t, above, started, target.cells, row, wrapping);
    var loses := Loses(started, target.cells, shown.cells, row, wrapping);
    var want, painted := Ending(started, target.cells, shown.cells, row, wrapping),
      PaintColumns(started, target.cells, shown.cells, row, wrapping);
    var line := Row(want, EndFlag(shown.wrapped, loses, target.cells));
    var touched := Touches(started, target.cells, shown.cells, row, wrapping);
    var base := WrapIf(above, row, touched);
    assert base == WrapIf(rows, row, Marks(pen, target, shown, row, wrapping, wasWrapping));
    EndingKeepsEnd(started, target.cells, shown.cells, row, wrapping, line.wrapped, target.wrapped);
    assert target == Row(target.cells, target.wrapped);
    if shown.wrapped && !EndDrawn(target) { LastStyle(started, target, shown, row, wrapping); }
    FinishRow(t, base, painted, target, shown, row, line, loses);
  }

  lemma StillDrawn(rows: seq<Row>, row: nat, wrap: bool)
    requires 0 < row < |rows| && EndDrawn(rows[row - 1])
    ensures EndDrawn(WrapIf(rows, row, wrap)[row - 1])
  {
  }
}
