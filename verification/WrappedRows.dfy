/** Rows next to soft-wrapped rows: exactly what the painter makes of them. */
module WrappedRows {
  import opened Wrappers
  import opened Attributes
  import opened Cells
  import opened Screens
  import opened Painter
  import opened Painting
  import opened RowPainting
  import opened CarriedPainting

  /** The first cell is drawn without moving, so that it wraps. */
  predicate CarriesDraw(pen: Pen, cells: seq<Cell>, shown: seq<Cell>, row: nat)
    requires |cells| == |shown| >= 2
  {
    && cells[0] != shown[0] && cells[0].contents != []
    && pen.pos.row + 1 == row && pen.pos.col + (if cells[0].wide then 1 else 0) >= |cells|
  }

  /** The first change is an erase, reached by drawing spaces that wrap. */
  predicate CarriesErase(pen: Pen, cells: seq<Cell>, shown: seq<Cell>, row: nat)
    requires |cells| == |shown|
  {
    var k := FirstChange(cells, shown);
    Carrying(pen, row, |cells|) && k < |cells| && cells[k].contents == []
  }

  /** Painting this row marks the row above as wrapped. */
  predicate Touches(pen: Pen, cells: seq<Cell>, shown: seq<Cell>, row: nat, wrapping: bool)
    requires |cells| == |shown| >= 2
  {
    wrapping && (CarriesDraw(pen, cells, shown, row) || CarriesErase(pen, cells, shown, row))
  }

  /** How many columns the spaces overwrite. */
  function Zone(pen: Pen, cells: seq<Cell>, shown: seq<Cell>, row: nat, wrapping: bool): (k: nat)
    requires |cells| == |shown|
    ensures k <= |cells| && (k > 0 ==> k < |cells|)
  {
    if wrapping && CarriesErase(pen, cells, shown, row) then FirstChange(cells, shown) else 0
  }

  /** What the row ends up holding. */
  function Ending(pen: Pen, cells: seq<Cell>, shown: seq<Cell>, row: nat, wrapping: bool): (r: seq<Cell>)
    requires |cells| == |shown|
    ensures |r| == |cells|
  {
    var zone := Zone(pen, cells, shown, row, wrapping);
    SpaceCells(zone, pen.attrs) + cells[zone..]
  }

  /** Painting loses the flag of a wrapped row: the wide character at its end is cut
      from the left.  On two columns a space carried over breaks it up before. */
  predicate Loses(pen: Pen, cells: seq<Cell>, shown: seq<Cell>, row: nat, wrapping: bool)
    requires |cells| == |shown| >= 2
  {
    Cut(cells, shown) && !(|cells| == 2 && wrapping && Carrying(pen, row, 2))
  }

  // ------------------------------------------------------------ carrying an erase

  lemma EndingCellIsValid(cells: seq<Cell>, want: seq<Cell>, k: nat, attrs: Attrs, i: nat)
    requires ValidCells(cells, |cells|) && |want| == |cells| && k <= |cells| && i < |cells|
    requires ValidCell(Drawn(SPACE, attrs))
    requires forall j :: 0 <= j < |cells| ==> want[j] == if j < k then Drawn(SPACE, attrs) else cells[j]
    requires k < |cells| ==> !cells[k].continuation
    ensures ValidCell(want[i]) && PairedAt(want, i)
  {
    hide ValidCell, Paired;
    assert ValidCell(cells[i]);
    CellPaired(cells, i);
  }

  lemma CellPaired(cells: seq<Cell>, i: nat)
    requires ValidCells(cells, |cells|) && i < |cells|
    ensures PairedAt(cells, i)
  {
    hide ValidCell;
  }

  lemma EndingIsValid(cells: seq<Cell>, shown: seq<Cell>, k: nat, attrs: Attrs)
    requires ValidPair(cells, shown) && k == FirstChange(cells, shown) && attrs.WellFormed()
    ensures ValidPair(SpaceCells(k, attrs) + cells[k..], shown)
  {
    hide ValidCell, PairedAt, FirstChange;
    ChangeStarts(cells, shown, k);
    SpaceIsValid(attrs);
    var want := SpaceCells(k, attrs) + cells[k..];
    assert forall i :: 0 <= i < |cells| ==> want[i] == if i < k then Drawn(SPACE, attrs) else cells[i];
    forall i | 0 <= i < |want| ensures ValidCell(want[i]) && PairedAt(want, i) {
      EndingCellIsValid(cells, want, k, attrs, i);
    }
  }

  /** The first space, carried over onto a row with something before its first change. */
  lemma FirstSpaceOn(t: Screen, rows: seq<Row>, pen: Pen, want: seq<Cell>, row: nat)
    returns (line: Row)
    requires On(t, rows, pen) && 0 < row < |rows| && Carrying(pen, row, t.grid.cols) && EndDrawn(rows[row - 1])
    requires FlagFits(rows[row])
    requires |want| == t.grid.cols >= 2 && ValidPair(want, rows[row].cells) && want[0] == Drawn(SPACE, pen.attrs)
    ensures RowState(t, Wrap(rows, row - 1), row, want, rows[row].cells, 1,
                     RowPainter(Pen(pen.out + [Print(SPACE)], Pos(row, 1), pen.attrs), None, false), line,
                     rows[row].wrapped, Cut(want, rows[row].cells))
  {
    hide Run, Exec, Surface, On, Inked, Progress, FlagNow, ValidContents, Wrap, EndDrawn, Cut;
    var shown, space := rows[row], Drawn(SPACE, pen.attrs);
    assert pen.pos.col == t.grid.cols && pen.attrs.WellFormed() && ValidRow(shown, t.grid.cols) by {
      OnIsValid(t, rows, pen);
    }
    SpaceIsValid(pen.attrs);
    CarryInk(t, rows, pen, space);
    line := Inked(shown, 0, space);
    assert PairedAt(want, 0) && PairedAt(shown.cells, 0);
    StartProgress(want, shown.cells);
    StartFlag(shown, want);
    assert shown == Row(shown.cells, shown.wrapped);
    DrawProgress(shown.cells, shown.wrapped, want, shown.cells, 0);
    DrawFlag(shown.cells, shown.wrapped, shown.wrapped, Cut(want, shown.cells), want, shown.cells, 0);
  }

  lemma StartProgress(cells: seq<Cell>, shown: seq<Cell>)
    requires ValidPair(cells, shown) && |cells| > 0
    ensures Progress(shown, cells, shown, 0)
  {
    hide ValidContents;
    assert PairedAt(cells, 0) && PairedAt(shown, 0);
  }

  lemma StartFlag(shown: Row, cells: seq<Cell>)
    requires ValidPair(cells, shown.cells) && |cells| >= 2 && FlagFits(shown)
    ensures FlaggedPair(shown.wrapped, Cut(cells, shown.cells), cells, shown.cells, 0)
    ensures FlagNow(shown.wrapped, shown.wrapped, Cut(cells, shown.cells), cells, 0)
  {
    hide ValidContents, Paired;
  }

  /** A space drawn in the first column. */
  lemma SpaceInked(shown: Row, attrs: Attrs)
    requires |shown.cells| >= 2 && ValidRow(shown, |shown.cells|) && attrs.WellFormed()
    ensures
      var inked := Inked(shown, 0, Drawn(SPACE, attrs));
      && ValidRow(inked, |shown.cells|) && inked.wrapped == shown.wrapped
      && (forall i :: 2 <= i < |shown.cells| ==> inked.cells[i] == shown.cells[i])
      && (if shown.cells[1].continuation then !inked.cells[1].continuation && !inked.cells[1].wide
          else inked.cells[1] == shown.cells[1])
  {
    SpaceIsValid(attrs);
    PutNarrowIsValid(shown.cells, 0, SPACE, attrs);
    assert Inked(shown, 0, Drawn(SPACE, attrs)).cells == PutNarrow(shown.cells, 0, SPACE, attrs);
    assert PairedAt(shown.cells, 0) && PairedAt(shown.cells, 1);
  }

  /** Erasing the first columns. */
  lemma FrontErased(line: Row, m: nat, attrs: Attrs)
    requires ValidRow(line, |line.cells|) && 0 < m <= |line.cells| && attrs.WellFormed()
    ensures
      var r := EraseRange(line, 0, m, attrs);
      && |r.cells| == |line.cells| && r.cells[..m] == Blanks(m, attrs)
      && (forall i :: m < i < |line.cells| ==> r.cells[i] == line.cells[i])
      && (m < |line.cells| && line.cells[m].continuation ==> !r.cells[m].continuation && !r.cells[m].wide)
      && (m < |line.cells| && !line.cells[m].continuation ==> r.cells[m] == line.cells[m])
      && r.wrapped == (line.wrapped && m < |line.cells| && !(m == |line.cells| - 1 && line.cells[m].continuation))
  {
    hide ValidContents;
  }

  /** A space drawn in the first column and erased again with what follows. */
  lemma ErasedSpace(shown: Row, cells: seq<Cell>, m: nat, space: Attrs, attrs: Attrs)
    requires ValidPair(cells, shown.cells) && |cells| >= 2 && FlagFits(shown) && space.WellFormed()
    requires attrs.WellFormed()
    requires 0 < m <= |cells| && forall i :: 0 <= i < m ==> cells[i] == Blank(attrs)
    ensures ValidRow(Inked(shown, 0, Drawn(SPACE, space)), |cells|)
    ensures
      var line := EraseRange(Inked(shown, 0, Drawn(SPACE, space)), 0, m, attrs);
      var cut := Cut(cells, shown.cells) && |cells| > 2;
      && Progress(line.cells, cells, shown.cells, m) && FlaggedPair(shown.wrapped, cut, cells, shown.cells, m)
      && FlagNow(line.wrapped, shown.wrapped, cut, cells, m)
  {
    hide ValidCell, Inked, EraseRange, Paired;
    var n, inked := |cells|, Inked(shown, 0, Drawn(SPACE, space));
    SpaceInked(shown, space);
    FrontErased(inked, m, attrs);
    var line := EraseRange(inked, 0, m, attrs);
    assert line.cells[..m] == cells[..m];
    assert cells[m - 1] == Blank(attrs);
    if m < n {
      CellPaired(cells, m);
      CellPaired(shown.cells, 1);
      ContinuationIsNarrow(shown.cells, m);
    }
  }

  lemma ContinuationIsNarrow(cells: seq<Cell>, i: nat)
    requires ValidCells(cells, |cells|) && i < |cells|
    ensures cells[i].continuation ==> !cells[i].wide
  {
    hide ValidContents, Paired;
    assert ValidCell(cells[i]);
  }

  /** The erase at the very start of the row: a space, back, and the erase. */
  lemma EraseAtStartOn(t: Screen, rows: seq<Row>, pen: Pen, cells: seq<Cell>, row: nat, m: nat, attrs: Attrs,
                       erase: seq<Command>)
    returns (line: Row)
    requires On(t, rows, pen) && 0 < row < |rows| && Carrying(pen, row, t.grid.cols) && EndDrawn(rows[row - 1])
    requires FlagFits(rows[row])
    requires |cells| == t.grid.cols >= 2 && ValidPair(cells, rows[row].cells) && attrs.WellFormed()
    requires 0 < m <= |cells| && forall i :: 0 <= i < m ==> cells[i] == Blank(attrs)
    requires erase == if m == |cells| then [EraseInLine(0)] else EraseCount(m)
    ensures RowState(t, Wrap(rows, row - 1), row, cells, rows[row].cells, m,
                     RowPainter(Flush(pen, Pending(0, attrs), row, true, |cells|, erase), None, false), line,
                     rows[row].wrapped, Cut(cells, rows[row].cells) && |cells| > 2)
  {
    hide Run, Exec, Surface, On, Inked, Progress, FlagNow, FlaggedPair, ValidContents, Wrap, EndDrawn, Cut, Restyle,
      EraseRange, EraseCount;
    var shown, n, space, above := rows[row], |cells|, Drawn(SPACE, pen.attrs), Wrap(rows, row - 1);
    assert pen.pos.col == n && pen.attrs.WellFormed() && ValidRow(shown, n) by { OnIsValid(t, rows, pen); }
    SpaceIsValid(pen.attrs);
    CarryInk(t, rows, pen, space);
    ErasedSpace(shown, cells, m, pen.attrs, attrs);
    var inked := Inked(shown, 0, space);
    var carried := Pen(pen.out + [Print(SPACE)], Pos(row, 1), pen.attrs);
    BackspaceOn(t, above[row := inked], carried);
    var back := Pen(carried.out + [Backspace], Pos(row, 0), pen.attrs);
    FlushOn(t, above, row, back, inked, Pending(0, attrs), m, erase);
    line := EraseRange(inked, 0, m, attrs);
    assert pen.out + [Print(SPACE)] + [Backspace] + [] == pen.out + [Print(SPACE), Backspace];
    assert Flush(back, Pending(0, attrs), row, false, n, erase) == Flush(pen, Pending(0, attrs), row, true, n, erase);
  }

  /** The erase further on: spaces up to it. */
  lemma EraseLaterOn(t: Screen, rows: seq<Row>, pen: Pen, want: seq<Cell>, row: nat, k: nat, m: nat, attrs: Attrs,
                     erase: seq<Command>)
    returns (line: Row)
    requires On(t, rows, pen) && 0 < row < |rows| && Carrying(pen, row, t.grid.cols) && EndDrawn(rows[row - 1])
    requires FlagFits(rows[row])
    requires |want| == t.grid.cols >= 2 && ValidPair(want, rows[row].cells) && attrs.WellFormed()
    requires 0 < k < m <= |want| && forall i :: k <= i < m ==> want[i] == Blank(attrs)
    requires forall i :: 0 <= i < k ==> want[i] == Drawn(SPACE, pen.attrs)
    requires erase == if m == |want| then [EraseInLine(0)] else EraseCount(m - k)
    ensures RowState(t, Wrap(rows, row - 1), row, want, rows[row].cells, m,
                     RowPainter(Flush(pen, Pending(k, attrs), row, true, |want|, erase), None, false), line,
                     rows[row].wrapped, Cut(want, rows[row].cells))
  {
    hide Run, Exec, Surface, On, Progress, FlagNow, FlaggedPair, ValidContents, Wrap, EndDrawn, Cut, Restyle,
      EraseCount;
    var shown, above, cut := rows[row], Wrap(rows, row - 1), Cut(want, rows[row].cells);
    var first := FirstSpaceOn(t, rows, pen, want, row);
    var one := Pen(pen.out + [Print(SPACE)], Pos(row, 1), pen.attrs);
    var spaced := SpacesOn(t, above, row, want, shown.cells, 1, k - 1, one, first, shown.wrapped, cut);
    var all := Pen(one.out + Spaces(k - 1), Pos(row, k), pen.attrs);
    assert all.out == pen.out + Spaces(k);
    var p := RowPainter(all, Some(Pending(k, attrs)), false);
    assert RowState(t, above, row, want, shown.cells, m, p, spaced, shown.wrapped, cut);
    line := FlushStep(t, above, row, want, shown.cells, m, p, spaced, shown.wrapped, cut, erase);
    assert all.out + [] == all.out;
    assert Flush(all, Pending(k, attrs), row, false, |want|, erase)
      == Flush(pen, Pending(k, attrs), row, true, |want|, erase);
  }

  // --------------------------------------------------------------------- the columns

  /** On two columns a cut comes with a first change to a blank. */
  lemma CutOfTwo(cells: seq<Cell>, shown: seq<Cell>)
    requires ValidPair(cells, shown) && |cells| == 2 && Cut(cells, shown)
    ensures FirstChange(cells, shown) == 0 && cells[0].contents == []
  {
    hide ValidContents;
    assert PairedAt(shown, 1) && ValidCell(cells[0]) && ValidCell(shown[0]);
  }

  lemma EndingAt(pen: Pen, cells: seq<Cell>, shown: seq<Cell>, row: nat, wrapping: bool)
    requires |cells| == |shown|
    ensures
      var zone, want := Zone(pen, cells, shown, row, wrapping), Ending(pen, cells, shown, row, wrapping);
      forall i :: 0 <= i < |cells| ==> want[i] == if i < zone then Drawn(SPACE, pen.attrs) else cells[i]
  {
    hide Zone;
  }

  /** The overwritten columns do not reach where the flag is decided. */
  lemma EndingFlag(pen: Pen, cells: seq<Cell>, shown: seq<Cell>, row: nat, flag: bool)
    requires ValidPair(cells, shown) && |cells| >= 2 && CarriesErase(pen, cells, shown, row)
    ensures
      var k, want := FirstChange(cells, shown), Ending(pen, cells, shown, row, true);
      var cut := if k == 0 then Cut(cells, shown) && |cells| > 2 else Cut(want, shown);
      EndFlag(flag, cut, want) == EndFlag(flag, Loses(pen, cells, shown, row, true), cells)
  {
    hide ValidContents, FirstChange;
    var n, k, want := |cells|, FirstChange(cells, shown), Ending(pen, cells, shown, row, true);
    EndingAt(pen, cells, shown, row, true);
    ChangeStarts(cells, shown, k);
    if k == 0 {
      assert want == cells;
    } else {
      if n == 2 && Cut(cells, shown) { CutOfTwo(cells, shown); }
      if k == n - 1 { assert !EndsDrawn(want) && !EndsDrawn(cells); }
    }
  }

  /** The whole loop when its first action is an erase carried over. */
  lemma ErasedColumns(t: Screen, rows: seq<Row>, pen: Pen, cells: seq<Cell>, row: nat)
    requires On(t, rows, pen) && 0 < row < |rows| && |cells| == t.grid.cols >= 2 && ValidPair(cells, rows[row].cells)
    requires EndDrawn(rows[row - 1]) && FlagFits(rows[row]) && CarriesErase(pen, cells, rows[row].cells, row)
    ensures pen.attrs.WellFormed()
    ensures
      var shown := rows[row].cells;
      var line := Row(Ending(pen, cells, shown, row, true),
                      EndFlag(rows[row].wrapped, Loses(pen, cells, shown, row, true), cells));
      On(t, Wrap(rows, row - 1)[row := line], PaintRest(RowPainter(pen, None, false), cells, shown, row, 0, true))
  {
    hide Run, Exec, Surface, On, RowState, PaintRest, Flush, EraseCount, EndFlag, Cut, EndDrawn, Wrap, ValidContents,
      Paired, FirstChange, Ending, Loses;
    var shown, n, above := rows[row].cells, |cells|, Wrap(rows, row - 1);
    var k, want := FirstChange(cells, shown), Ending(pen, cells, shown, row, true);
    assert pen.attrs.WellFormed() by { OnIsValid(t, rows, pen); }
    ChangeStarts(cells, shown, k);
    var attrs := cells[k].attrs;
    var m := RunEnd(cells, k + 1, Pending(k, attrs));
    BlankFrom(pen, cells, shown, row, k, m, true);
    SkipToChange(pen, cells, shown, row, true);
    var erase := if m == n then [EraseInLine(0)] else EraseCount(m - k);
    var q := RowPainter(Flush(pen, Pending(k, attrs), row, true, n, erase), None, false);
    FlushStyle(pen, Pending(k, attrs), row, true, n, erase);
    var cut := if k == 0 then Cut(cells, shown) && n > 2 else Cut(want, shown);
    var line;
    WantIs(pen, cells, shown, row, k);
    if k == 0 {
      line := EraseAtStartOn(t, rows, pen, cells, row, m, attrs, erase);
    } else {
      line := EraseLaterOn(t, rows, pen, want, row, k, m, attrs, erase);
    }
    RestTracks(t, above, row, want, shown, m, q, line, rows[row].wrapped, cut);
    assert PaintRest(q, want, shown, row, m, false) == PaintRest(q, cells, shown, row, m, false) by {
      RestAgrees(q, cells, want, shown, row, m);
    }
    EndingFlag(pen, cells, shown, row, rows[row].wrapped);
  }

  lemma RestAgrees(q: RowPainter, cells: seq<Cell>, want: seq<Cell>, shown: seq<Cell>, row: nat, m: nat)
    requires |want| == |cells| == |shown| && ValidCells(cells, |cells|) && ValidCells(want, |want|)
    requires m <= |cells| && PainterReady(q, m) && forall i :: m <= i < |cells| ==> want[i] == cells[i]
    ensures PaintRest(q, want, shown, row, m, false) == PaintRest(q, cells, shown, row, m, false)
  {
    hide PaintCells, ValidContents, Paired;
    SameRest(q, cells, want, shown, row, m, false);
  }

  lemma WantIs(pen: Pen, cells: seq<Cell>, shown: seq<Cell>, row: nat, k: nat)
    requires ValidPair(cells, shown) && |cells| >= 2 && CarriesErase(pen, cells, shown, row)
    requires k == FirstChange(cells, shown)
    requires pen.attrs.WellFormed()
    ensures
      var want := Ending(pen, cells, shown, row, true);
      && |want| == |cells| && ValidPair(want, shown) && (k == 0 ==> want == cells)
      && forall i :: 0 <= i < |cells| ==> want[i] == if i < k then Drawn(SPACE, pen.attrs) else cells[i]
  {
    hide ValidContents, Paired, FirstChange;
    EndingIsValid(cells, shown, k, pen.attrs);
    EndingAt(pen, cells, shown, row, true);
  }

  /** The whole loop when its first action is a first cell carried over. */
  lemma DrawnColumns(t: Screen, rows: seq<Row>, pen: Pen, cells: seq<Cell>, row: nat)
    requires On(t, rows, pen) && 0 < row < |rows| && |cells| == t.grid.cols >= 2 && ValidPair(cells, rows[row].cells)
    requires EndDrawn(rows[row - 1]) && FlagFits(rows[row]) && CarriesDraw(pen, cells, rows[row].cells, row)
    ensures pen.attrs.WellFormed()
    ensures On(t, Wrap(rows, row - 1)
                    [row := Row(cells, EndFlag(rows[row].wrapped, Cut(cells, rows[row].cells), cells))],
               PaintRest(RowPainter(pen, None, false), cells, rows[row].cells, row, 0, true))
  {
    hide Run, Exec, Surface, On, Inked, Progress, FlagNow, PaintRest, DrawCell, EndFlag, Cut, EndDrawn, Wrap,
      ValidContents;
    var shown, cell, above, cut := rows[row], cells[0], Wrap(rows, row - 1), Cut(cells, rows[row].cells);
    assert pen.attrs.WellFormed() && ValidRow(shown, t.grid.cols) by { OnIsValid(t, rows, pen); }
    DrawFrom(pen, cells, shown.cells, row, 0, true);
    CarriedInk(t, rows, pen, cell, row);
    var line := Inked(shown, 0, cell);
    assert PairedAt(cells, 0);
    StartProgress(cells, shown.cells);
    StartFlag(shown, cells);
    assert shown == Row(shown.cells, shown.wrapped);
    DrawProgress(shown.cells, shown.wrapped, cells, shown.cells, 0);
    DrawFlag(shown.cells, shown.wrapped, shown.wrapped, cut, cells, shown.cells, 0);
    var q := RowPainter(DrawCell(pen, cell, Pos(row, 0), true, |cells|), None, cell.wide);
    RestTracks(t, above, row, cells, shown.cells, 1, q, line, shown.wrapped, cut);
  }

  lemma CarriedInk(t: Screen, rows: seq<Row>, pen: Pen, cell: Cell, row: nat)
    requires On(t, rows, pen) && 0 < row < |rows| && pen.pos.row + 1 == row
    requires pen.pos.col + CellWidth(cell) > t.grid.cols >= 2
    requires ValidCell(cell) && cell.contents != [] && ValidRow(rows[row], t.grid.cols) && EndDrawn(rows[row - 1])
    ensures On(t, Wrap(rows, row - 1)[row := Inked(rows[row], 0, cell)],
               DrawCell(pen, cell, Pos(row, 0), true, t.grid.cols))
  {
    hide Run, Exec, Surface, On, ValidContents, Restyle, Scalars, Inked, EndDrawn, Wrap;
    assert pen.attrs.WellFormed() by { OnIsValid(t, rows, pen); }
    RestyleOn(t, rows, pen, cell.attrs);
    var styled := Pen(pen.out + Restyle(cell.attrs, pen.attrs), pen.pos, cell.attrs);
    CarryInk(t, rows, styled, cell);
    assert pen.out + [] + Restyle(cell.attrs, pen.attrs) + Scalars(cell.contents)
      == styled.out + Scalars(cell.contents);
  }

  /** Where nothing is carried over the special cases do nothing. */
  lemma PlainLoop(pen: Pen, cells: seq<Cell>, shown: seq<Cell>, row: nat)
    requires ValidPair(cells, shown) && |cells| >= 2 && pen.attrs.WellFormed() && !Touches(pen, cells, shown, row, true)
    ensures PaintRest(RowPainter(pen, None, false), cells, shown, row, 0, true)
            == PaintRest(RowPainter(pen, None, false), cells, shown, row, 0, false)
  {
    hide PaintCells, ValidContents, Paired, Restyle, Scalars, EraseCount, FirstChange;
    var k := FirstChange(cells, shown);
    SkipToChange(pen, cells, shown, row, true);
    SkipToChange(pen, cells, shown, row, false);
    if k < |cells| {
      if cells[k].contents != [] {
        DrawFrom(pen, cells, shown, row, k, true);
        DrawFrom(pen, cells, shown, row, k, false);
      } else {
        ChangeStarts(cells, shown, k);
        var m := RunEnd(cells, k + 1, Pending(k, cells[k].attrs));
        BlankFrom(pen, cells, shown, row, k, m, true);
        BlankFrom(pen, cells, shown, row, k, m, false);
      }
    } else {
      EmptyRest(pen, cells, shown, row, true);
      EmptyRest(pen, cells, shown, row, false);
    }
  }

  lemma EmptyRest(pen: Pen, cells: seq<Cell>, shown: seq<Cell>, row: nat, wrapping: bool)
    requires ValidPair(cells, shown) && pen.attrs.WellFormed()
    ensures PaintRest(RowPainter(pen, None, false), cells, shown, row, |cells|, wrapping) == pen
  {
  }

  function WrapIf(rows: seq<Row>, row: nat, wrap: bool): (w: seq<Row>)
    requires row < |rows| && (wrap ==> 0 < row)
    ensures |w| == |rows| && w[row] == rows[row]
  {
    if wrap then Wrap(rows, row - 1) else rows
  }

  /** Painting the columns of any row, exactly. */
  lemma ColumnsOn(t: Screen, rows: seq<Row>, pen: Pen, cells: seq<Cell>, row: nat, wrapping: bool)
    requires On(t, rows, pen) && row < |rows| && |cells| == t.grid.cols >= 2 && ValidPair(cells, rows[row].cells)
    requires FlagFits(rows[row])
    requires wrapping ==> 0 < row && EndDrawn(rows[row - 1])
    ensures pen.attrs.WellFormed()
    ensures
      var shown := rows[row].cells;
      var line := Row(Ending(pen, cells, shown, row, wrapping),
                      EndFlag(rows[row].wrapped, Loses(pen, cells, shown, row, wrapping), cells));
      On(t, WrapIf(rows, row, Touches(pen, cells, shown, row, wrapping))[row := line],
         PaintColumns(pen, cells, shown, row, wrapping))
  {
    hide Run, Exec, Surface, On, Wrap, PaintCells, Flush, EndFlag, EndDrawn, ValidContents, Paired, FirstChange, Cut;
    var shown, p := rows[row].cells, RowPainter(pen, None, false);
    assert pen.attrs.WellFormed() by { OnIsValid(t, rows, pen); }
    assert PaintColumns(pen, cells, shown, row, wrapping) == PaintRest(p, cells, shown, row, 0, wrapping);
    if wrapping && CarriesErase(pen, cells, shown, row) {
      ErasedColumns(t, rows, pen, cells, row);
    } else {
      EndingAt(pen, cells, shown, row, wrapping);
      assert Ending(pen, cells, shown, row, wrapping) == cells;
      assert Loses(pen, cells, shown, row, wrapping) == Cut(cells, shown) by {
        if |cells| == 2 && Cut(cells, shown) { CutOfTwo(cells, shown); }
      }
      if wrapping && CarriesDraw(pen, cells, shown, row) {
        DrawnColumns(t, rows, pen, cells, row);
      } else {
        if wrapping { PlainLoop(pen, cells, shown, row); }
        PaintColumnsTrack(t, rows, row, pen, cells);
      }
    }
  }
}
