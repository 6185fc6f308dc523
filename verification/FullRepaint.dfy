/** Full repaints: characters of any width, soft wraps included. */
module FullRepaints {
  import opened Wrappers
  import opened Attributes
  import opened Cells
  import opened Screens
  import opened Painter
  import opened Painting
  import opened RowPainting
  import opened ScreenPainting
  import opened Frames
  import opened CarriedPainting
  import opened WrappedRows
  import opened RowWraps
  import opened WrapFlags

  // -------------------------------------------------------------------------- one row

  lemma BlankCells(n: nat)
    ensures ValidCells(Blanks(n, PLAIN), n)
  {
    assert ValidRow(NewRow(n), n);
  }

  /** On a blank row nothing is overwritten and no flag can be lost. */
  lemma BlankRowEnding(pen: Pen, cells: seq<Cell>, row: nat, wrapping: bool)
    requires |cells| >= 2 && (wrapping ==> cells[0] != EMPTY || !Carrying(pen, row, |cells|))
    ensures Ending(pen, cells, Blanks(|cells|, PLAIN), row, wrapping) == cells
  {
    assert SpaceCells(0, pen.attrs) + cells[0..] == cells;
  }

  /** One row of a full repaint, whatever the row above asked for. */
  lemma FormatRowOn(t: Screen, rows: seq<Row>, pen: Pen, target: Row, row: nat, wrapping: bool)
    requires On(t, rows, pen) && row < |rows| && rows[row] == NewRow(t.grid.cols)
    requires ValidRow(target, t.grid.cols) && |target.cells| == t.grid.cols >= 2
    requires wrapping ==> 0 < row && Carrying(pen, row, t.grid.cols) && EndDrawn(rows[row - 1])
    ensures pen.attrs.WellFormed()
    ensures On(t, WrapIf(rows, row, wrapping)[row := Row(target.cells, false)], FormatRow(pen, target, row, wrapping))
  {
    hide Run, Exec, Surface, PaintColumns, ValidContents, Wrap, On, EndDrawn, Paired, RedrawFirst, Ending, Loses;
    var cells, shown, n := target.cells, Blanks(t.grid.cols, PLAIN), t.grid.cols;
    assert pen.attrs.WellFormed() by { OnIsValid(t, rows, pen); }
    BlankCells(n);
    var redrawn := wrapping && cells[0] == EMPTY;
    if redrawn { RedrawFirstOn(t, rows, pen, row); StillDrawn(rows, row, true); }
    var started := if redrawn then RedrawFirst(pen, EMPTY, row) else pen;
    assert redrawn ==> started.pos == Pos(row, 0) by { RedrawnAt(pen, row); }
    ColumnsOn(t, WrapIf(rows, row, redrawn), started, cells, row, wrapping);
    BlankRowEnding(started, cells, row, wrapping);
    assert wrapping ==> redrawn != Touches(started, cells, shown, row, wrapping);
  }

  lemma RedrawnAt(pen: Pen, row: nat)
    ensures RedrawFirst(pen, EMPTY, row).pos == Pos(row, 0)
  {
  }

  // ------------------------------------------------- where a drawn row leaves the pen

  /** A row ending in a drawn character leaves the pen past its end. */
  lemma {:induction false} DrawnEnd(p: RowPainter, cells: seq<Cell>, row: nat, k: nat, wrapping: bool)
    requires ValidCells(cells, |cells|) && 2 <= |cells| && EndDrawn(Row(cells, false)) && PainterReady(p, k)
    requires k <= LastGlyph(Row(cells, false)) && (p.skip ==> 0 < k && cells[k - 1].wide)
    ensures
      var q := PaintCells(p, cells, Blanks(|cells|, PLAIN), row, k, wrapping);
      q.pen.pos == Pos(row, |cells|) && q.erase.None?
    decreases |cells| - k
  {
    hide Flush, Restyle, Scalars;
    var n, last, shown := |cells|, LastGlyph(Row(cells, false)), Blanks(|cells|, PLAIN);
    assert ValidCell(cells[k]) && PairedAt(cells, k);
    var q := PaintCell(p, cells[k], shown[k], Pos(row, k), wrapping, n);
    if k < last {
      DrawnEnd(q, cells, row, k + 1, wrapping);
    } else {
      LastGlyphEnds(Row(cells, false));
      assert ValidCell(cells[n - 1]) && PairedAt(cells, n - 1);
      assert cells[k].contents != [] && !cells[k].continuation;
      assert k > 0 ==> PairedAt(cells, k - 1);
      assert q.pen.pos == Pos(row, n) && q.erase.None? && q.skip == cells[k].wide;
      if k + 1 < n {
        assert PaintCell(q, cells[k + 1], shown[k + 1], Pos(row, k + 1), wrapping, n) == q.(skip := false);
        assert PaintCells(q.(skip := false), cells, shown, row, n, wrapping) == q.(skip := false);
        assert PaintCells(q, cells, shown, row, k + 1, wrapping) == q.(skip := false);
      }
    }
  }

  lemma FormatRowEnds(pen: Pen, target: Row, row: nat, wrapping: bool)
    requires |target.cells| >= 2 && ValidRow(target, |target.cells|) && pen.attrs.WellFormed() && EndDrawn(target)
    ensures FormatRow(pen, target, row, wrapping).pos == Pos(row, |target.cells|)
  {
    hide PaintCells, RedrawFirst;
    var started := if wrapping && target.cells[0] == EMPTY then RedrawFirst(pen, EMPTY, row) else pen;
    assert started.attrs.WellFormed();
    DrawnEnd(RowPainter(started, None, false), target.cells, row, 0, wrapping);
  }

  // ------------------------------------------------------------------------ all rows

  /** The screen when `i` rows are drawn: the last of them is not yet wrapped. */
  function Laid(target: seq<Row>, i: nat, cols: nat): (rows: seq<Row>)
    requires i <= |target|
    ensures |rows| == |target|
  {
    seq(|target|, j requires 0 <= j < |target| =>
      if j + 1 < i then target[j] else if j + 1 == i then target[j].(wrapped := false) else NewRow(cols))
  }

  predicate AboveWraps(target: seq<Row>, i: nat)
    requires i <= |target|
  {
    i > 0 && target[i - 1].wrapped
  }

  lemma LaidStep(target: seq<Row>, i: nat, cols: nat)
    requires i < |target|
    ensures WrapIf(Laid(target, i, cols), i, AboveWraps(target, i))[i := Row(target[i].cells, false)]
      == Laid(target, i + 1, cols)
  {
  }

  lemma {:induction false} FormatRowsOn(t: Screen, target: seq<Row>, i: nat, pen: Pen)
    requires i <= |target| && 2 <= t.grid.cols && ValidRows(target, t.grid.cols) && FlagsFit(target)
    requires On(t, Laid(target, i, t.grid.cols), pen)
    requires AboveWraps(target, i) ==> Carrying(pen, i, t.grid.cols)
    ensures pen.attrs.WellFormed()
    ensures On(t, target, FormatRows(pen, target, i, t.grid.cols))
    decreases |target| - i
  {
    hide Run, Exec, Surface, FormatRow, ValidContents, Paired, On, Wrap, EndDrawn;
    var cols := t.grid.cols;
    var rows := Laid(target, i, cols);
    assert pen.attrs.WellFormed() by { OnIsValid(t, rows, pen); }
    if i == |target| {
      assert rows == target;
    } else {
      assert ValidRow(target[i], cols) && FlagFits(target[i]);
      var wrapping := AboveWraps(target, i);
      if wrapping { EndStaysDrawn(target[i - 1]); }
      FormatRowOn(t, rows, pen, target[i], i, wrapping);
      LaidStep(target, i, cols);
      var next := FormatRow(pen, target[i], i, wrapping);
      if target[i].wrapped { FormatRowEnds(pen, target[i], i, wrapping); }
      FormatRowsOn(t, target, i + 1, next);
    }
  }

  lemma EndStaysDrawn(row: Row)
    requires FlagFits(row) && row.wrapped
    ensures EndDrawn(row.(wrapped := false))
  {
  }

  /** Rows and cursor on a cleared terminal. */
  lemma BlankRowsPainted(u: Screen, target: Screen)
    requires Surface(u) && WellFormed(target) && SameSize(u, target) && FlagsFit(target.grid.rows)
    requires u.grid.rows == NewRows(u.grid.height, u.grid.cols) && u.grid.pos == Pos(0, 0) && u.attrs == PLAIN
    ensures
      var pen := FormattedRows(target);
      var r := Run(u, pen.out + (PlaceCursor(target.grid, pen) + Restyle(target.attrs, pen.attrs)));
      && Surface(r)
      && OnlyMoved(r, Shown(u, target.grid.rows, pen.pos, target.attrs), target.grid.pos)
  {
    hide Run, Exec, PlaceCursor, Restyle, FormatRows, EndDrawn;
    var rows, pen := target.grid.rows, Pen([], Pos(0, 0), PLAIN);
    RunNil(u);
    assert Laid(rows, 0, u.grid.cols) == u.grid.rows;
    assert Shown(u, u.grid.rows, pen.pos, pen.attrs) == u;
    FormatRowsOn(u, rows, 0, pen);
    FlagsDrawn(rows);
    FinishEffect(u, target, FormattedRows(target));
  }

  lemma FlagsDrawn(rows: seq<Row>)
    requires FlagsFit(rows)
    ensures WrapsDrawn(rows)
  {
    forall i | 0 <= i < |rows| && rows[i].wrapped ensures EndDrawn(rows[i]) {
      assert FlagFits(rows[i]);
    }
  }

  // -------------------------------------------------------------------- the screen

  /** A full repaint shows the target's contents on any terminal: every screen that
      commands lead to, wide characters and soft wraps included. */
  lemma FullContentsRepainted(t: Screen, target: Screen)
    requires Surface(t) && WellFormed(target) && SameSize(t, target) && FlagsFit(target.grid.rows)
    ensures
      var r := Run(t, FullContents(target));
      Surface(r) && SameContents(r, target) && SameInput(r, t)
  {
    hide Run, Exec, PlaceCursor, Restyle, FormatRows, NewRow, FlagsFit;
    var pen := FormattedRows(target);
    var rest := pen.out + (PlaceCursor(target.grid, pen) + Restyle(target.attrs, pen.attrs));
    var clear := [Rendition([]), MoveTo(0, 0), EraseInDisplay(0)];
    assert FullContents(target)
      == [ReverseVideo(target.reverseVideo)] + ([HideCursor(target.hideCursor)] + (clear + rest));
    RunConcat(t, [ReverseVideo(target.reverseVideo)], [HideCursor(target.hideCursor)] + (clear + rest));
    ModeEffect(t, ReverseVideoMode, target.reverseVideo);
    var t1 := t.(reverseVideo := target.reverseVideo);
    RunConcat(t1, [HideCursor(target.hideCursor)], clear + rest);
    ModeEffect(t1, ShowCursorMode, !target.hideCursor);
    var t2 := t1.(hideCursor := target.hideCursor);
    RunConcat(t2, clear, rest);
    ClearEffect(t2);
    BlankRowsPainted(Run(t2, clear), target);
  }

  /** A full repaint from any terminal shows the target, except that it cannot
      turn mouse reporting off: the mouse state is right exactly when the target
      tracks the mouse itself or the terminal was not tracking it. */
  lemma FullRepainted(t: Screen, target: Screen)
    requires Surface(t) && WellFormed(target) && SameSize(t, target) && FlagsFit(target.grid.rows)
    ensures
      var r := Run(t, StateFormatted(target));
      && Surface(r) && SameContents(r, target) && SameKeys(r, target)
      && (SameMouse(r, target) <==>
          && (target.mouse != NoMouse || t.mouse == NoMouse)
          && (target.encoding != DefaultEncoding || t.encoding == DefaultEncoding))
  {
    hide Run, Exec, FullContents, MouseModeChange, MouseEncodingChange, FlagsFit;
    RunConcat(t, FullContents(target), FullInputModes(target));
    FullContentsRepainted(t, target);
    var u := Run(t, FullContents(target));
    var keys := [Keypad(target.keypad), ApplicationCursor(target.applicationCursor),
                 BracketedPaste(target.bracketedPaste)];
    RunConcat(u, keys, MouseModeChange(target.mouse, NoMouse) + MouseEncodingChange(target.encoding, DefaultEncoding));
    FullKeysEffect(u, target);
    MiceEffect(Keyed(u, target), target, NoMouse, DefaultEncoding);
  }

  /** In particular every screen that commands lead to. */
  lemma EveryScreenRepainted(t: Screen, height: nat, cols: nat, commands: seq<Command>)
    requires 2 <= height && 2 <= cols && Surface(t) && t.grid.height == height && t.grid.cols == cols
    ensures
      var target := Run(FreshScreen(height, cols), commands);
      var r := Run(t, StateFormatted(target));
      SameContents(r, target) && SameKeys(r, target)
  {
    hide Run, Exec, StateFormatted, FlagsFit, FreshScreen;
    ReachableFlagsFit(height, cols, commands);
    FullRepainted(t, Run(FreshScreen(height, cols), commands));
  }
}
