/** Placing the cursor once the rows are painted. */
module ScreenPainting {
  import opened Attributes
  import opened Cells
  import opened Screens
  import opened Painter
  import opened Painting
  import opened RowPainting

  predicate NoWraps(rows: seq<Row>) {
    forall i :: 0 <= i < |rows| ==> !rows[i].wrapped
  }

  /** Every wrapped row ends in a drawn character. */
  predicate WrapsDrawn(rows: seq<Row>) {
    forall i :: 0 <= i < |rows| && rows[i].wrapped ==> EndDrawn(rows[i])
  }

  // ------------------------------------------------------------ final position

  lemma InkedSame(row: Row, at: nat)
    requires ValidRow(row, |row.cells|) && at < |row.cells| && row.cells[at].contents != []
    ensures at + CellWidth(row.cells[at]) <= |row.cells|
    ensures Inked(row, at, row.cells[at]) == row
  {
    assert PairedAt(row.cells, at) && ValidCell(row.cells[at]);
    if row.cells[at].wide { assert ValidCell(row.cells[at + 1]); }
    assert Inked(row, at, row.cells[at]).cells == row.cells;
  }

  lemma LastGlyphEnds(row: Row)
    requires |row.cells| >= 2 && ValidRow(row, |row.cells|)
    ensures LastGlyph(row) + CellWidth(row.cells[LastGlyph(row)]) == |row.cells|
  {
    assert PairedAt(row.cells, |row.cells| - 1) && PairedAt(row.cells, |row.cells| - 2);
    assert ValidCell(row.cells[|row.cells| - 1]);
  }

  lemma RewrittenSame(u: Screen, col: nat)
    requires u.grid.pos.row < |u.grid.rows|
    ensures Rewritten(u, u.grid.rows[u.grid.pos.row], col) == Moved(u, Pos(u.grid.pos.row, col))
  {
    assert u.grid.rows[u.grid.pos.row := u.grid.rows[u.grid.pos.row]] == u.grid.rows;
  }

  lemma RunNil(u: Screen)
    requires WellFormed(u)
    ensures Run(u, []) == u
  {
  }

  lemma DrawAgain(v: Screen)
    requires WellFormed(v) && v.grid.pos.col < v.grid.cols
    requires ValidRow(v.grid.rows[v.grid.pos.row], v.grid.cols)
    requires v.grid.pos.col == LastGlyph(v.grid.rows[v.grid.pos.row])
    requires v.grid.rows[v.grid.pos.row].cells[v.grid.pos.col].contents != []
    requires v.attrs == v.grid.rows[v.grid.pos.row].cells[v.grid.pos.col].attrs
    ensures Run(v, Scalars(v.grid.rows[v.grid.pos.row].cells[v.grid.pos.col].contents))
            == Moved(v, Pos(v.grid.pos.row, v.grid.cols))
  {
    hide Exec;
    var line, at := v.grid.rows[v.grid.pos.row], v.grid.pos.col;
    assert ValidCell(line.cells[at]);
    LastGlyphEnds(line);
    DrawEffect(v, line.cells[at]);
    InkedSame(line, at);
    RewrittenSame(v, v.grid.cols);
  }

  /** Drawing a row's last character again leaves the cursor past its end. */
  lemma RedrawEffect(u: Screen, pen: Pen, row: nat)
    requires Surface(u) && u.grid.pos == pen.pos && u.attrs == pen.attrs && row < u.grid.height
    requires ValidRow(u.grid.rows[row], u.grid.cols)
    requires u.grid.rows[row].cells[LastGlyph(u.grid.rows[row])].contents != []
    ensures ValidCell(u.grid.rows[row].cells[LastGlyph(u.grid.rows[row])])
    ensures Run(u, Redraw(pen, u.grid.rows[row].cells[LastGlyph(u.grid.rows[row])],
                          Pos(row, LastGlyph(u.grid.rows[row]))))
            == Moved(u, Pos(row, u.grid.cols))
  {
    hide Exec;
    var at := Pos(row, LastGlyph(u.grid.rows[row]));
    var cell := u.grid.rows[row].cells[at.col];
    assert ValidCell(cell);
    var reach, glyph, back := MoveFromTo(pen.pos, at) + Restyle(cell.attrs, pen.attrs), Scalars(cell.contents),
      Restyle(pen.attrs, cell.attrs);
    RunConcat(u, reach + glyph, back);
    RunConcat(u, reach, glyph);
    ReachEffect(u, at, cell.attrs);
    var v := Moved(u, at).(attrs := cell.attrs);
    DrawAgain(v);
    RestyleEffect(Moved(v, Pos(row, u.grid.cols)), pen.attrs);
  }

  lemma {:induction false} FeedsEffect(u: Screen, n: nat)
    requires Surface(u) && u.grid.pos.row + n < u.grid.height
    ensures Run(u, Feeds(n)) == Moved(u, Pos(u.grid.pos.row + n, u.grid.pos.col))
    decreases n
  {
    hide Exec;
    if n > 0 {
      assert Feeds(n) == [LineFeed] + Feeds(n - 1);
      RunCons(u, LineFeed, Feeds(n - 1));
      FeedEffect(u);
      FeedsEffect(Moved(u, Pos(u.grid.pos.row + 1, u.grid.pos.col)), n - 1);
    }
  }

  /** Only the cursor, and what a terminal saves, may differ. */
  predicate OnlyMoved(r: Screen, u: Screen, pos: Pos) {
    r == u.(grid := u.grid.(pos := pos, savedPos := r.grid.savedPos, savedOrigin := r.grid.savedOrigin),
            savedAttrs := r.savedAttrs)
  }

  lemma ExecSave(u: Screen)
    requires WellFormed(u)
    ensures Exec(u, SaveCursor) == Saved(u)
  {
    hide ExecEditing, Text, SwitchMode, EraseDisplay, EraseLine, EraseCells, Rendered, ValidRows;
  }

  lemma ExecBackspace(u: Screen)
    requires WellFormed(u) && u.grid.pos.col > 0
    ensures Exec(u, Backspace) == Moved(u, Pos(u.grid.pos.row, u.grid.pos.col - 1))
  {
    hide ExecEditing, Text, SwitchMode, EraseDisplay, EraseLine, EraseCells, Rendered, ValidRows;
  }

  lemma ExecRestore(u: Screen)
    requires WellFormed(u)
    ensures Exec(u, RestoreCursor) == Restored(u)
  {
    hide ExecEditing, Text, SwitchMode, EraseDisplay, EraseLine, EraseCells, Rendered, ValidRows;
  }

  /** A space drawn in a blank last column and then erased again in its style. */
  lemma EraseLast(row: Row, drawn: Attrs, attrs: Attrs)
    requires |row.cells| >= 2 && ValidRow(row, |row.cells|) && !row.wrapped
    requires row.cells[|row.cells| - 1] == Blank(attrs) && attrs.WellFormed()
    ensures
      var inked := Inked(row, |row.cells| - 1, Drawn(SPACE, drawn));
      ValidRow(inked, |row.cells|) ==> EraseRange(inked, |row.cells| - 1, |row.cells|, attrs) == row
  {
    var n, space := |row.cells|, Drawn(SPACE, drawn);
    var inked := Inked(row, n - 1, space);
    assert PairedAt(row.cells, n - 1);
    assert inked.cells == row.cells[n - 1 := space];
    if ValidRow(inked, n) {
      assert EraseRange(inked, n - 1, n, attrs).cells == row.cells;
    }
  }

  lemma SpaceEffect(u: Screen)
    requires WellFormed(u) && u.grid.pos.col < u.grid.cols
    requires ValidRow(u.grid.rows[u.grid.pos.row], u.grid.cols)
    ensures ValidCell(Drawn(SPACE, u.attrs))
    ensures Run(u, [Print(SPACE)])
            == Rewritten(u, Inked(u.grid.rows[u.grid.pos.row], u.grid.pos.col, Drawn(SPACE, u.attrs)),
                         u.grid.pos.col + 1)
  {
    hide Exec;
    var space := Drawn(SPACE, u.attrs);
    assert ValidCell(space);
    assert Scalars(space.contents) == [Print(SPACE)];
    DrawEffect(u, space);
  }

  lemma StyledSpaceEffect(u: Screen, attrs: Attrs)
    requires WellFormed(u) && u.grid.pos.col < u.grid.cols && attrs.WellFormed()
    requires ValidRow(u.grid.rows[u.grid.pos.row], u.grid.cols)
    ensures ValidCell(Drawn(SPACE, u.attrs))
    ensures Run(u, [Print(SPACE)] + Restyle(attrs, u.attrs))
            == Rewritten(u, Inked(u.grid.rows[u.grid.pos.row], u.grid.pos.col, Drawn(SPACE, u.attrs)),
                         u.grid.pos.col + 1).(attrs := attrs)
  {
    hide Exec;
    RunConcat(u, [Print(SPACE)], Restyle(attrs, u.attrs));
    SpaceEffect(u);
    RestyleEffect(Run(u, [Print(SPACE)]), attrs);
  }

  lemma StepBackEffect(w: Screen)
    requires WellFormed(w) && w.grid.pos.col > 0
    ensures Run(w, [SaveCursor, Backspace]) == Moved(Saved(w), Pos(w.grid.pos.row, w.grid.pos.col - 1))
  {
    hide Exec, Run, ValidGrid;
    assert [SaveCursor, Backspace] == [SaveCursor] + [Backspace];
    RunCons(w, SaveCursor, [Backspace]);
    ExecSave(w);
    RunOne(Saved(w), Backspace);
    ExecBackspace(Saved(w));
  }

  /** Saving, stepping back, erasing one cell and restoring: only that cell changes. */
  lemma ErasePrevious(w: Screen, row: Row)
    requires WellFormed(w) && !w.grid.origin && w.grid.pos.col == w.grid.cols
    requires ValidRow(w.grid.rows[w.grid.pos.row], w.grid.cols)
    requires EraseRange(w.grid.rows[w.grid.pos.row], w.grid.cols - 1, w.grid.cols, w.attrs) == row
    ensures
      var r := Run(w, [SaveCursor, Backspace] + EraseCount(1) + [RestoreCursor]);
      OnlyMoved(r, Rewritten(w, row, w.grid.cols), Pos(w.grid.pos.row, w.grid.cols))
  {
    hide Exec, Run, EraseRange, ValidRows, ValidRow, EraseCount;
    var cols, i := w.grid.cols, w.grid.pos.row;
    RunConcat(w, [SaveCursor, Backspace] + EraseCount(1), [RestoreCursor]);
    RunConcat(w, [SaveCursor, Backspace], EraseCount(1));
    StepBackEffect(w);
    var y := Moved(Saved(w), Pos(i, cols - 1));
    EraseCellsEffect(y, cols);
    var z := Rewritten(y, row, cols - 1);
    RunOne(z, RestoreCursor);
    ExecRestore(z);
  }

  predicate BlankCorner(row: Row, cols: nat) {
    2 <= cols && ValidRow(row, cols) && !row.wrapped && row.cells[cols - 1] == Blank(row.cells[cols - 1].attrs)
  }

  /** The overflow cursor on a row whose last column was never drawn. */
  lemma BlankCornerEffect(u: Screen, line: Row, last: Attrs)
    requires Surface(u) && u.grid.pos.col == u.grid.cols - 1
    requires line == u.grid.rows[u.grid.pos.row] && BlankCorner(line, u.grid.cols)
    requires last == line.cells[u.grid.cols - 1].attrs && last.WellFormed()
    ensures OnlyMoved(Run(u, Corner(last, u.attrs)), u.(attrs := last), Pos(u.grid.pos.row, u.grid.cols))
  {
    hide Exec, Run, Restyle, EraseRange, Inked, ValidCell, Paired;
    var cols, i := u.grid.cols, u.grid.pos.row;
    EraseLast(line, u.attrs, last);
    var start, tail := [Print(SPACE)] + Restyle(last, u.attrs),
      [SaveCursor, Backspace] + EraseCount(1) + [RestoreCursor];
    RunConcat(u, start, tail);
    StyledSpaceEffect(u, last);
    var w := Run(u, start);
    assert w.grid.rows[i] == Inked(line, cols - 1, Drawn(SPACE, u.attrs)) && ValidRow(w.grid.rows[i], cols);
    ErasePrevious(w, line);
    assert Rewritten(w, line, cols).grid.rows == u.grid.rows;
  }

  lemma NotDrawnIsBlank(row: Row, cols: nat)
    requires ValidRow(row, cols) && cols >= 2 && row.cells[LastGlyph(row)].contents == []
    ensures row.cells[cols - 1] == Blank(row.cells[cols - 1].attrs) && LastGlyph(row) == cols - 1
  {
    assert ValidCell(row.cells[cols - 1]) && PairedAt(row.cells, cols - 1) && ValidCell(row.cells[cols - 2]);
  }

  lemma CornerEffect(u: Screen, pen: Pen, row: nat, line: Row, last: Attrs)
    requires Surface(u) && u.grid.pos == pen.pos && u.attrs == pen.attrs && row < u.grid.height
    requires line == u.grid.rows[row] && BlankCorner(line, u.grid.cols)
    requires last == line.cells[u.grid.cols - 1].attrs && last.WellFormed()
    ensures
      var out := MoveFromTo(pen.pos, Pos(row, u.grid.cols - 1)) + Corner(last, pen.attrs) + Restyle(pen.attrs, last);
      OnlyMoved(Run(u, out), u, Pos(row, u.grid.cols))
  {
    hide Exec, Run, Restyle, Corner, BlankCorner, ValidRows, MoveFromTo;
    var at := Pos(row, u.grid.cols - 1);
    var move, draw := MoveFromTo(pen.pos, at), Corner(last, pen.attrs);
    RunConcat(u, move + draw, Restyle(pen.attrs, last));
    RunConcat(u, move, draw);
    MoveEffect(u, at);
    BlankCornerEffect(Moved(u, at), line, last);
    RestyleEffect(Run(Moved(u, at), draw), pen.attrs);
  }

  lemma PastEndEffect(u: Screen, pen: Pen, i: nat)
    requires Surface(u) && u.grid.pos == pen.pos && u.attrs == pen.attrs && i < u.grid.height
    requires ValidRow(u.grid.rows[i], u.grid.cols) && u.grid.rows[i].cells[LastGlyph(u.grid.rows[i])].contents != []
    ensures Run(u, PastEnd(pen, u.grid.rows[i], i)) == Moved(u, Pos(i, u.grid.cols))
  {
    hide Exec, Run, Redraw, ValidContents, Paired, LastGlyph;
    if pen.pos.row != i || pen.pos.col < u.grid.cols { RedrawEffect(u, pen, i); } else { RunNil(u); }
  }

  /** Newlines from past the end of a row above reach past the end of this one. */
  lemma FeedFromAbove(u: Screen, pen: Pen, i: nat, row: nat)
    requires Surface(u) && u.grid.pos == pen.pos && u.attrs == pen.attrs && i < row < u.grid.height
    requires ValidRow(u.grid.rows[i], u.grid.cols) && u.grid.rows[i].cells[LastGlyph(u.grid.rows[i])].contents != []
    ensures Run(u, PastEnd(pen, u.grid.rows[i], i) + Feeds(row - i)) == Moved(u, Pos(row, u.grid.cols))
  {
    hide Exec, Run, PastEnd, ValidContents, Paired, LastGlyph, Feeds;
    RunConcat(u, PastEnd(pen, u.grid.rows[i], i), Feeds(row - i));
    PastEndEffect(u, pen, i);
    FeedsEffect(Moved(u, Pos(i, u.grid.cols)), row - i);
  }

  lemma PlaceOverflow(u: Screen, g: Grid, pen: Pen)
    requires Surface(u) && ValidGrid(g) && SameShape(u.grid, g) && WrapsDrawn(g.rows)
    requires u.grid.rows == g.rows && u.grid.pos == pen.pos && u.attrs == pen.attrs
    requires pen.pos != g.pos && g.pos.col == g.cols
    ensures OnlyMoved(Run(u, PlaceCursor(g, pen)), u, g.pos)
  {
    hide Exec, Run, Redraw, Restyle, Corner, PastEnd, Feeds, MoveFromTo, ValidContents, Paired, LastGlyph;
    var row := g.rows[g.pos.row];
    assert ValidRow(row, g.cols);
    if row.cells[LastGlyph(row)].contents != [] {
      RedrawEffect(u, pen, g.pos.row);
    } else {
      match DrawnRowAbove(g, g.pos.row)
      case Some(i) =>
        assert ValidRow(g.rows[i], g.cols);
        FeedFromAbove(u, pen, i, g.pos.row);
      case None =>
        NotDrawnIsBlank(row, g.cols);
        assert ValidCell(row.cells[g.cols - 1]);
        CornerEffect(u, pen, g.pos.row, row, row.cells[g.cols - 1].attrs);
    }
  }

  /** However the target cursor came to rest, the painter gets there. */
  lemma PlaceCursorEffect(u: Screen, g: Grid, pen: Pen)
    requires Surface(u) && ValidGrid(g) && SameShape(u.grid, g) && WrapsDrawn(g.rows)
    requires u.grid.rows == g.rows && u.grid.pos == pen.pos && u.attrs == pen.attrs
    ensures OnlyMoved(Run(u, PlaceCursor(g, pen)), u, g.pos)
  {
    hide Exec, Run, Redraw, Restyle, Corner, PastEnd, MoveFromTo, ValidRows;
    if pen.pos == g.pos || g.pos.col < g.cols { MoveEffect(u, g.pos); } else { PlaceOverflow(u, g, pen); }
  }
}
