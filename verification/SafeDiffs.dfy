/** When a diff is right, said without following the painter: a condition on the two
    screens alone. */
module SafeDiffs {
  import opened Wrappers
  import opened Attributes
  import opened Cells
  import opened Screens
  import opened Painter
  import opened Painting
  import opened RowPainting
  import opened ScreenPainting
  import opened Frames
  import opened CarriedPainting
  import opened WrappedRows
  import opened RowWraps
  import opened WrapFlags
  import opened WrappedScreens

  // ------------------------------------------------------------- where the pen ends

  /** The last character of the row is written. */
  predicate Redrawn(target: Row, shown: Row)
    requires |target.cells| == |shown.cells| >= 2
  {
    && EndDrawn(target)
    && (target.cells[LastGlyph(target)] != shown.cells[LastGlyph(target)] || target.wrapped != shown.wrapped)
  }

  /** The loop from column `k` on, the pen being in this row: it ends past the row
      exactly when the last character is changed. */
  lemma {:induction false} RestPen(p: RowPainter, cells: seq<Cell>, shown: seq<Cell>, row: nat, k: nat)
    requires ValidPair(cells, shown) && 2 <= |cells| && k <= |cells| && PainterReady(p, k)
    requires p.skip == (k > 0 && cells[k - 1].wide) && p.pen.pos.row == row
    requires p.erase.Some? ==> p.erase.value.col < k && p.erase.value.col < |cells|
    requires k <= LastGlyph(Row(cells, false)) ==> p.pen.pos.col < |cells|
    requires p.pen.pos.col >= |cells| ==> p.erase.None?
    ensures
      var (r, g) := (PaintRest(p, cells, shown, row, k, false), LastGlyph(Row(cells, false)));
      && r.pos.row == row
      && if k <= g && cells[g].contents != [] && cells[g] != shown[g]
         then r.pos.col == |cells| && r.attrs == cells[g].attrs
         else if p.pen.pos.col < |cells| then r.pos.col < |cells| else r == p.pen
    decreases |cells| - k
  {
    hide ValidContents, Restyle, Scalars, EraseCount, MoveFromTo, PaintRest;
    var n, g := |cells|, LastGlyph(Row(cells, false));
    RestUnfold(p, cells, shown, row, k);
    if k < n {
      assert ValidCell(cells[k]) && PairedAt(cells, k) && ValidCell(cells[n - 1]) && PairedAt(cells, n - 1);
      if k > 0 { assert PairedAt(cells, k - 1); }
      LastGlyphEnds(Row(cells, false));
      var q := PaintCell(p, cells[k], shown[k], Pos(row, k), false, n);
      RestPen(q, cells, shown, row, k + 1);
    }
  }

  lemma RestUnfold(p: RowPainter, cells: seq<Cell>, shown: seq<Cell>, row: nat, k: nat)
    requires ValidPair(cells, shown) && k <= |cells| && PainterReady(p, k)
    ensures k == |cells| ==>
      PaintRest(p, cells, shown, row, k, false)
      == if p.erase.Some? then Flush(p.pen, p.erase.value, row, false, |cells|, [EraseInLine(0)]) else p.pen
    ensures k < |cells| ==>
      && ValidCell(cells[k])
      && PaintRest(p, cells, shown, row, k, false)
         == PaintRest(PaintCell(p, cells[k], shown[k], Pos(row, k), false, |cells|), cells, shown, row, k + 1, false)
  {
    hide PaintCell, ValidContents, Paired, Flush;
  }

  /** The columns of a row: nothing is written when nothing changes; otherwise the pen
      ends in this row, past its end exactly when the last character changed. */
  lemma ColumnsPen(pen: Pen, cells: seq<Cell>, shown: seq<Cell>, row: nat, wrapping: bool)
    requires ValidPair(cells, shown) && 2 <= |cells| && pen.attrs.WellFormed()
    ensures
      var (r, g) := (PaintColumns(pen, cells, shown, row, wrapping), LastGlyph(Row(cells, false)));
      if cells == shown then r == pen
      else
        && r.pos.row == row
        && if cells[g].contents != [] && cells[g] != shown[g] then r.pos.col == |cells| && r.attrs == cells[g].attrs
           else r.pos.col < |cells|
  {
    hide PaintCells, PaintRest, Flush, DrawCell, ValidContents, Paired, EraseCount, FirstChange;
    var n, k, p := |cells|, FirstChange(cells, shown), RowPainter(pen, None, false);
    ColumnsAreRest(pen, cells, shown, row, wrapping);
    SkipToChange(pen, cells, shown, row, wrapping);
    ChangeStarts(cells, shown, k);
    if k == n {
      assert cells == shown;
      EmptyRest(pen, cells, shown, row, wrapping);
    } else if cells[k].contents != [] {
      DrawFrom(pen, cells, shown, row, k, wrapping);
      DrawnPen(pen, cells, shown, row, k, wrapping);
    } else {
      var m := RunEnd(cells, k + 1, Pending(k, cells[k].attrs));
      BlankFrom(pen, cells, shown, row, k, m, wrapping);
      ErasedPen(pen, cells, shown, row, k, m, wrapping);
    }
  }

  lemma ColumnsAreRest(pen: Pen, cells: seq<Cell>, shown: seq<Cell>, row: nat, wrapping: bool)
    requires ValidPair(cells, shown) && pen.attrs.WellFormed()
    ensures PaintColumns(pen, cells, shown, row, wrapping)
            == PaintRest(RowPainter(pen, None, false), cells, shown, row, 0, wrapping)
  {
    hide PaintCells, Flush;
  }

  lemma DrawnPen(pen: Pen, cells: seq<Cell>, shown: seq<Cell>, row: nat, k: nat, wrapping: bool)
    requires ValidPair(cells, shown) && 2 <= |cells| && k < |cells| && cells[k].contents != [] && cells[k] != shown[k]
    requires ValidCell(cells[k])
    ensures
      var drawn := RowPainter(DrawCell(pen, cells[k], Pos(row, k), wrapping, |cells|), None, cells[k].wide);
      var (r, g) := (PaintRest(drawn, cells, shown, row, k + 1, false), LastGlyph(Row(cells, false)));
      && r.pos.row == row
      && if cells[g].contents != [] && cells[g] != shown[g] then r.pos.col == |cells| && r.attrs == cells[g].attrs
         else r.pos.col < |cells|
  {
    hide PaintRest, ValidContents, Restyle, Scalars, MoveFromTo;
    var n := |cells|;
    assert PairedAt(cells, k) && PairedAt(cells, n - 1) && ValidCell(cells[n - 1]);
    LastGlyphEnds(Row(cells, false));
    var drawn := DrawCell(pen, cells[k], Pos(row, k), wrapping, n);
    RestPen(RowPainter(drawn, None, cells[k].wide), cells, shown, row, k + 1);
  }

  lemma ErasedPen(pen: Pen, cells: seq<Cell>, shown: seq<Cell>, row: nat, k: nat, m: nat, wrapping: bool)
    requires ValidPair(cells, shown) && 2 <= |cells| && k < m <= |cells| && cells[k].attrs.WellFormed()
    requires forall i :: k <= i < m ==> cells[i] == Blank(cells[k].attrs)
    ensures
      var erase := if m == |cells| then [EraseInLine(0)] else EraseCount(m - k);
      var flushed := RowPainter(Flush(pen, Pending(k, cells[k].attrs), row, wrapping, |cells|, erase), None, false);
      var (r, g) := (PaintRest(flushed, cells, shown, row, m, false), LastGlyph(Row(cells, false)));
      && r.pos.row == row
      && if cells[g].contents != [] && cells[g] != shown[g] then r.pos.col == |cells| && r.attrs == cells[g].attrs
         else r.pos.col < |cells|
  {
    hide PaintRest, ValidContents, Flush, EraseCount;
    var n := |cells|;
    assert PairedAt(cells, n - 1) && cells[m - 1] == Blank(cells[k].attrs);
    var erase := if m == n then [EraseInLine(0)] else EraseCount(m - k);
    FlushStyle(pen, Pending(k, cells[k].attrs), row, wrapping, n, erase);
    var flushed := Flush(pen, Pending(k, cells[k].attrs), row, wrapping, n, erase);
    RestPen(RowPainter(flushed, None, false), cells, shown, row, m);
  }

  /** A whole row. */
  lemma RowPen(pen: Pen, target: Row, shown: Row, row: nat, wrapping: bool, wasWrapping: bool)
    requires |target.cells| == |shown.cells| >= 2 && ValidRow(target, |target.cells|) && ValidRow(shown, |shown.cells|)
    requires pen.attrs.WellFormed()
    requires wrapping && !wasWrapping ==> Carrying(pen, row, |target.cells|)
    ensures
      var r := PaintRow(pen, target, shown, row, wrapping, wasWrapping);
      if Redrawn(target, shown) then
        r.pos == Pos(row, |target.cells|) && r.attrs == target.cells[LastGlyph(target)].attrs
      else if target == shown && !(wrapping && !wasWrapping) then r == pen
      else r.pos.row == row && r.pos.col < |target.cells|
  {
    hide PaintColumns, ValidContents, Paired, Restyle, Scalars, EraseCount, MoveFromTo;
    var n := |target.cells|;
    assert ValidCell(target.cells[0]);
    var started := Started(pen, target, shown, row, wrapping, wasWrapping);
    ColumnsPen(started, target.cells, shown.cells, row, wrapping);
    var painted := PaintColumns(started, target.cells, shown.cells, row, wrapping);
    assert LastGlyph(target) == LastGlyph(Row(target.cells, false));
    GlyphDrawn(target);
    if target.wrapped != shown.wrapped { LastGlyphEnds(target); }
  }

  lemma GlyphDrawn(row: Row)
    requires |row.cells| >= 2 && ValidRow(row, |row.cells|)
    ensures EndDrawn(row) <==> row.cells[LastGlyph(row)].contents != []
  {
    hide ValidContents;
    var n := |row.cells|;
    assert PairedAt(row.cells, n - 1) && ValidCell(row.cells[n - 2]) && ValidCell(row.cells[n - 1]);
  }

  // ------------------------------------------------------------ a condition on screens

  /** The painter stands past the end of the row above row `i` when it gets to it: that
      row's end was written, or nothing was and the cursor was there. */
  predicate PastRowAbove(target: seq<Row>, shown: seq<Row>, pos: Pos, i: nat, cols: nat)
    requires |target| == |shown| && i < |target| && 2 <= cols && Wrappable(target, cols) && Wrappable(shown, cols)
  {
    i > 0 &&
    (RowAt(target, cols, i - 1);
     RowAt(shown, cols, i - 1);
     Redrawn(target[i - 1], shown[i - 1]) || (target[..i] == shown[..i] && pos == Pos(i - 1, cols)))
  }

  /** The style it then draws in. */
  function StyleAbove(target: seq<Row>, shown: seq<Row>, attrs: Attrs, i: nat, cols: nat): Attrs
    requires |target| == |shown| && 0 < i < |target| && 2 <= cols && Wrappable(target, cols) && Wrappable(shown, cols)
  {
    RowAt(target, cols, i - 1);
    RowAt(shown, cols, i - 1);
    if Redrawn(target[i - 1], shown[i - 1]) then target[i - 1].cells[LastGlyph(target[i - 1])].attrs else attrs
  }

  /** Drawing on row `i` starts at its first column, or with an erase. */
  predicate StartsOver(target: Row, shown: Row)
    requires |target.cells| == |shown.cells|
  {
    var k := FirstChange(target.cells, shown.cells);
    k < |target.cells| && (k == 0 || target.cells[k].contents == [])
  }

  /** Row `i` is painted right.  If it goes on being continued and its first change is
      an erase reached from past the row above, only spaces in that style come before;
      and if it goes on being wrapped but its last wide character is cut, drawing on the
      next row starts over.  On two columns such a space undoes the cut. */
  predicate SafeRow(target: seq<Row>, shown: seq<Row>, pos: Pos, attrs: Attrs, i: nat, cols: nat)
    requires |target| == |shown| && i < |target| && 2 <= cols && Wrappable(target, cols) && Wrappable(shown, cols)
  {
    RowAt(target, cols, i);
    RowAt(shown, cols, i);
    var (cells, was, past) := (target[i].cells, shown[i].cells, PastRowAbove(target, shown, pos, i, cols));
    var k := FirstChange(cells, was);
    && (Above(target, i) && Above(shown, i) && past && k < cols && cells[k].contents == [] ==>
          forall j :: 0 <= j < k ==> cells[j] == Drawn(SPACE, StyleAbove(target, shown, attrs, i, cols)))
    && (target[i].wrapped && shown[i].wrapped && Cut(cells, was) && !(cols == 2 && Above(target, i) && past) ==>
          (RowAt(target, cols, i + 1);
           RowAt(shown, cols, i + 1);
           StartsOver(target[i + 1], shown[i + 1])))
  }

  /** Where the pen is before row `i`. */
  predicate PenBefore(pen: Pen, target: seq<Row>, shown: seq<Row>, pos: Pos, attrs: Attrs, i: nat, cols: nat)
    requires |target| == |shown| && i <= |target| && 2 <= cols && Wrappable(target, cols) && Wrappable(shown, cols)
  {
    && pen.attrs.WellFormed()
    && if target[..i] == shown[..i] then pen.pos == pos && pen.attrs == attrs
       else
         RowAt(target, cols, i - 1);
         RowAt(shown, cols, i - 1);
         && pen.pos.row < i
         && if Redrawn(target[i - 1], shown[i - 1]) then
              pen.pos == Pos(i - 1, cols) && pen.attrs == target[i - 1].cells[LastGlyph(target[i - 1])].attrs
            else pen.pos.row + 1 < i || pen.pos.col < cols
  }

  lemma PenMeets(pen: Pen, target: seq<Row>, shown: seq<Row>, pos: Pos, attrs: Attrs, i: nat, cols: nat)
    requires |target| == |shown| && i < |target| && 2 <= cols && Wrappable(target, cols) && Wrappable(shown, cols)
    requires PenBefore(pen, target, shown, pos, attrs, i, cols) && pos.col <= cols
    ensures Carrying(pen, i, cols) <==> PastRowAbove(target, shown, pos, i, cols)
    ensures Carrying(pen, i, cols) ==> i > 0 && pen.attrs == StyleAbove(target, shown, attrs, i, cols)
    ensures Above(target, i) && !Above(shown, i) ==> Carrying(pen, i, cols)
  {
    hide Wrappable, ValidRow, EndDrawn, LastGlyph;
    if i > 0 {
      RowAt(target, cols, i - 1);
      RowAt(shown, cols, i - 1);
      if target[..i] == shown[..i] { assert target[..i][i - 1] == shown[..i][i - 1]; }
    }
  }

  lemma PenMoves(pen: Pen, target: seq<Row>, shown: seq<Row>, pos: Pos, attrs: Attrs, i: nat, cols: nat)
    requires |target| == |shown| && i < |target| && 2 <= cols && Wrappable(target, cols) && Wrappable(shown, cols)
    requires PenBefore(pen, target, shown, pos, attrs, i, cols) && pos.col <= cols
    ensures PenBefore(After(pen, target, shown, i, cols), target, shown, pos, attrs, i + 1, cols)
  {
    hide Wrappable, ValidRow, EndDrawn, LastGlyph, PaintRow, Redrawn;
    RowAt(target, cols, i);
    RowAt(shown, cols, i);
    PenMeets(pen, target, shown, pos, attrs, i, cols);
    RowPen(pen, target[i], shown[i], i, Above(target, i), Above(shown, i));
    assert target[..i + 1] == target[..i] + [target[i]] && shown[..i + 1] == shown[..i] + [shown[i]];
    SamePrefix(target, shown, i);
    SameIsNotRedrawn(target[i], shown[i]);
  }

  lemma SamePrefix(a: seq<Row>, b: seq<Row>, i: nat)
    requires |a| == |b| && i < |a|
    ensures a[..i + 1] == b[..i + 1] <==> a[..i] == b[..i] && a[i] == b[i]
    ensures a[..i] == b[..i] && i > 0 ==> a[i - 1] == b[i - 1]
  {
    if a[..i + 1] == b[..i + 1] {
      assert a[..i] == a[..i + 1][..i] && b[..i] == b[..i + 1][..i];
      assert a[..i + 1][i] == b[..i + 1][i];
    }
    if a[..i] == b[..i] && i > 0 { assert a[..i][i - 1] == b[..i][i - 1]; }
  }

  lemma SameIsNotRedrawn(a: Row, b: Row)
    requires |a.cells| == |b.cells| >= 2
    ensures a == b ==> !Redrawn(a, b)
  {
  }

  /** A cut row has its end redrawn. */
  lemma CutIsRedrawn(target: Row, shown: Row)
    requires |target.cells| == |shown.cells| >= 2 && ValidRow(target, |target.cells|) && ValidRow(shown, |shown.cells|)
    requires FlagFits(target) && target.wrapped && Cut(target.cells, shown.cells)
    ensures Redrawn(target, shown)
  {
    hide ValidContents;
    var n := |target.cells|;
    assert PairedAt(target.cells, n - 1) && ValidCell(target.cells[n - 2]) && ValidCell(target.cells[n - 1]);
  }

  lemma SafeSpaces(pen: Pen, target: seq<Row>, shown: seq<Row>, pos: Pos, attrs: Attrs, i: nat, cols: nat)
    requires |target| == |shown| && i < |target| && 2 <= cols && Wrappable(target, cols) && Wrappable(shown, cols)
    requires PenBefore(pen, target, shown, pos, attrs, i, cols) && pos.col <= cols
    ensures ValidRow(target[i], cols) && |target[i].cells| == |shown[i].cells| == cols
    ensures
      var (cells, was) := (target[i].cells, shown[i].cells);
      var started := Started(pen, target[i], shown[i], i, Above(target, i), Above(shown, i));
      SpacesAlready(started, cells, was, i, Above(target, i)) <==>
        (var k := FirstChange(cells, was);
         Above(target, i) && Above(shown, i) && PastRowAbove(target, shown, pos, i, cols) && k < cols
           && cells[k].contents == []
         ==> forall j :: 0 <= j < k ==> cells[j] == Drawn(SPACE, StyleAbove(target, shown, attrs, i, cols)))
  {
    hide Wrappable, ValidRow, EndDrawn, LastGlyph, PenBefore, PastRowAbove, StyleAbove, Restyle, Scalars, EraseCount;
    RowAt(target, cols, i);
    RowAt(shown, cols, i);
    PenMeets(pen, target, shown, pos, attrs, i, cols);
  }

  lemma SafeFlag(pen: Pen, target: seq<Row>, shown: seq<Row>, pos: Pos, attrs: Attrs, i: nat, cols: nat)
    requires |target| == |shown| && i < |target| && 2 <= cols && Wrappable(target, cols) && Wrappable(shown, cols)
    requires PenBefore(pen, target, shown, pos, attrs, i, cols) && pos.col <= cols
    ensures ValidRow(target[i], cols) && |target[i].cells| == |shown[i].cells| == cols
    ensures Forgets(pen, target[i], shown[i], i, Above(target, i), Above(shown, i)) <==>
      && target[i].wrapped && shown[i].wrapped && Cut(target[i].cells, shown[i].cells)
      && !(cols == 2 && Above(target, i) && PastRowAbove(target, shown, pos, i, cols))
  {
    hide Wrappable, ValidCell, Paired, EndDrawn, LastGlyph, PenBefore, PastRowAbove, Restyle, Scalars, EraseCount,
      FirstChange;
    RowAt(target, cols, i);
    RowAt(shown, cols, i);
    PenMeets(pen, target, shown, pos, attrs, i, cols);
    if cols == 2 && Cut(target[i].cells, shown[i].cells) { CutOfTwo(target[i].cells, shown[i].cells); }
  }

  /** After a row whose end was redrawn, the next one marks it exactly when it starts
      over. */
  lemma MarksIff(pen: Pen, target: Row, shown: Row, row: nat)
    requires |target.cells| == |shown.cells| >= 2 && ValidPair(target.cells, shown.cells)
    requires Carrying(pen, row, |target.cells|)
    ensures Marks(pen, target, shown, row, true, true) <==> StartsOver(target, shown)
  {
    hide ValidCells;
  }

  lemma SafeRowIff(pen: Pen, target: seq<Row>, shown: seq<Row>, pos: Pos, attrs: Attrs, i: nat, cols: nat)
    requires |target| == |shown| && i < |target| && 2 <= cols && Wrappable(target, cols) && Wrappable(shown, cols)
    requires PenBefore(pen, target, shown, pos, attrs, i, cols) && pos.col <= cols
    ensures HarmlessRow(pen, target, shown, i, cols) <==> SafeRow(target, shown, pos, attrs, i, cols)
  {
    hide Wrappable, ValidCell, Paired, EndDrawn, LastGlyph, PenBefore, PastRowAbove, StyleAbove, FirstChange, Forgets,
      Marks, StartsOver, SpacesAlready, Started, After, Cut;
    RowAt(target, cols, i);
    RowAt(shown, cols, i);
    PenStyle(pen, target, shown, pos, attrs, i, cols);
    SafeSpaces(pen, target, shown, pos, attrs, i, cols);
    SafeFlag(pen, target, shown, pos, attrs, i, cols);
    if Forgets(pen, target[i], shown[i], i, Above(target, i), Above(shown, i)) {
      RowAt(target, cols, i + 1);
      RowAt(shown, cols, i + 1);
      var next := After(pen, target, shown, i, cols);
      CutIsRedrawn(target[i], shown[i]);
      EndsPast(pen, target, shown, pos, attrs, i, cols);
      MarksIff(next, target[i + 1], shown[i + 1], i + 1);
    }
  }

  lemma EndsPast(pen: Pen, target: seq<Row>, shown: seq<Row>, pos: Pos, attrs: Attrs, i: nat, cols: nat)
    requires |target| == |shown| && i < |target| && 2 <= cols && Wrappable(target, cols) && Wrappable(shown, cols)
    requires PenBefore(pen, target, shown, pos, attrs, i, cols) && pos.col <= cols
    requires |target[i].cells| == |shown[i].cells| == cols && Redrawn(target[i], shown[i])
    ensures Carrying(After(pen, target, shown, i, cols), i + 1, cols)
  {
    hide Wrappable, ValidRow, PenBefore, PaintRow, Redrawn;
    RowAt(target, cols, i);
    RowAt(shown, cols, i);
    PenStyle(pen, target, shown, pos, attrs, i, cols);
    PenMeets(pen, target, shown, pos, attrs, i, cols);
    RowPen(pen, target[i], shown[i], i, Above(target, i), Above(shown, i));
  }

  lemma {:induction false} SafeFromIff(pen: Pen, target: seq<Row>, shown: seq<Row>, pos: Pos, attrs: Attrs, i: nat,
                                       cols: nat)
    requires |target| == |shown| && i <= |target| && 2 <= cols && Wrappable(target, cols) && Wrappable(shown, cols)
    requires PenBefore(pen, target, shown, pos, attrs, i, cols) && pos.col <= cols
    ensures Harmless(pen, target, shown, i, cols) <==>
      forall j :: i <= j < |target| ==> SafeRow(target, shown, pos, attrs, j, cols)
    decreases |target| - i
  {
    hide Wrappable, PenBefore, SafeRow, HarmlessRow, After;
    assert pen.attrs.WellFormed() by { PenStyle(pen, target, shown, pos, attrs, i, cols); }
    if i < |target| {
      SafeRowIff(pen, target, shown, pos, attrs, i, cols);
      PenMoves(pen, target, shown, pos, attrs, i, cols);
      SafeFromIff(After(pen, target, shown, i, cols), target, shown, pos, attrs, i + 1, cols);
    }
  }

  lemma PenStyle(pen: Pen, target: seq<Row>, shown: seq<Row>, pos: Pos, attrs: Attrs, i: nat, cols: nat)
    requires |target| == |shown| && i <= |target| && 2 <= cols && Wrappable(target, cols) && Wrappable(shown, cols)
    requires PenBefore(pen, target, shown, pos, attrs, i, cols)
    ensures pen.attrs.WellFormed()
  {
  }

  // ------------------------------------------------------------------- the main result

  /** Every row of the diff is painted right. */
  predicate Safe(target: Screen, shown: Screen)
    requires WellFormed(target) && WellFormed(shown) && SameSize(target, shown)
    requires FlagsFit(target.grid.rows) && FlagsFit(shown.grid.rows)
  {
    forall i :: 0 <= i < |target.grid.rows| ==>
      SafeRow(target.grid.rows, shown.grid.rows, shown.grid.pos, shown.attrs, i, target.grid.cols)
  }

  /** On a terminal showing the one, the diff shows the other exactly when it is safe:
      a condition on the two screens alone, whatever they are. */
  lemma DiffIsRightIff(t: Screen, target: Screen, shown: Screen)
    requires Surface(t) && WellFormed(target) && WellFormed(shown) && SameSize(target, shown)
    requires FlagsFit(target.grid.rows) && FlagsFit(shown.grid.rows)
    requires SameContents(t, shown)
    ensures SameContents(Run(t, ContentsDiff(target, shown)), target) <==> Safe(target, shown)
  {
    hide Run, Exec, ContentsDiff, Harmless, FlagsFit, SafeRow, Painted, ValidRows;
    ContentsRepaintedIff(t, target, shown);
    var rows, was := target.grid.rows, shown.grid.rows;
    assert rows[..0] == was[..0];
    SafeFromIff(FirstPen(shown), rows, was, shown.grid.pos, shown.attrs, 0, target.grid.cols);
  }

  /** A diff to a screen without soft wraps is always safe. */
  lemma UnwrappedIsSafe(target: Screen, shown: Screen)
    requires WellFormed(target) && WellFormed(shown) && SameSize(target, shown)
    requires FlagsFit(target.grid.rows) && FlagsFit(shown.grid.rows) && NoWraps(target.grid.rows)
    ensures Safe(target, shown)
  {
    hide FlagsFit, ValidRows, PastRowAbove, StyleAbove, FirstChange, StartsOver, Cut;
  }
}
