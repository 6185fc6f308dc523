/** Painting whole screens, soft wraps and wide characters included: exactly what
    is shown, and exactly when it is the target. */
module WrappedScreens {
  import opened Cells
  import opened Screens
  import opened Painter
  import opened Painting
  import opened RowPainting
  import opened ScreenPainting
  import opened Frames
  import opened CarriedPainting
  import opened WrappedRows
  import opened RowWraps
  import opened WrapFlags

  /** Rows as every run of commands leaves them. */
  predicate Wrappable(rows: seq<Row>, cols: nat) {
    ValidRows(rows, cols) && FlagsFit(rows)
  }

  predicate Above(rows: seq<Row>, i: nat)
    requires i <= |rows|
  {
    i > 0 && rows[i - 1].wrapped
  }

  lemma RowAt(rows: seq<Row>, cols: nat, i: nat)
    requires Wrappable(rows, cols) && i < |rows|
    ensures ValidRow(rows[i], cols) && |rows[i].cells| == cols && FlagFits(rows[i])
    ensures rows[i].wrapped ==> i + 1 < |rows|
  {
    hide ValidCell, Paired, EndDrawn;
  }

  /** The pen once row `i` is painted. */
  function After(pen: Pen, target: seq<Row>, shown: seq<Row>, i: nat, cols: nat): (r: Pen)
    requires |target| == |shown| && i < |target| && 2 <= cols && Wrappable(target, cols) && Wrappable(shown, cols)
    requires pen.attrs.WellFormed()
    ensures r.attrs.WellFormed()
  {
    RowAt(target, cols, i);
    RowAt(shown, cols, i);
    PaintRow(pen, target[i], shown[i], i, Above(target, i), Above(shown, i))
  }

  /** Row `i` keeps being wrapped, but painting it loses its flag and painting the
      next row does not bring it back. */
  predicate Unmarked(pen: Pen, target: seq<Row>, shown: seq<Row>, i: nat, cols: nat)
    requires |target| == |shown| && i < |target| && 2 <= cols && Wrappable(target, cols) && Wrappable(shown, cols)
    requires pen.attrs.WellFormed()
  {
    RowAt(target, cols, i);
    RowAt(shown, cols, i);
    && Forgets(pen, target[i], shown[i], i, Above(target, i), Above(shown, i))
    && (RowAt(target, cols, i + 1);
        RowAt(shown, cols, i + 1);
        !Marks(After(pen, target, shown, i, cols), target[i + 1], shown[i + 1], i + 1, true, true))
  }

  /** What row `i` ends up as. */
  function PaintedRow(pen: Pen, target: seq<Row>, shown: seq<Row>, i: nat, cols: nat): (r: Row)
    requires |target| == |shown| && i < |target| && 2 <= cols && Wrappable(target, cols) && Wrappable(shown, cols)
    requires pen.attrs.WellFormed()
    ensures |r.cells| == cols
  {
    RowAt(target, cols, i);
    RowAt(shown, cols, i);
    RowEnding(pen, target[i], shown[i], i, Above(target, i), Above(shown, i))
      .(wrapped := target[i].wrapped && !Unmarked(pen, target, shown, i, cols))
  }

  /** What rows `i` onwards end up as, the pen being where the rows above left it. */
  function Painted(pen: Pen, target: seq<Row>, shown: seq<Row>, i: nat, cols: nat): (r: seq<Row>)
    requires |target| == |shown| && i <= |target| && 2 <= cols && Wrappable(target, cols) && Wrappable(shown, cols)
    requires pen.attrs.WellFormed()
    ensures |r| == |target| - i
    decreases |target| - i
  {
    if i == |target| then []
    else
      [PaintedRow(pen, target, shown, i, cols)]
      + Painted(After(pen, target, shown, i, cols), target, shown, i + 1, cols)
  }

  /** Row `i` is painted right: its spaces only overwrite such spaces, and it does not
      end up unmarked. */
  predicate HarmlessRow(pen: Pen, target: seq<Row>, shown: seq<Row>, i: nat, cols: nat)
    requires |target| == |shown| && i < |target| && 2 <= cols && Wrappable(target, cols) && Wrappable(shown, cols)
    requires pen.attrs.WellFormed()
  {
    RowAt(target, cols, i);
    RowAt(shown, cols, i);
    && SpacesAlready(Started(pen, target[i], shown[i], i, Above(target, i), Above(shown, i)),
                     target[i].cells, shown[i].cells, i, Above(target, i))
    && !Unmarked(pen, target, shown, i, cols)
  }

  predicate Harmless(pen: Pen, target: seq<Row>, shown: seq<Row>, i: nat, cols: nat)
    requires |target| == |shown| && i <= |target| && 2 <= cols && Wrappable(target, cols) && Wrappable(shown, cols)
    requires pen.attrs.WellFormed()
    decreases |target| - i
  {
    i == |target|
    || (HarmlessRow(pen, target, shown, i, cols)
        && Harmless(After(pen, target, shown, i, cols), target, shown, i + 1, cols))
  }

  predicate SpacesAlready(pen: Pen, cells: seq<Cell>, shown: seq<Cell>, row: nat, wrapping: bool)
    requires |cells| == |shown|
  {
    forall j :: 0 <= j < Zone(pen, cells, shown, row, wrapping) ==> cells[j] == Drawn(SPACE, pen.attrs)
  }

  lemma EndingIsTargetIff(pen: Pen, cells: seq<Cell>, shown: seq<Cell>, row: nat, wrapping: bool)
    requires |cells| == |shown|
    ensures Ending(pen, cells, shown, row, wrapping) == cells <==> SpacesAlready(pen, cells, shown, row, wrapping)
  {
    var zone, want := Zone(pen, cells, shown, row, wrapping), Ending(pen, cells, shown, row, wrapping);
    assert forall i :: 0 <= i < |cells| ==> want[i] == if i < zone then Drawn(SPACE, pen.attrs) else cells[i];
    if want == cells {
      forall j | 0 <= j < zone ensures cells[j] == Drawn(SPACE, pen.attrs) { assert want[j] == cells[j]; }
    }
  }

  lemma PaintedRowIsTargetIff(pen: Pen, target: seq<Row>, shown: seq<Row>, i: nat, cols: nat)
    requires |target| == |shown| && i < |target| && 2 <= cols && Wrappable(target, cols) && Wrappable(shown, cols)
    requires pen.attrs.WellFormed()
    ensures PaintedRow(pen, target, shown, i, cols) == target[i] <==> HarmlessRow(pen, target, shown, i, cols)
  {
    hide Wrappable, Marks, Ending, SpacesAlready, Started, After, PaintRow, Loses, ValidRow, FlagFits;
    RowAt(target, cols, i);
    RowAt(shown, cols, i);
    var started := Started(pen, target[i], shown[i], i, Above(target, i), Above(shown, i));
    EndingIsTargetIff(started, target[i].cells, shown[i].cells, i, Above(target, i));
  }

  /** The rows come out as the target exactly when every row is harmless. */
  lemma {:induction false} PaintedIsTargetIff(pen: Pen, target: seq<Row>, shown: seq<Row>, i: nat, cols: nat)
    requires |target| == |shown| && i <= |target| && 2 <= cols && Wrappable(target, cols) && Wrappable(shown, cols)
    requires pen.attrs.WellFormed()
    ensures Painted(pen, target, shown, i, cols) == target[i..] <==> Harmless(pen, target, shown, i, cols)
    decreases |target| - i
  {
    hide Wrappable, PaintedRow, HarmlessRow, After;
    if i < |target| {
      var next := After(pen, target, shown, i, cols);
      PaintedIsTargetIff(next, target, shown, i + 1, cols);
      PaintedRowIsTargetIff(pen, target, shown, i, cols);
      var first, rest := PaintedRow(pen, target, shown, i, cols), Painted(next, target, shown, i + 1, cols);
      assert target[i..] == [target[i]] + target[i + 1..];
      SplitEqual(first, rest, target[i], target[i + 1..]);
    }
  }

  lemma SplitEqual(a: Row, b: seq<Row>, c: Row, d: seq<Row>)
    ensures [a] + b == [c] + d <==> a == c && b == d
  {
    if [a] + b == [c] + d {
      assert ([a] + b)[0] == ([c] + d)[0];
      assert ([a] + b)[1..] == b && ([c] + d)[1..] == d;
    }
  }

  // ------------------------------------------------------------------- all the rows

  /** The flag of the row above row `i` once that row is painted. */
  function Marked(pen: Pen, rows: seq<Row>, target: seq<Row>, shown: seq<Row>, i: nat, cols: nat): (r: seq<Row>)
    requires |target| == |shown| == |rows| && i <= |target| && 2 <= cols && Wrappable(target, cols)
    requires Wrappable(shown, cols)
    ensures |r| == |rows|
  {
    if i == |target| then rows
    else
      RowAt(target, cols, i);
      RowAt(shown, cols, i);
      WrapIf(rows, i, Marks(pen, target[i], shown[i], i, Above(target, i), Above(shown, i)))
  }

  /** Before row `i`: the rows below are as shown; if the row above must become
      wrapped the pen stands past its end. */
  predicate Ready(t: Screen, rows: seq<Row>, pen: Pen, target: seq<Row>, shown: seq<Row>, i: nat) {
    && On(t, rows, pen) && |target| == |shown| == |rows| && i <= |target|
    && (forall j :: i <= j < |rows| ==> rows[j] == shown[j])
    && (Above(target, i) ==> EndDrawn(rows[i - 1]))
    && (Above(target, i) && !Above(shown, i) ==> Carrying(pen, i, t.grid.cols))
  }

  lemma NextReady(t: Screen, rows: seq<Row>, pen: Pen, target: seq<Row>, shown: seq<Row>, i: nat)
    returns (next: seq<Row>)
    requires Ready(t, rows, pen, target, shown, i) && i < |target|
    requires Wrappable(target, t.grid.cols) && Wrappable(shown, t.grid.cols) && 2 <= t.grid.cols
    ensures pen.attrs.WellFormed() && |rows| == |next| == |target| == |shown|
    ensures Ready(t, next, After(pen, target, shown, i, t.grid.cols), target, shown, i + 1)
    ensures |target[i].cells| == |shown[i].cells| == t.grid.cols && ValidRow(target[i], t.grid.cols)
    ensures next == Marked(pen, rows, target, shown, i, t.grid.cols)
              [i := RowEnding(pen, target[i], shown[i], i, Above(target, i), Above(shown, i))]
  {
    hide Run, Exec, Surface, On, PaintRow, RowEnding, ValidCells, Touches, Wrap, EndDrawn, Wrappable;
    var wrapping, was, cols := Above(target, i), Above(shown, i), t.grid.cols;
    RowAt(target, cols, i);
    RowAt(shown, cols, i);
    assert pen.attrs.WellFormed() by { OnIsValid(t, rows, pen); }
    RowOn(t, rows, pen, target[i], i, wrapping, was);
    var marks := Marks(pen, target[i], shown[i], i, wrapping, was);
    next := WrapIf(rows, i, marks)[i := RowEnding(pen, target[i], shown[i], i, wrapping, was)];
    forall j | i + 1 <= j < |rows| ensures next[j] == shown[j] { BelowStays(rows, i, marks, j); }
    if target[i].wrapped { EndingDrawn(pen, target[i], shown[i], i, wrapping, was, cols); }
  }

  lemma BelowStays(rows: seq<Row>, i: nat, wrap: bool, j: nat)
    requires i < j < |rows| && (wrap ==> 0 < i)
    ensures WrapIf(rows, i, wrap)[j] == rows[j]
  {
  }

  lemma EndingDrawn(pen: Pen, target: Row, shown: Row, row: nat, wrapping: bool, wasWrapping: bool, cols: nat)
    requires ValidRow(target, cols) && ValidRow(shown, cols) && |target.cells| == |shown.cells| == cols >= 2
    requires pen.attrs.WellFormed()
    requires EndDrawn(target)
    ensures EndDrawn(RowEnding(pen, target, shown, row, wrapping, wasWrapping))
  {
    hide ValidContents, Paired, Started, Ending;
    EndingKeepsEnd(Started(pen, target, shown, row, wrapping, wasWrapping), target.cells, shown.cells, row, wrapping,
                   false, false);
  }

  /** The mark of row `i`, set by painting row `i + 1` if at all. */
  lemma MarkedLater(pen: Pen, next: seq<Row>, target: seq<Row>, shown: seq<Row>, i: nat, cols: nat)
    requires |target| == |shown| == |next| && i < |target| && 2 <= cols && Wrappable(target, cols)
    requires Wrappable(shown, cols)
    requires pen.attrs.WellFormed() && |target[i].cells| == |shown[i].cells| == cols && ValidRow(target[i], cols)
    requires next[i] == RowEnding(pen, target[i], shown[i], i, Above(target, i), Above(shown, i))
    ensures Marked(After(pen, target, shown, i, cols), next, target, shown, i + 1, cols)[i]
      == PaintedRow(pen, target, shown, i, cols)
  {
    hide PaintRow, ValidCells, Ending, Loses, EndDrawn, Touches, Started;
    RowAt(target, cols, i);
    if i + 1 < |target| {
      RowAt(target, cols, i + 1);
      RowAt(shown, cols, i + 1);
    }
  }

  lemma MarkedKeeps(pen: Pen, rows: seq<Row>, target: seq<Row>, shown: seq<Row>, i: nat, cols: nat, j: nat)
    requires |target| == |shown| == |rows| && i <= |target| && 2 <= cols && Wrappable(target, cols)
    requires Wrappable(shown, cols)
    requires j < |rows| && j + 1 != i
    ensures Marked(pen, rows, target, shown, i, cols)[j] == rows[j]
  {
    hide ValidCells, EndDrawn, Marks;
  }

  /** Running what is written for all rows shows exactly the painted rows. */
  lemma {:induction false} RowsOn(t: Screen, rows: seq<Row>, pen: Pen, target: seq<Row>, shown: seq<Row>, i: nat)
    requires Ready(t, rows, pen, target, shown, i)
    requires Wrappable(target, t.grid.cols) && Wrappable(shown, t.grid.cols) && 2 <= t.grid.cols
    ensures pen.attrs.WellFormed() && |target| == |shown| == |rows| && i <= |target|
    ensures On(t, Marked(pen, rows, target, shown, i, t.grid.cols)[..i] + Painted(pen, target, shown, i, t.grid.cols),
               PaintRows(pen, target, shown, i, t.grid.cols))
    decreases |target| - i
  {
    hide Run, Exec, Surface, On, PaintRow, PaintedRow, RowEnding, Marked, ValidCells, EndDrawn, FlagsFit;
    var cols := t.grid.cols;
    assert pen.attrs.WellFormed() by { OnIsValid(t, rows, pen); }
    if i == |target| {
      assert Marked(pen, rows, target, shown, i, cols) == rows by { NoMarks(pen, rows, target, shown, cols); }
      assert rows[..i] + [] == rows;
    } else {
      var next := NextReady(t, rows, pen, target, shown, i);
      var after := After(pen, target, shown, i, cols);
      RowsOn(t, next, after, target, shown, i + 1);
      MarkedLater(pen, next, target, shown, i, cols);
      forall j | 0 <= j < i
        ensures Marked(after, next, target, shown, i + 1, cols)[j] == Marked(pen, rows, target, shown, i, cols)[j]
      {
        MarkedKeeps(after, next, target, shown, i + 1, cols, j);
      }
      MarkedStep(Marked(after, next, target, shown, i + 1, cols), Marked(pen, rows, target, shown, i, cols), i,
                 PaintedRow(pen, target, shown, i, cols), Painted(after, target, shown, i + 1, cols));
    }
  }

  lemma NoMarks(pen: Pen, rows: seq<Row>, target: seq<Row>, shown: seq<Row>, cols: nat)
    requires |target| == |shown| == |rows| && 2 <= cols && Wrappable(target, cols) && Wrappable(shown, cols)
    ensures Marked(pen, rows, target, shown, |target|, cols) == rows
  {
  }

  lemma MarkedStep(a: seq<Row>, b: seq<Row>, i: nat, row: Row, rest: seq<Row>)
    requires i < |a| == |b| && a[i] == row && forall j :: 0 <= j < i ==> a[j] == b[j]
    ensures a[..i + 1] + rest == b[..i] + ([row] + rest)
  {
  }

  // --------------------------------------------------------------------- the cursor

  /** Two grids that agree where cursor placement looks: the ends of the rows. */
  predicate SameEnds(rows: seq<Row>, others: seq<Row>, cols: nat) {
    && |rows| == |others| && 2 <= cols
    && forall i :: 0 <= i < |rows| ==>
         && ValidRow(rows[i], cols) && ValidRow(others[i], cols) && FlagFits(others[i])
         && SameEnd(rows[i], others[i]) && (rows[i].wrapped ==> others[i].wrapped)
  }

  lemma EndsAt(rows: seq<Row>, others: seq<Row>, cols: nat, i: nat)
    requires SameEnds(rows, others, cols) && i < |rows|
    ensures ValidRow(rows[i], cols) && ValidRow(others[i], cols) && |rows[i].cells| == |others[i].cells| == cols >= 2
    ensures LastGlyph(rows[i]) == LastGlyph(others[i])
    ensures rows[i].cells[LastGlyph(rows[i])] == others[i].cells[LastGlyph(rows[i])]
    ensures rows[i].cells[cols - 1] == others[i].cells[cols - 1] && ValidCell(rows[i].cells[cols - 1])
    ensures rows[i].cells[LastGlyph(rows[i])].contents == [] ==> BlankCorner(rows[i], cols)
  {
    hide ValidContents, Paired;
    assert ValidRow(rows[i], cols) && ValidRow(others[i], cols) && FlagFits(others[i]) && SameEnd(rows[i], others[i]);
    if rows[i].cells[LastGlyph(rows[i])].contents == [] { NotDrawnIsBlank(rows[i], cols); }
  }

  lemma PlaceWrapped(u: Screen, g: Grid, pen: Pen)
    requires Surface(u) && ValidGrid(g) && SameShape(u.grid, g) && SameEnds(u.grid.rows, g.rows, g.cols)
    requires u.grid.pos == pen.pos && u.attrs == pen.attrs
    ensures OnlyMoved(Run(u, PlaceCursor(g, pen)), u, g.pos)
  {
    hide Exec, Run, Redraw, Restyle, Corner, PastEnd, Feeds, MoveFromTo, ValidCell, Paired, LastGlyph, SameEnds,
      BlankCorner;
    if pen.pos == g.pos || g.pos.col < g.cols {
      MoveEffect(u, g.pos);
    } else {
      EndsAt(u.grid.rows, g.rows, g.cols, g.pos.row);
      var row := g.rows[g.pos.row];
      if row.cells[LastGlyph(row)].contents != [] {
        RedrawEffect(u, pen, g.pos.row);
      } else {
        match DrawnRowAbove(g, g.pos.row)
        case Some(i) =>
          EndsAt(u.grid.rows, g.rows, g.cols, i);
          PastEndSame(pen, u.grid.rows[i], g.rows[i], i);
          FeedFromAbove(u, pen, i, g.pos.row);
        case None =>
          var last := row.cells[g.cols - 1].attrs;
          assert last.WellFormed() by { assert ValidCell(row.cells[g.cols - 1]); CellStyle(row.cells[g.cols - 1]); }
          CornerEffect(u, pen, g.pos.row, u.grid.rows[g.pos.row], last);
      }
    }
  }

  lemma CellStyle(cell: Cell)
    requires ValidCell(cell)
    ensures cell.attrs.WellFormed()
  {
  }

  lemma PastEndSame(pen: Pen, a: Row, b: Row, i: nat)
    requires |a.cells| == |b.cells| >= 2 && ValidRow(a, |a.cells|) && ValidRow(b, |b.cells|) && pen.attrs.WellFormed()
    requires LastGlyph(a) == LastGlyph(b) && a.cells[LastGlyph(a)] == b.cells[LastGlyph(b)]
    ensures PastEnd(pen, a, i) == PastEnd(pen, b, i)
  {
    hide Redraw, ValidContents, Paired;
  }

  // ---------------------------------------------------------------- the whole screen

  lemma PaintedRowEnds(pen: Pen, target: seq<Row>, shown: seq<Row>, i: nat, cols: nat)
    requires |target| == |shown| && i < |target| && 2 <= cols && Wrappable(target, cols) && Wrappable(shown, cols)
    requires pen.attrs.WellFormed()
    ensures
      var row := PaintedRow(pen, target, shown, i, cols);
      SameEnd(row, target[i]) && (row.wrapped ==> target[i].wrapped)
  {
    hide Ending, Started, Unmarked, Forgets, ValidContents, Paired, Wrappable;
    RowAt(target, cols, i);
    RowAt(shown, cols, i);
    var wrapping, was := Above(target, i), Above(shown, i);
    var row := PaintedRow(pen, target, shown, i, cols);
    EndingKeepsEnd(Started(pen, target[i], shown[i], i, wrapping, was), target[i].cells, shown[i].cells, i, wrapping,
                   row.wrapped, target[i].wrapped);
    assert target[i] == Row(target[i].cells, target[i].wrapped);
  }

  lemma {:induction false} PaintedEnds(pen: Pen, target: seq<Row>, shown: seq<Row>, i: nat, cols: nat, j: nat)
    requires |target| == |shown| && i <= j < |target| && 2 <= cols && Wrappable(target, cols) && Wrappable(shown, cols)
    requires pen.attrs.WellFormed()
    ensures
      var row := Painted(pen, target, shown, i, cols)[j - i];
      SameEnd(row, target[j]) && (row.wrapped ==> target[j].wrapped)
    decreases j - i
  {
    hide PaintedRow, After, Wrappable, SameEnd;
    if i == j {
      PaintedRowEnds(pen, target, shown, i, cols);
    } else {
      PaintedEnds(After(pen, target, shown, i, cols), target, shown, i + 1, cols, j);
    }
  }

  lemma PaintedSameEnds(t: Screen, pen: Pen, last: Pen, target: seq<Row>, shown: seq<Row>)
    requires |target| == |shown| && 2 <= t.grid.cols && Wrappable(target, t.grid.cols) && Wrappable(shown, t.grid.cols)
    requires pen.attrs.WellFormed() && On(t, Painted(pen, target, shown, 0, t.grid.cols), last)
    ensures SameEnds(Painted(pen, target, shown, 0, t.grid.cols), target, t.grid.cols)
  {
    hide Run, Exec, Surface, On, Painted, SameEnd, ValidCells, Wrappable, FlagFits;
    var rows, cols := Painted(pen, target, shown, 0, t.grid.cols), t.grid.cols;
    OnIsValid(t, rows, last);
    forall j | 0 <= j < |rows|
      ensures ValidRow(rows[j], cols) && ValidRow(target[j], cols) && FlagFits(target[j])
      ensures SameEnd(rows[j], target[j]) && (rows[j].wrapped ==> target[j].wrapped)
    {
      RowAt(target, cols, j);
      PaintedEnds(pen, target, shown, 0, cols, j);
    }
  }

  /** The pen the screen painter starts with. */
  function FirstPen(shown: Screen): Pen {
    Pen([], shown.grid.pos, shown.attrs)
  }

  lemma RowsPainted(u: Screen, target: Screen, shown: Screen)
    requires Surface(u) && WellFormed(target) && WellFormed(shown) && SameSize(target, shown) && SameSize(u, shown)
    requires Wrappable(target.grid.rows, u.grid.cols) && Wrappable(shown.grid.rows, u.grid.cols)
    requires u.grid.rows == shown.grid.rows && u.grid.pos == shown.grid.pos && u.attrs == shown.attrs
    ensures On(u, Painted(FirstPen(shown), target.grid.rows, shown.grid.rows, 0, u.grid.cols),
               PaintedRows(target, shown))
  {
    hide Run, Exec, Painted, PaintRows, Wrappable, ValidRows, Marked;
    var rows, pen := shown.grid.rows, FirstPen(shown);
    RunNil(u);
    assert Shown(u, rows, pen.pos, pen.attrs) == u;
    RowsOn(u, rows, pen, target.grid.rows, rows, 0);
    var painted := Painted(pen, target.grid.rows, rows, 0, u.grid.cols);
    assert Marked(pen, rows, target.grid.rows, rows, 0, u.grid.cols)[..0] + painted == painted;
  }

  /** The diff of any two screens that commands lead to: cursor, attributes and
      display modes always come out right, the rows are exactly the painted ones, and
      they are the target's exactly when the diff is harmless. */
  lemma ContentsRepaintedIff(t: Screen, target: Screen, shown: Screen)
    requires Surface(t) && WellFormed(target) && WellFormed(shown) && SameSize(target, shown)
    requires FlagsFit(target.grid.rows) && FlagsFit(shown.grid.rows)
    requires SameContents(t, shown)
    ensures
      var r := Run(t, ContentsDiff(target, shown));
      && Surface(r) && SameContents(r.(grid := r.grid.(rows := target.grid.rows)), target) && SameInput(r, t)
      && r.grid.rows == Painted(FirstPen(shown), target.grid.rows, shown.grid.rows, 0, target.grid.cols)
      && (SameContents(r, target)
          <==> Harmless(FirstPen(shown), target.grid.rows, shown.grid.rows, 0, target.grid.cols))
  {
    hide Run, Exec, PlaceCursor, Restyle, PaintRows, Painted, Harmless, FlagsFit, ValidRows, SameEnds;
    var pen, cols := PaintedRows(target, shown), target.grid.cols;
    var place, style := PlaceCursor(target.grid, pen), Restyle(target.attrs, pen.attrs);
    var rest := pen.out + (place + style);
    DisplayModesEffect(t, target.reverseVideo, target.hideCursor, rest);
    var u := t.(reverseVideo := target.reverseVideo, hideCursor := target.hideCursor);
    RowsPainted(u, target, shown);
    var rows := Painted(FirstPen(shown), target.grid.rows, shown.grid.rows, 0, cols);
    PaintedSameEnds(u, FirstPen(shown), pen, target.grid.rows, shown.grid.rows);
    RunConcat(u, pen.out, place + style);
    var v := Run(u, pen.out);
    RunConcat(v, place, style);
    PlaceWrapped(v, target.grid, pen);
    var w := Run(v, place);
    RestyleEffect(w, target.attrs);
    PaintedIsTargetIff(FirstPen(shown), target.grid.rows, shown.grid.rows, 0, cols);
    assert target.grid.rows[0..] == target.grid.rows;
  }

  // ------------------------------------------------------------------ without wraps

  /** Without soft wraps every diff is harmless. */
  lemma {:induction false} UnwrappedIsHarmless(pen: Pen, target: seq<Row>, shown: seq<Row>, i: nat, cols: nat)
    requires |target| == |shown| && i <= |target| && 2 <= cols && Wrappable(target, cols) && Wrappable(shown, cols)
    requires pen.attrs.WellFormed() && NoWraps(target)
    ensures Harmless(pen, target, shown, i, cols)
    decreases |target| - i
  {
    hide Wrappable, After, CarriesErase, Started;
    if i < |target| {
      RowAt(target, cols, i);
      RowAt(shown, cols, i);
      UnwrappedIsHarmless(After(pen, target, shown, i, cols), target, shown, i + 1, cols);
    }
  }

  // -------------------------------------------------------------------- every history

  /** Whatever commands led to two screens, on a terminal showing the one the diff
      shows the other exactly when it is harmless. */
  lemma EveryPairRepaintedIff(t: Screen, height: nat, cols: nat, before: seq<Command>, after: seq<Command>)
    requires 2 <= height && 2 <= cols && Surface(t)
    requires SameContents(t, Run(FreshScreen(height, cols), before))
    ensures
      var shown, target := Run(FreshScreen(height, cols), before), Run(FreshScreen(height, cols), after);
      && Wrappable(target.grid.rows, cols) && Wrappable(shown.grid.rows, cols)
      && (SameContents(Run(t, ContentsDiff(target, shown)), target) <==>
            Harmless(FirstPen(shown), target.grid.rows, shown.grid.rows, 0, cols))
  {
    hide Run, Exec, FreshScreen, ContentsDiff, Harmless, Painted, FlagsFit;
    var shown, target := Run(FreshScreen(height, cols), before), Run(FreshScreen(height, cols), after);
    ReachableFlagsFit(height, cols, before);
    ReachableFlagsFit(height, cols, after);
    ContentsRepaintedIff(t, target, shown);
  }
}
