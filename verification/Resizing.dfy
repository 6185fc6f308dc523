/** Changing the size of the grid (`set_size` in `src/vt100/grid.rs`), and sizes at
    which drawing past the end of a row subtracts below zero. */
module Resizing {
  import opened Wrappers
  import opened Attributes
  import opened Cells
  import opened Screens

  /** Cut at the right, or filled up with blanks; never soft-wrapped afterwards. */
  function ResizedRow(row: Row, cols: nat): (r: Row)
    ensures |r.cells| == cols && !r.wrapped
  {
    if cols <= |row.cells| then Row(row.cells[..cols], false)
    else Row(row.cells + Blanks(cols - |row.cells|, PLAIN), false)
  }

  function ResizedRows(rows: seq<Row>, height: nat, cols: nat): (r: seq<Row>)
    ensures |r| == height
  {
    seq(height, i requires 0 <= i => if i < |rows| then ResizedRow(rows[i], cols) else NewRow(cols))
  }

  function Lower(bottom: nat, old_: nat, height: nat): nat
    requires height > 0
  {
    if bottom + 1 == old_ then height - 1 else Min(bottom, height - 1)
  }

  function Held(pos: Pos, height: nat, cols: nat): Pos
    requires height > 0 && cols > 0
  {
    Pos(Min(pos.row, height - 1), Min(pos.col, cols - 1))
  }

  /** `set_size`: a region that reached the last row still does, one that begins below
      the new end begins at the top again, and the cursor is moved inside. */
  function Resized(g: Grid, height: nat, cols: nat): Grid
    requires height > 0 && cols > 0
  {
    var bottom := Lower(g.bottom, g.height, height);
    g.(height := height, cols := cols, rows := ResizedRows(g.rows, height, cols),
       bottom := bottom, top := if bottom < g.top then 0 else g.top,
       pos := Held(g.pos, height, cols), savedPos := Held(g.savedPos, height, cols))
  }

  /** Cell by cell: what fits stays, what is new is blank and plain, and no row is soft-
      wrapped; a cursor that still fits stays and one that does not goes to the edge. */
  lemma ResizedSays(g: Grid, height: nat, cols: nat)
    requires ValidGrid(g) && height > 0 && cols > 0
    ensures
      var r := Resized(g, height, cols);
      && r.height == height && r.cols == cols && |r.rows| == height
      && r.origin == g.origin && r.savedOrigin == g.savedOrigin
      && (forall i :: 0 <= i < height ==> |r.rows[i].cells| == cols && !r.rows[i].wrapped)
      && (forall i, j :: 0 <= i < height && 0 <= j < cols ==>
            r.rows[i].cells[j] ==
              if i < g.height && j < g.cols then g.rows[i].cells[j] else Cell([], false, false, PLAIN))
      && Kept(g.pos, r.pos, height, cols) && Kept(g.savedPos, r.savedPos, height, cols)
  {
    var r := Resized(g, height, cols);
    forall i | 0 <= i < height
      ensures |r.rows[i].cells| == cols && !r.rows[i].wrapped
      ensures forall j :: 0 <= j < cols ==>
        r.rows[i].cells[j] ==
          if i < g.height && j < g.cols then g.rows[i].cells[j] else Cell([], false, false, PLAIN)
    {
      if i < g.height {
        assert ValidRow(g.rows[i], g.cols) && r.rows[i] == ResizedRow(g.rows[i], cols);
      } else {
        assert r.rows[i] == NewRow(cols);
      }
    }
  }

  predicate Kept(before: Pos, after: Pos, height: nat, cols: nat) {
    && (before.row < height ==> after.row == before.row) && (before.row >= height ==> after.row + 1 == height)
    && (before.col < cols ==> after.col == before.col) && (before.col >= cols ==> after.col + 1 == cols)
  }

  /** A scroll region that reached the last row still does; another one keeps its end if
      that fits; and it begins where it did unless it would end before. */
  lemma RegionSays(g: Grid, height: nat, cols: nat)
    requires ValidGrid(g) && height > 0 && cols > 0
    ensures
      var r := Resized(g, height, cols);
      && (g.bottom + 1 == g.height || g.bottom >= height ==> r.bottom + 1 == height)
      && (g.bottom + 1 < g.height && g.bottom < height ==> r.bottom == g.bottom)
      && (g.top <= r.bottom ==> r.top == g.top) && (g.top > r.bottom ==> r.top == 0)
  {
  }

  // ------------------------------------------------------------------ exactly when

  /** The cut does not go through a wide character. */
  predicate CutsBetween(row: Row, cols: nat) {
    0 < cols < |row.cells| ==> !row.cells[cols - 1].wide
  }

  lemma ResizedRowIff(row: Row, width: nat, cols: nat)
    requires ValidRow(row, width) && 0 < cols
    ensures ValidRow(ResizedRow(row, cols), cols) <==> CutsBetween(row, cols)
  {
    var r := ResizedRow(row, cols).cells;
    if cols < width {
      assert forall i :: 0 <= i < cols ==> r[i] == row.cells[i];
      assert PairedAt(row.cells, cols - 1);
      if CutsBetween(row, cols) {
        forall i | 0 <= i < cols ensures PairedAt(r, i) { assert PairedAt(row.cells, i); }
      } else {
        assert !PairedAt(r, cols - 1);
      }
    } else {
      forall i | 0 <= i < cols ensures PairedAt(r, i) {
        if i < width { assert PairedAt(row.cells, i); }
        if i > 0 && i - 1 < width { assert PairedAt(row.cells, i - 1); }
      }
    }
  }

  /** A resized grid is well-formed exactly when no row that is kept is cut through a
      wide character, and the scroll region does not begin at the new last row. */
  lemma ResizedIff(g: Grid, height: nat, cols: nat)
    requires ValidGrid(g) && 2 <= height && 2 <= cols
    ensures ValidGrid(Resized(g, height, cols)) <==>
      && (forall i :: 0 <= i < height && i < g.height ==> CutsBetween(g.rows[i], cols))
      && g.top != height - 1
  {
    hide ResizedRow, CutsBetween, ValidRow;
    var r := Resized(g, height, cols);
    assert r.top < r.bottom < r.height <==> g.top != height - 1;
    assert ValidRows(r.rows, cols) <==>
      forall i :: 0 <= i < height && i < g.height ==> CutsBetween(g.rows[i], cols) by
    {
      forall i | 0 <= i < height ensures ValidRow(r.rows[i], cols) <==> i >= g.height || CutsBetween(g.rows[i], cols) {
        if i < g.height {
          assert ValidRow(g.rows[i], g.cols) && r.rows[i] == ResizedRow(g.rows[i], cols);
          ResizedRowIff(g.rows[i], g.cols, cols);
        } else {
          assert r.rows[i] == NewRow(cols);
        }
      }
    }
  }

  /** Two columns are left of a row that ends with a wide character: half of it stays. */
  lemma WideIsCut(c: Scalar)
    requires IsBase(c) && c.width == Wide
    ensures
      var g := Text(At(FreshScreen(2, 3).grid, 0, 1), c, PLAIN);
      g.rows[0].cells[1].wide && !ValidGrid(Resized(g, 2, 2))
  {
    var g := Text(At(FreshScreen(2, 3).grid, 0, 1), c, PLAIN);
    ResizedIff(g, 2, 2);
    assert !CutsBetween(g.rows[0], 2);
  }

  /** A region of the last two of three rows is left with one row. */
  lemma RegionCollapses()
    ensures
      var g := SetScrollRegion(FreshScreen(3, 2).grid, 1, 2);
      var r := Resized(g, 2, 2);
      ValidGrid(g) && r.top == r.bottom == 1 && !ValidGrid(r)
  {
  }

  // ---------------------------------------------------------- one row or one column

  /** A grid of any size that the program admits. */
  predicate Admitted(g: Grid) {
    && 1 <= g.height && 1 <= g.cols
    && g.pos.row < g.height && g.pos.col <= g.cols
    && g.top <= g.bottom < g.height
  }

  /** The row that drawing past the end of a row marks as wrapped, by the subtractions
      of `text` and `col_wrap`; `None` when one of them is below zero. */
  function WrapSource(g: Grid, width: nat): Option<nat> {
    if width > g.cols then None
    else if g.pos.col <= g.cols - width then Some(g.pos.row)
    else
      var scrolled := if InScrollRegion(g) && g.pos.row + 1 > g.bottom then g.pos.row + 1 - g.bottom else 0;
      if scrolled > g.pos.row then None else Some(g.pos.row - scrolled)
  }

  /** They stay in range exactly when the character is no wider than the screen and it
      is not wrapped in a region of the first row alone. */
  lemma WrapSourceIff(g: Grid, width: nat)
    requires Admitted(g)
    ensures WrapSource(g, width).None? <==>
      width > g.cols || (g.pos.col > g.cols - width && g.pos.row == g.top == g.bottom == 0)
  {
  }

  /** So on one row wrapping fails, and on well-formed grids it never does and agrees
      with `ColumnWrap`. */
  lemma WrapSourceIsColumnWrap(g: Grid, width: nat, wrap: bool)
    requires width <= 2
    ensures Admitted(g) && g.height == 1 && width <= g.cols < g.pos.col + width ==> WrapSource(g, width).None?
    ensures ValidGrid(g) ==> WrapSource(g, width).Some?
    ensures ValidGrid(g) && g.pos.col + width > g.cols ==>
      var (left, r) := (WrapSource(g, width).value, ColumnWrap(g, width, wrap));
      left <= r.pos.row && r.rows[left].wrapped == (wrap && left + 1 == r.pos.row)
  {
  }
}
