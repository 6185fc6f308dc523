/** What the commands that edit a line do, column by column, and what drawing a
    character does. */
module ColumnEffects {
  import opened Attributes
  import opened Cells
  import opened Screens
  import opened CommandEffects

  /** Only row `at` differs. */
  predicate OnlyRow(s: Screen, r: Screen, at: nat) {
    && OnlyRows(s, r) && at < |s.grid.rows|
    && forall i :: 0 <= i < |s.grid.rows| && i != at ==> r.grid.rows[i] == s.grid.rows[i]
  }

  // ---------------------------------------------------------------------- erasing

  /** A cell that lost the other half of its wide character. */
  predicate Halved(cells: seq<Cell>, j: nat, other: int)
    requires j < |cells|
  {
    0 <= other < |cells| && ((other == j + 1 && cells[other].continuation) || (j == other + 1 && cells[j].continuation))
  }

  /** Columns `from` to `to` are blank in style `attrs`; a cell beside them that lost its
      other half is blank in its own; all others are as before. */
  predicate ErasedAt(cells: seq<Cell>, cell: Cell, from: nat, to: nat, attrs: Attrs, j: nat)
    requires j < |cells|
  {
    if from <= j < to then cell == Cell([], false, false, attrs)
    else if from < to && ((j + 1 == from && Halved(cells, j, from)) || (j == to && Halved(cells, j, to - 1))) then
      cell == Cell([], false, false, cells[j].attrs)
    else cell == cells[j]
  }

  predicate Erased(row: Row, r: Row, from: nat, to: nat, attrs: Attrs) {
    && |r.cells| == |row.cells|
    && (forall j :: 0 <= j < |row.cells| ==> ErasedAt(row.cells, r.cells[j], from, to, attrs, j))
    && (r.wrapped <==> row.wrapped && !(from < to && EndTouched(row.cells, to)))
  }

  /** Erasing up to `to` touched the last column, or the character it belongs to. */
  predicate EndTouched(cells: seq<Cell>, to: nat) {
    to >= |cells| || (to + 1 == |cells| && cells[to].continuation)
  }

  lemma EraseRangeErases(row: Row, from: nat, to: nat, attrs: Attrs)
    requires from <= to <= |row.cells| && 0 < |row.cells| && attrs.WellFormed() && ValidRow(row, |row.cells|)
    ensures Erased(row, EraseRange(row, from, to, attrs), from, to, attrs)
  {
    var r := EraseRange(row, from, to, attrs);
    forall j | 0 <= j < |row.cells| ensures ErasedAt(row.cells, r.cells[j], from, to, attrs, j) {
      assert PairedAt(row.cells, j) && ValidCell(row.cells[j]);
    }
    var last := |row.cells| - 1;
    assert PairedAt(row.cells, last) && ValidCell(row.cells[last]);
  }

  /** Erasing in the line: from the cursor on, up to and with it, or all of it. */
  lemma EraseLineSays(s: Screen, mode: nat)
    requires WellFormed(s)
    ensures
      var (g, r) := (s.grid, Exec(s, EraseInLine(mode)));
      && OnlyRow(s, r, g.pos.row)
      && var (row, after) := (g.rows[g.pos.row], r.grid.rows[g.pos.row]);
         && (mode == 0 ==> Erased(row, after, g.pos.col, g.cols, s.attrs))
         && (mode == 1 ==> Erased(row, after, 0, AtMost(g.pos.col + 1, g.cols), s.attrs))
         && (mode == 2 ==> Erased(row, after, 0, g.cols, s.attrs))
         && (mode > 2 ==> r == s)
  {
    hide ValidRows, Text, EraseDisplay, EraseCells, ExecEditing, EraseRange, Erased;
    var g := s.grid;
    ExecIsOnGrid(s, EraseInLine(mode));
    assert ValidRow(g.rows[g.pos.row], g.cols) by { RowIsValid(g, g.pos.row); }
    if mode == 0 { EraseRangeErases(g.rows[g.pos.row], g.pos.col, g.cols, s.attrs); }
    if mode == 1 { EraseRangeErases(g.rows[g.pos.row], 0, Min(g.pos.col, g.cols - 1) + 1, s.attrs); }
    if mode == 2 { ClearedIsErased(g.rows[g.pos.row], g.cols, s.attrs); }
  }

  lemma RowIsValid(g: Grid, i: nat)
    requires ValidGrid(g) && i < g.height
    ensures ValidRow(g.rows[i], g.cols)
  {
  }

  lemma ClearedIsErased(row: Row, cols: nat, attrs: Attrs)
    requires |row.cells| == cols && 0 < cols && attrs.WellFormed()
    ensures Erased(row, ClearedRow(cols, attrs), 0, cols, attrs)
  {
  }

  /** Erasing characters: so many from the cursor on. */
  lemma EraseCharacterSays(s: Screen, n: nat)
    requires WellFormed(s)
    ensures
      var (g, r) := (s.grid, Exec(s, EraseCharacter(n)));
      && OnlyRow(s, r, g.pos.row)
      && Erased(g.rows[g.pos.row], r.grid.rows[g.pos.row], g.pos.col, AtMost(g.pos.col + n, g.cols), s.attrs)
  {
    hide ValidRows, Text, EraseDisplay, EraseLine, ExecEditing, EraseRange, Erased;
    var g := s.grid;
    ExecIsOnGrid(s, EraseCharacter(n));
    assert ValidRow(g.rows[g.pos.row], g.cols) by { RowIsValid(g, g.pos.row); }
    EraseRangeErases(g.rows[g.pos.row], g.pos.col, Min(g.pos.col + n, g.cols), s.attrs);
  }

  /** Erasing in the display: besides the line, the rows below, the rows above, or all
      of them, which are blank in the current style. */
  lemma EraseDisplaySays(s: Screen, mode: nat)
    requires WellFormed(s)
    ensures
      var (g, r) := (s.grid, Exec(s, EraseInDisplay(mode)));
      && OnlyRows(s, r)
      && (mode > 2 ==> r == s)
      && (mode <= 2 ==>
            forall i :: 0 <= i < g.height ==>
              var (row, after) := (g.rows[i], r.grid.rows[i]);
              if mode == 2 || (mode == 0 && i > g.pos.row) || (mode == 1 && i < g.pos.row) then
                Erased(row, after, 0, g.cols, s.attrs)
              else if i != g.pos.row then after == row
              else if mode == 0 then Erased(row, after, g.pos.col, g.cols, s.attrs)
              else Erased(row, after, 0, AtMost(g.pos.col + 1, g.cols), s.attrs))
  {
    hide ValidRows, Text, EraseLine, EraseCells, ExecEditing, EraseRange, Erased;
    var g := s.grid;
    ExecIsOnGrid(s, EraseInDisplay(mode));
    var r := Exec(s, EraseInDisplay(mode));
    assert ValidRow(g.rows[g.pos.row], g.cols) by { RowIsValid(g, g.pos.row); }
    EraseRangeErases(g.rows[g.pos.row], g.pos.col, g.cols, s.attrs);
    EraseRangeErases(g.rows[g.pos.row], 0, Min(g.pos.col, g.cols - 1) + 1, s.attrs);
    forall i | 0 <= i < g.height ensures Erased(g.rows[i], ClearedRow(g.cols, s.attrs), 0, g.cols, s.attrs) {
      RowIsValid(g, i);
      ClearedIsErased(g.rows[i], g.cols, s.attrs);
    }
  }

  // ------------------------------------------------- inserting and deleting in a line

  /** With `n` columns from `at` on deleted: what was to the right of them moves left and
      blanks follow it; a cell on either side that lost its other half is blank. */
  predicate DeletedAt(cells: seq<Cell>, cell: Cell, at: nat, n: nat, j: nat)
    requires j < |cells| && at + n <= |cells|
  {
    if j >= |cells| - n then cell == Cell([], false, false, PLAIN)
    else if n > 0 && j + 1 == at && at < |cells| && cells[at].continuation then
      cell == Cell([], false, false, cells[j].attrs)
    else if n > 0 && j == at && cells[at + n].continuation then cell == Cell([], false, false, cells[at + n].attrs)
    else cell == if j < at then cells[j] else cells[j + n]
  }

  lemma DeleteCharacterSays(s: Screen, n: nat)
    requires WellFormed(s)
    ensures
      var (g, r) := (s.grid, Exec(s, DeleteCharacter(n)));
      && OnlyRow(s, r, g.pos.row)
      && var (row, after, k) := (g.rows[g.pos.row], r.grid.rows[g.pos.row],
                                 if n < g.cols - g.pos.col then n else g.cols - g.pos.col);
         && |row.cells| == |after.cells| == g.cols && !after.wrapped
         && forall j :: 0 <= j < g.cols ==> DeletedAt(row.cells, after.cells[j], g.pos.col, k, j)
  {
    hide ValidRows, InsertLines, DeleteLines, InsertCells, ScrollUp, ScrollDown, SetScrollRegion;
    var g := s.grid;
    ExecIsOnGrid(s, DeleteCharacter(n));
    assert ValidRow(g.rows[g.pos.row], g.cols) by { RowIsValid(g, g.pos.row); }
    DeleteRangeDeletes(g.rows[g.pos.row], g.pos.col, Min(n, g.cols - g.pos.col));
  }

  lemma DeleteRangeDeletes(row: Row, at: nat, n: nat)
    requires at + n <= |row.cells| && ValidRow(row, |row.cells|)
    ensures
      var r := DeleteRange(row, at, n);
      && |r.cells| == |row.cells| && !r.wrapped
      && forall j :: 0 <= j < |row.cells| ==> DeletedAt(row.cells, r.cells[j], at, n, j)
  {
    var r := DeleteRange(row, at, n);
    forall j | 0 <= j < |row.cells| ensures DeletedAt(row.cells, r.cells[j], at, n, j) {
      if at + n < |row.cells| { assert PairedAt(row.cells, at + n); }
    }
  }

  /** With `n` blanks inserted at `at`, or after the wide character that reaches over it:
      what follows moves right, and a wide character cut by the edge is blank. */
  predicate InsertedAt(cells: seq<Cell>, cell: Cell, at: nat, n: nat, j: nat)
    requires j < |cells| && at <= |cells|
  {
    var gap := if n > 0 && at < |cells| && cells[at].continuation then at + 1 else at;
    if j < gap then cell == cells[j]
    else if j < gap + n then cell == Cell([], false, false, PLAIN)
    else if n > 0 && j + 1 == |cells| && cells[j - n].wide then cell == Cell([], false, false, cells[j - n].attrs)
    else cell == cells[j - n]
  }

  lemma InsertCharacterSays(s: Screen, n: nat)
    requires WellFormed(s)
    ensures
      var (g, r) := (s.grid, Exec(s, InsertCharacter(n)));
      && OnlyRow(s, r, g.pos.row)
      && var (row, after) := (g.rows[g.pos.row], r.grid.rows[g.pos.row]);
         && |row.cells| == |after.cells| == g.cols && !after.wrapped
         && forall j :: 0 <= j < g.cols ==> InsertedAt(row.cells, after.cells[j], g.pos.col, n, j)
  {
    hide ValidRows, InsertLines, DeleteLines, DeleteCells, ScrollUp, ScrollDown, SetScrollRegion;
    var g := s.grid;
    ExecIsOnGrid(s, InsertCharacter(n));
    assert ValidRow(g.rows[g.pos.row], g.cols) by { RowIsValid(g, g.pos.row); }
    InsertBlanksInserts(g.rows[g.pos.row], g.pos.col, n);
  }

  lemma InsertBlanksInserts(row: Row, at: nat, n: nat)
    requires 0 < |row.cells| && at <= |row.cells| && ValidRow(row, |row.cells|)
    ensures
      var r := InsertBlanks(row, at, n);
      && |r.cells| == |row.cells| && !r.wrapped
      && forall j :: 0 <= j < |row.cells| ==> InsertedAt(row.cells, r.cells[j], at, n, j)
  {
    var (r, last) := (InsertBlanks(row, at, n), |row.cells| - 1);
    assert PairedAt(row.cells, last);
    if at < |row.cells| { assert PairedAt(row.cells, at) && ValidCell(row.cells[at]); }
    forall j | 0 <= j < |row.cells| ensures InsertedAt(row.cells, r.cells[j], at, n, j) {
      assert PairedAt(row.cells, j) && ValidCell(row.cells[j]);
    }
  }

  // ---------------------------------------------------------------------- drawing

  /** A control character: C1, or below 256 and without a width. */
  predicate Ignored(c: Scalar) {
    0x80 <= c.code < 0xa0 || (c.width == Control && c.code < 256)
  }

  lemma ControlSays(s: Screen, c: Scalar)
    requires WellFormed(s) && Ignored(c)
    ensures Exec(s, Print(c)) == s
  {
    hide ValidRows, EraseDisplay, EraseLine, EraseCells, ExecEditing, ColumnWrap, AttachMark, DrawBase;
    ExecIsOnGrid(s, Print(c));
  }

  /** A character of `w` columns drawn at `at`: it has the style, and the column it
      reaches into continues it; of wide characters that it cut, the first half before
      it is blank, the second half after a narrow one a space, after a wide one blank. */
  predicate DrawnAt(cells: seq<Cell>, cell: Cell, at: nat, w: nat, c: Scalar, attrs: Attrs, j: nat)
    requires at + w <= |cells| && 1 <= w <= 2 && j < |cells|
  {
    if j == at then cell == Cell([c], w == 2, false, attrs)
    else if j == at + 1 && w == 2 then cell == Cell([], false, true, PLAIN)
    else if j + 1 == at && cells[at].continuation then cell == Cell([], false, false, attrs)
    else if j == at + 1 && cells[at].wide then cell == Cell([Scalar(0x20, Narrow)], false, false, attrs)
    else if j == at + 2 && w == 2 && cells[at + 1].wide then cell == Cell([], false, false, attrs)
    else cell == cells[j]
  }

  predicate DrawnOn(row: Row, r: Row, at: nat, w: nat, c: Scalar, attrs: Attrs)
    requires at + w <= |row.cells| && 1 <= w <= 2
  {
    && |r.cells| == |row.cells|
    && (forall j :: 0 <= j < |row.cells| ==> DrawnAt(row.cells, r.cells[j], at, w, c, attrs, j))
    && (r.wrapped <==> row.wrapped && !(w == 2 && row.cells[at + 1].wide && at + 3 == |row.cells|))
  }

  /** A character that fits is drawn at the cursor, which moves past it. */
  lemma PrintSays(s: Screen, c: Scalar)
    requires WellFormed(s) && !Ignored(c) && c.width != Zero
    requires s.grid.pos.col + (if c.width == Wide then 2 else 1) <= s.grid.cols
    ensures
      var w := if c.width == Wide then 2 else 1;
      var (g, r) := (s.grid, Exec(s, Print(c)));
      && r.grid.pos == Pos(g.pos.row, g.pos.col + w)
      && OnlyRow(s, r.(grid := r.grid.(pos := g.pos)), g.pos.row)
      && |g.rows[g.pos.row].cells| == g.cols
      && DrawnOn(g.rows[g.pos.row], r.grid.rows[g.pos.row], g.pos.col, w, c, s.attrs)
  {
    hide ValidRows, EraseDisplay, EraseLine, EraseCells, ExecEditing, Text, Inked, DrawnOn;
    var g := s.grid;
    ExecIsOnGrid(s, Print(c));
    RowIsValid(g, g.pos.row);
    TextFits(g, c, s.attrs);
    InkedIsDrawn(g.rows[g.pos.row], g.pos.col, c, s.attrs);
  }

  function Inked(row: Row, at: nat, c: Scalar, attrs: Attrs): Row
    requires ValidRow(row, |row.cells|) && at + (if c.width == Wide then 2 else 1) <= |row.cells|
  {
    if c.width == Wide then PutWide(row, at, c, attrs) else row.(cells := PutNarrow(row.cells, at, c, attrs))
  }

  lemma TextFits(g: Grid, c: Scalar, attrs: Attrs)
    requires ValidGrid(g) && attrs.WellFormed() && !Ignored(c) && c.width != Zero
    requires g.pos.col + (if c.width == Wide then 2 else 1) <= g.cols
    ensures ValidRow(g.rows[g.pos.row], |g.rows[g.pos.row].cells|) && |g.rows[g.pos.row].cells| == g.cols
    ensures Text(g, c, attrs) ==
      g.(rows := g.rows[g.pos.row := Inked(g.rows[g.pos.row], g.pos.col, c, attrs)],
         pos := Pos(g.pos.row, g.pos.col + if c.width == Wide then 2 else 1))
  {
    hide ValidRows, LineDown, AttachMark, LastCellDrawn, PutNarrow, PutWide;
    RowIsValid(g, g.pos.row);
  }

  lemma InkedIsDrawn(row: Row, at: nat, c: Scalar, attrs: Attrs)
    requires ValidRow(row, |row.cells|) && at + (if c.width == Wide then 2 else 1) <= |row.cells|
    ensures DrawnOn(row, Inked(row, at, c, attrs), at, if c.width == Wide then 2 else 1, c, attrs)
  {
    hide DrawnOn, PutNarrow, PutWide;
    if c.width == Wide { WideIsDrawn(row, at, c, attrs); } else { NarrowIsDrawn(row, at, c, attrs); }
  }

  lemma NarrowIsDrawn(row: Row, at: nat, c: Scalar, attrs: Attrs)
    requires at < |row.cells| && ValidRow(row, |row.cells|) && c.width != Wide
    ensures DrawnOn(row, row.(cells := PutNarrow(row.cells, at, c, attrs)), at, 1, c, attrs)
  {
    assert PairedAt(row.cells, at) && ValidCell(row.cells[at]);
  }

  lemma WideIsDrawn(row: Row, at: nat, c: Scalar, attrs: Attrs)
    requires at + 1 < |row.cells| && ValidRow(row, |row.cells|) && c.width == Wide
    ensures DrawnOn(row, PutWide(row, at, c, attrs), at, 2, c, attrs)
  {
    hide ValidContents;
    assert PairedAt(row.cells, at) && PairedAt(row.cells, at + 1);
    assert ValidCell(row.cells[at]) && ValidCell(row.cells[at + 1]);
  }

  /** The screen with the cursor on a new line, and the line it left marked as soft-
      wrapped if its last column was drawn on. */
  function Broken(s: Screen): (r: Screen)
    requires WellFormed(s)
  {
    var t := Exec(Exec(s, CarriageReturn), LineFeed);
    var left := if s.grid.pos.row == s.grid.bottom then s.grid.pos.row - 1 else s.grid.pos.row;
    var end := s.grid.rows[s.grid.pos.row].cells[s.grid.cols - 1];
    var wrapped := (end.contents != [] || end.continuation) && left + 1 == t.grid.pos.row;
    t.(grid := t.grid.(rows := t.grid.rows[left := t.grid.rows[left].(wrapped := wrapped)]))
  }

  /** A character that does not fit is drawn at the start of the next line. */
  lemma WrapSays(s: Screen, c: Scalar)
    requires WellFormed(s) && !Ignored(c) && c.width != Zero
    requires s.grid.pos.col + (if c.width == Wide then 2 else 1) > s.grid.cols
    ensures WellFormed(Broken(s)) && Exec(s, Print(c)) == Exec(Broken(s), Print(c))
  {
    hide ValidGrid, Text, ExecDrawing;
    BrokenIsWrapped(s, Columns(c));
    ExecIsOnGrid(s, Print(c));
    ExecIsOnGrid(Broken(s), Print(c));
    TextBreaks(s, c);
    PrintIsText(s.grid, c, s.attrs);
    PrintIsText(Broken(s).grid, c, s.attrs);
  }

  lemma PrintIsText(g: Grid, c: Scalar, attrs: Attrs)
    requires ValidGrid(g) && attrs.WellFormed() && !Ignored(c)
    ensures ExecDrawing(g, attrs, Print(c)) == Text(g, c, attrs)
  {
    hide Text, ValidGrid, EraseDisplay, EraseLine, EraseCells, ExecEditing;
  }

  lemma BrokenIsWrapped(s: Screen, width: nat)
    requires WellFormed(s) && width <= 2 && s.grid.pos.col + width > s.grid.cols
    ensures Broken(s) == s.(grid := ColumnWrap(s.grid, width, LastCellDrawn(s.grid)))
  {
    hide ValidRows, ShiftUp, Text, EraseDisplay, EraseLine, EraseCells, ExecEditing;
    var t := Exec(s, CarriageReturn);
    ExecIsOnGrid(s, CarriageReturn);
    ExecIsOnGrid(t, LineFeed);
  }

  lemma TextBreaks(s: Screen, c: Scalar)
    requires WellFormed(s) && !Ignored(c) && c.width != Zero && s.grid.pos.col + Columns(c) > s.grid.cols
    requires Broken(s) == s.(grid := ColumnWrap(s.grid, Columns(c), LastCellDrawn(s.grid)))
    ensures Text(s.grid, c, s.attrs) == Text(Broken(s).grid, c, s.attrs)
  {
    hide ValidRows, Broken, DrawBase, AttachMark, LastCellDrawn;
    var h := ColumnWrap(s.grid, Columns(c), LastCellDrawn(s.grid));
    assert h.pos.col + Columns(c) <= h.cols;
  }

  /** A mark joins the character before the cursor; at the start of a row that the one
      above is soft-wrapped onto, the last of that row; elsewhere it goes nowhere. */
  lemma MarkSays(s: Screen, c: Scalar)
    requires WellFormed(s) && !Ignored(c) && c.width == Zero
    ensures
      var (g, r) := (s.grid, Exec(s, Print(c)));
      var above := g.pos.col == 0 && g.pos.row > 0 && g.rows[g.pos.row - 1].wrapped;
      if g.pos.col == 0 && !above then r == s
      else
        var (at, col) := (if above then g.pos.row - 1 else g.pos.row, if above then g.cols else g.pos.col);
        && OnlyRow(s, r, at)
        && |g.rows[at].cells| == g.cols
        && r.grid.rows[at] == g.rows[at].(cells := r.grid.rows[at].cells)
        && MarkedAt(g.rows[at].cells, r.grid.rows[at].cells, col, c)
  {
    hide ValidRows, EraseDisplay, EraseLine, EraseCells, ExecEditing, DrawBase, LineDown, Append, MarkedAt, MarkColumn;
    var g := s.grid;
    ExecIsOnGrid(s, Print(c));
    forall i | 0 <= i < g.height ensures ValidRow(g.rows[i], g.cols) { RowIsValid(g, i); }
    if g.pos.col > 0 {
      MarkIsAdded(g.rows[g.pos.row].cells, g.pos.col, c);
    } else if g.pos.row > 0 {
      MarkIsAdded(g.rows[g.pos.row - 1].cells, g.cols, c);
    }
  }

  lemma MarkIsAdded(cells: seq<Cell>, col: nat, c: Scalar)
    requires 0 < col <= |cells| && ValidCells(cells, |cells|)
    ensures
      var at := MarkColumn(cells, col);
      MarkedAt(cells, cells[at := Append(cells[at], c)], col, c)
  {
    assert PairedAt(cells, col - 1);
    assert [SPACE] + [c] == [SPACE, c];
  }

  /** The cell before column `col`, or before its continuation, has `c` added to its
      contents, on a space if it had none, unless they are 18 bytes or more. */
  predicate MarkedAt(cells: seq<Cell>, r: seq<Cell>, col: nat, c: Scalar)
    requires 0 < col <= |cells|
  {
    var at := if cells[col - 1].continuation && col > 1 then col - 2 else col - 1;
    var before := cells[at].contents;
    r == cells[at := cells[at].(contents :=
      if ByteLength(before) >= 18 then before else if before == [] then [Scalar(0x20, Narrow), c] else before + [c])]
  }
}
