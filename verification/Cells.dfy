/** Scalars, cells and rows of cells (`src/vt100/cell.rs`, `src/vt100/row.rs`). */
module Cells {
  import opened Attributes

  /** The display width of a scalar; `Control` is the table's "no width".  The
      width table itself is a parameter: a scalar carries its own entry. */
  datatype Width = Control | Zero | Narrow | Wide

  datatype Scalar = Scalar(code: nat, width: Width)

  const SPACE: Scalar := Scalar(0x20, Narrow)

  /** C1 controls are reported, not printed. */
  predicate IsC1(c: Scalar) {
    0x80 <= c.code < 0xa0
  }

  /** A scalar `text` refuses to draw. */
  predicate IsUndrawable(c: Scalar) {
    c.width == Control && c.code < 256
  }

  function Columns(c: Scalar): nat {
    match c.width
    case Zero => 0
    case Wide => 2
    case Narrow => 1
    case Control => 1
  }

  function Utf8Length(c: Scalar): nat {
    if c.code < 0x80 then 1 else if c.code < 0x800 then 2 else if c.code < 0x1_0000 then 3 else 4
  }

  function ByteLength(contents: seq<Scalar>): nat {
    if contents == [] then 0 else ByteLength(contents[..|contents| - 1]) + Utf8Length(contents[|contents| - 1])
  }

  const CONTENT_BYTES := 22

  datatype Cell = Cell(contents: seq<Scalar>, wide: bool, continuation: bool, attrs: Attrs)

  function Blank(attrs: Attrs): Cell {
    Cell([], false, false, attrs)
  }

  const EMPTY: Cell := Blank(PLAIN)
  const CONTINUATION: Cell := Cell([], false, true, PLAIN)

  function Drawn(c: Scalar, attrs: Attrs): Cell {
    Cell([c], c.width == Wide, false, attrs)
  }

  /** `Cell::append`: a cell with no room for four more bytes drops the scalar. */
  function Append(cell: Cell, c: Scalar): Cell {
    if ByteLength(cell.contents) >= CONTENT_BYTES - 4 then cell
    else cell.(contents := (if cell.contents == [] then [SPACE] else cell.contents) + [c])
  }

  /** A scalar that can start a cell. */
  predicate IsBase(c: Scalar) {
    !IsC1(c) && !IsUndrawable(c) && c.width != Zero
  }

  predicate IsMark(c: Scalar) {
    !IsC1(c) && c.width == Zero
  }

  /** One base scalar followed by zero-width marks, each appended while it fitted. */
  predicate ValidContents(contents: seq<Scalar>) {
    contents == [] ||
    (&& IsBase(contents[0])
     && (forall i :: 1 <= i < |contents| ==> IsMark(contents[i]))
     && (forall i :: 1 <= i < |contents| ==> ByteLength(contents[..i]) < CONTENT_BYTES - 4))
  }

  predicate ValidCell(cell: Cell) {
    && ValidContents(cell.contents)
    && cell.attrs.WellFormed()
    && cell.wide == (cell.contents != [] && cell.contents[0].width == Wide)
    && (cell.continuation ==> cell == CONTINUATION)
  }

  /** A wide cell is followed by its continuation; a continuation follows a wide cell. */
  predicate PairedAt(cells: seq<Cell>, i: int)
    requires 0 <= i < |cells|
  {
    && (cells[i].wide ==> i + 1 < |cells| && cells[i + 1].continuation)
    && (cells[i].continuation ==> 0 < i && cells[i - 1].wide)
  }

  predicate Paired(cells: seq<Cell>) {
    forall i :: 0 <= i < |cells| ==> PairedAt(cells, i)
  }

  predicate ValidCells(cells: seq<Cell>, cols: nat) {
    && |cells| == cols
    && (forall i :: 0 <= i < |cells| ==> ValidCell(cells[i]))
    && Paired(cells)
  }

  datatype Row = Row(cells: seq<Cell>, wrapped: bool)

  predicate ValidRow(row: Row, cols: nat) {
    ValidCells(row.cells, cols)
  }

  function Blanks(n: nat, attrs: Attrs): (cells: seq<Cell>)
    ensures |cells| == n && forall i :: 0 <= i < n ==> cells[i] == Blank(attrs)
  {
    seq(n, _ => Blank(attrs))
  }

  function NewRow(cols: nat): (row: Row)
    ensures ValidRow(row, cols)
  {
    Row(Blanks(cols, PLAIN), false)
  }

  function ClearedRow(cols: nat, attrs: Attrs): (row: Row)
    requires attrs.WellFormed()
    ensures ValidRow(row, cols)
  {
    Row(Blanks(cols, attrs), false)
  }

  /** Forgetting the first half of a wide character cut at column `at`. */
  function CutLeft(cells: seq<Cell>, at: nat): (left: seq<Cell>)
    requires at <= |cells|
    ensures |left| == at
  {
    if 0 < at < |cells| && cells[at].continuation then cells[..at - 1] + [Blank(cells[at - 1].attrs)]
    else cells[..at]
  }

  /** Forgetting the second half of a wide character cut at column `at`. */
  function CutRight(cells: seq<Cell>, at: nat): (right: seq<Cell>)
    requires at <= |cells|
    ensures |right| == |cells| - at
  {
    if at < |cells| && cells[at].continuation then [Blank(cells[at].attrs)] + cells[at + 1..]
    else cells[at..]
  }

  lemma CutLeftIsValid(cells: seq<Cell>, at: nat)
    requires ValidCells(cells, |cells|) && at <= |cells|
    ensures ValidCells(CutLeft(cells, at), at)
  {
    var left := CutLeft(cells, at);
    if at < |cells| { assert PairedAt(cells, at); }
    if at > 0 { assert ValidCell(cells[at - 1]); }
    forall i | 0 <= i < at ensures PairedAt(left, i) && ValidCell(left[i]) {
      assert PairedAt(cells, i);
      if i > 0 { assert PairedAt(cells, i - 1); }
      assert ValidCell(cells[i]);
    }
  }

  lemma CutRightIsValid(cells: seq<Cell>, at: nat)
    requires ValidCells(cells, |cells|) && at <= |cells|
    ensures ValidCells(CutRight(cells, at), |cells| - at)
  {
    var right := CutRight(cells, at);
    forall i | 0 <= i < |right| ensures PairedAt(right, i) && ValidCell(right[i]) {
      assert PairedAt(cells, at + i);
      assert ValidCell(cells[at + i]);
      if at + i + 1 < |cells| { assert PairedAt(cells, at + i + 1); }
      if i > 0 { assert PairedAt(cells, at + i - 1); }
    }
  }

  lemma JoinIsValid(left: seq<Cell>, right: seq<Cell>)
    requires ValidCells(left, |left|) && ValidCells(right, |right|)
    ensures ValidCells(left + right, |left| + |right|)
  {
    var both := left + right;
    forall i | 0 <= i < |both| ensures PairedAt(both, i) && ValidCell(both[i]) {
      if i < |left| { assert PairedAt(left, i); } else { assert PairedAt(right, i - |left|); }
    }
  }

  /** Erasing columns `from` to `to`: a wide character cut by either end loses its
      other half, and a soft wrap survives unless the last cell was touched. */
  function EraseRange(row: Row, from: nat, to: nat, attrs: Attrs): (r: Row)
    requires from <= to <= |row.cells| && attrs.WellFormed() && ValidRow(row, |row.cells|)
    ensures ValidRow(r, |row.cells|)
  {
    if from == to then row
    else
      CutLeftIsValid(row.cells, from);
      CutRightIsValid(row.cells, to);
      JoinIsValid(CutLeft(row.cells, from), Blanks(to - from, attrs));
      JoinIsValid(CutLeft(row.cells, from) + Blanks(to - from, attrs), CutRight(row.cells, to));
      Row(CutLeft(row.cells, from) + Blanks(to - from, attrs) + CutRight(row.cells, to),
          row.wrapped && to < |row.cells| && !(to == |row.cells| - 1 && row.cells[to].continuation))
  }

  /** A wide character left alone in the last column is forgotten. */
  function Truncated(cells: seq<Cell>, cols: nat): (r: seq<Cell>)
    requires 0 < cols <= |cells|
    ensures |r| == cols
  {
    if cells[cols - 1].wide then cells[..cols - 1] + [Blank(cells[cols - 1].attrs)] else cells[..cols]
  }

  lemma TruncatedIsValid(cells: seq<Cell>, cols: nat)
    requires 0 < cols <= |cells| && ValidCells(cells, |cells|)
    ensures ValidCells(Truncated(cells, cols), cols)
  {
    CutLeftIsValid(cells, cols);
    assert PairedAt(cells, cols - 1);
    if cols < |cells| { assert PairedAt(cells, cols); }
    assert Truncated(cells, cols) == CutLeft(cells, cols) || cols == |cells|;
  }

  /** Where `insert_cells` opens the gap: after a continuation, which stays
      attached to its wide half. */
  function Gap(cells: seq<Cell>, at: nat, count: nat): (split: nat)
    requires at <= |cells|
    ensures split <= |cells|
  {
    if at < |cells| && cells[at].continuation && count > 0 then at + 1 else at
  }

  lemma GapSplits(cells: seq<Cell>, at: nat, count: nat)
    requires at <= |cells| && ValidCells(cells, |cells|)
    requires at < |cells| && cells[at].continuation ==> count > 0
    ensures ValidCells(cells[..Gap(cells, at, count)], Gap(cells, at, count))
    ensures ValidCells(cells[Gap(cells, at, count)..], |cells| - Gap(cells, at, count))
  {
    var split := Gap(cells, at, count);
    CutLeftIsValid(cells, split);
    CutRightIsValid(cells, split);
    if at < |cells| { assert PairedAt(cells, at) && ValidCell(cells[at]); }
    if split < |cells| { assert PairedAt(cells, split); }
  }

  /** `insert_cells` on one row. */
  function InsertBlanks(row: Row, at: nat, count: nat): (r: Row)
    requires 0 < |row.cells| && at <= |row.cells| && ValidRow(row, |row.cells|)
    ensures |r.cells| == |row.cells|
  {
    var split := Gap(row.cells, at, count);
    Row(Truncated(row.cells[..split] + Blanks(count, PLAIN) + row.cells[split..], |row.cells|), false)
  }

  lemma InsertBlanksIsValid(row: Row, at: nat, count: nat)
    requires 0 < |row.cells| && at <= |row.cells| && ValidRow(row, |row.cells|)
    ensures ValidRow(InsertBlanks(row, at, count), |row.cells|)
  {
    var cells, split := row.cells, Gap(row.cells, at, count);
    var wider := cells[..split] + Blanks(count, PLAIN) + cells[split..];
    if count == 0 {
      assert wider == cells;
    } else {
      GapSplits(cells, at, count);
      JoinIsValid(cells[..split], Blanks(count, PLAIN));
      JoinIsValid(cells[..split] + Blanks(count, PLAIN), cells[split..]);
    }
    TruncatedIsValid(wider, |cells|);
  }

  /** `delete_cells` on one row. */
  function DeleteRange(row: Row, at: nat, count: nat): (r: Row)
    requires at + count <= |row.cells| && ValidRow(row, |row.cells|)
    ensures ValidRow(r, |row.cells|)
  {
    if count == 0 then row.(wrapped := false)
    else
      CutLeftIsValid(row.cells, at);
      CutRightIsValid(row.cells, at + count);
      JoinIsValid(CutLeft(row.cells, at), CutRight(row.cells, at + count));
      JoinIsValid(CutLeft(row.cells, at) + CutRight(row.cells, at + count), Blanks(count, PLAIN));
      Row(CutLeft(row.cells, at) + CutRight(row.cells, at + count) + Blanks(count, PLAIN), false)
  }

  /** Drawing a narrow base scalar at `at`. */
  function PutNarrow(cells: seq<Cell>, at: nat, c: Scalar, attrs: Attrs): (r: seq<Cell>)
    requires at < |cells| && ValidCells(cells, |cells|)
    ensures |r| == |cells| && r[at] == Drawn(c, attrs)
    ensures forall i :: at + 1 < i < |cells| ==> r[i] == cells[i]
    ensures at + 1 < |cells| ==> r[at + 1] == if cells[at].wide then Drawn(SPACE, attrs) else cells[at + 1]
  {
    assert PairedAt(cells, at) && ValidCell(cells[at]);
    var s1 := if cells[at].continuation then cells[at - 1 := Blank(attrs)] else cells;
    var s2 := if cells[at].wide then s1[at + 1 := Drawn(SPACE, attrs)] else s1;
    s2[at := Drawn(c, attrs)]
  }

  /** Drawing a wide base scalar at `at`; whatever was cut is forgotten. */
  function PutWide(row: Row, at: nat, c: Scalar, attrs: Attrs): (r: Row)
    requires at + 1 < |row.cells| && ValidRow(row, |row.cells|)
    ensures |r.cells| == |row.cells| && r.cells[at] == Drawn(c, attrs) && r.cells[at + 1] == CONTINUATION
  {
    var s1 := PutNarrow(row.cells, at, c, attrs);
    assert PairedAt(row.cells, at + 1);
    if s1[at + 1].wide then
      Row(s1[at + 2 := Blank(attrs)][at + 1 := CONTINUATION], row.wrapped && at + 2 != |row.cells| - 1)
    else
      Row(s1[at + 1 := CONTINUATION], row.wrapped)
  }

  lemma PutNarrowIsValid(cells: seq<Cell>, at: nat, c: Scalar, attrs: Attrs)
    requires at < |cells| && ValidCells(cells, |cells|)
    requires IsBase(c) && c.width != Wide && attrs.WellFormed()
    ensures ValidCells(PutNarrow(cells, at, c, attrs), |cells|)
  {
    var r := PutNarrow(cells, at, c, attrs);
    assert PairedAt(cells, at);
    forall i | 0 <= i < |r| ensures PairedAt(r, i) && ValidCell(r[i]) {
      assert PairedAt(cells, i) && ValidCell(cells[i]);
      if i > 0 { assert PairedAt(cells, i - 1); }
      if i + 1 < |r| { assert PairedAt(cells, i + 1); }
    }
  }

  lemma PutWideIsValid(row: Row, at: nat, c: Scalar, attrs: Attrs)
    requires at + 1 < |row.cells| && ValidRow(row, |row.cells|)
    requires IsBase(c) && c.width == Wide && attrs.WellFormed()
    ensures ValidRow(PutWide(row, at, c, attrs), |row.cells|)
  {
    var cells, r := row.cells, PutWide(row, at, c, attrs).cells;
    assert PairedAt(cells, at) && PairedAt(cells, at + 1);
    forall i | 0 <= i < |r| ensures ValidCell(r[i]) {
      assert ValidCell(cells[i]);
    }
    PutWideIsPaired(row, at, c, attrs);
  }

  lemma PutWideIsPaired(row: Row, at: nat, c: Scalar, attrs: Attrs)
    requires at + 1 < |row.cells| && ValidRow(row, |row.cells|)
    requires c.width == Wide
    ensures Paired(PutWide(row, at, c, attrs).cells)
  {
    hide ValidContents;
    var cells, r := row.cells, PutWide(row, at, c, attrs).cells;
    assert PairedAt(cells, at) && PairedAt(cells, at + 1);
    forall i | 0 <= i < |r| ensures PairedAt(r, i) {
      assert PairedAt(cells, i) && ValidCell(cells[i]);
      if i > 0 { assert PairedAt(cells, i - 1); }
      if i + 1 < |r| { assert PairedAt(cells, i + 1); }
    }
  }

  /** The column of the character a mark at the cursor attaches to. */
  function MarkColumn(cells: seq<Cell>, col: nat): (at: nat)
    requires 0 < col <= |cells| && ValidCells(cells, |cells|)
    ensures at < |cells| && !cells[at].continuation
  {
    assert PairedAt(cells, col - 1);
    assert col > 1 ==> PairedAt(cells, col - 2);
    if cells[col - 1].continuation then col - 2 else col - 1
  }

  lemma AppendIsValid(cells: seq<Cell>, at: nat, c: Scalar)
    requires at < |cells| && ValidCells(cells, |cells|) && !cells[at].continuation && IsMark(c)
    ensures ValidCells(cells[at := Append(cells[at], c)], |cells|)
  {
    var r := cells[at := Append(cells[at], c)];
    forall i | 0 <= i < |r| ensures PairedAt(r, i) {
      assert PairedAt(cells, i);
    }
    var cell := cells[at];
    var start := if cell.contents == [] then [SPACE] else cell.contents;
    if ByteLength(cell.contents) < CONTENT_BYTES - 4 {
      var contents := start + [c];
      forall i | 1 <= i < |contents| ensures ByteLength(contents[..i]) < CONTENT_BYTES - 4 {
        assert contents[..i] == start[..i];
        if i == |start| { assert start[..i] == start; }
      }
    }
  }
}
