/** A row of cells edited in place (`src/vt100/row.rs`): every loop is proved to
    compute the closed form used by the screen model. */
module RowBuffers {
  import opened Attributes
  import opened Cells

  class RowBuffer {
    var cells: seq<Cell>
    var wrapped: bool

    function View(): Row
      reads this
    {
      Row(cells, wrapped)
    }

    constructor (row: Row)
      ensures View() == row
    {
      cells, wrapped := row.cells, row.wrapped;
    }

    method Clear(attrs: Attrs)
      modifies this
      ensures cells == Blanks(|old(cells)|, attrs) && !wrapped
    {
      for i := 0 to |cells|
        invariant |cells| == |old(cells)|
        invariant forall j :: 0 <= j < i ==> cells[j] == Blank(attrs)
      {
        cells := cells[i := Blank(attrs)];
      }
      wrapped := false;
    }

    /** Blanking the other half of a wide character, keeping its attributes. */
    method ClearWide(col: nat)
      requires col < |cells| && PairedAt(cells, col)
      modifies this`cells
      ensures cells == ClearedHalf(old(cells), col)
    {
      if cells[col].wide {
        cells := cells[col + 1 := Blank(cells[col + 1].attrs)];
      } else if cells[col].continuation {
        cells := cells[col - 1 := Blank(cells[col - 1].attrs)];
      }
    }

    method Erase(col: nat, attrs: Attrs)
      requires 2 <= |cells| && col < |cells| && PairedAt(cells, col)
      modifies this
      ensures View() == ErasedAt(old(View()), col, attrs)
    {
      var wide := cells[col].wide;
      ClearWide(col);
      cells := cells[col := Blank(attrs)];
      if col == |cells| - (if wide then 2 else 1) {
        wrapped := false;
      }
    }

    /** The loop of the erasing commands over columns `from` to `to`. */
    method EraseColumns(from: nat, to: nat, attrs: Attrs)
      requires 2 <= |cells| && from <= to <= |cells| && attrs.WellFormed() && ValidRow(View(), |cells|)
      modifies this
      ensures View() == EraseRange(old(View()), from, to, attrs)
    {
      hide EraseRange, ErasedAt, ValidContents;
      ghost var was := View();
      EraseNothing(was, from, attrs);
      for col := from to to
        invariant |cells| == |was.cells| && View() == EraseRange(was, from, col, attrs)
      {
        assert PairedAt(cells, col);
        EraseOneMore(was, from, col, attrs);
        Erase(col, attrs);
      }
    }

    method Remove(col: nat)
      requires col < |cells| && PairedAt(cells, col)
      modifies this
      ensures cells == RemovedAt(old(cells), col) && !wrapped
    {
      ClearWide(col);
      cells := cells[..col] + cells[col + 1..];
      wrapped := false;
    }

    /** Drawing a base scalar: whatever wide character it cuts loses its other
        half first. */
    method Draw(col: nat, c: Scalar, attrs: Attrs)
      requires col + Columns(c) <= |cells| && ValidRow(View(), |cells|) && IsBase(c)
      modifies this
      ensures View() == if c.width == Wide then PutWide(old(View()), col, c, attrs)
                        else Row(PutNarrow(old(cells), col, c, attrs), old(wrapped))
    {
      hide ValidContents;
      assert PairedAt(cells, col) && ValidCell(cells[col]);
      assert col + 1 < |cells| ==> PairedAt(cells, col + 1);
      if cells[col].continuation {
        cells := cells[col - 1 := Blank(attrs)];
      }
      if cells[col].wide {
        cells := cells[col + 1 := Drawn(SPACE, attrs)];
      }
      cells := cells[col := Drawn(c, attrs)];
      if c.width == Wide {
        if cells[col + 1].wide {
          cells := cells[col + 2 := Blank(attrs)];
          if col + 2 == |cells| - 1 {
            wrapped := false;
          }
        }
        cells := cells[col + 1 := CONTINUATION];
      }
    }

    /** `delete_cells`: removing, then padding to the width. */
    method DeleteCells(at: nat, count: nat)
      requires at + count <= |cells| && ValidRow(View(), |cells|)
      modifies this
      ensures View() == DeleteRange(old(View()), at, count)
    {
      hide ValidContents, CutLeft, CutRight, RemovedAt, DeleteRange;
      ghost var was := cells;
      var cols := |cells|;
      for i := 0 to count
        invariant cells == Closed(was, at, i)
        invariant i > 0 ==> !wrapped
      {
        ClosedIsValid(was, at, i);
        assert PairedAt(cells, at);
        CloseOneMore(was, at, i);
        Remove(at);
      }
      ClosedIsRange(old(View()), at, count);
      cells := cells + Blanks(cols - |cells|, PLAIN);
      wrapped := false;
    }

    /** `insert_cells`: a continuation at the cursor stays with its wide half. */
    method InsertCells(at: nat, count: nat)
      requires 2 <= |cells| && at <= |cells| && ValidRow(View(), |cells|)
      modifies this
      ensures View() == InsertBlanks(old(View()), at, count)
    {
      hide ValidContents, Paired, Opened;
      ghost var was := cells;
      var cols := |cells|;
      var wide := at < |cells| && cells[at].continuation;
      OpenedNothing(was, at, wide);
      for i := 0 to count
        invariant cells == Opened(was, at, wide, i)
      {
        OpenOneMore(was, at, wide, i);
        if wide {
          cells := cells[at := cells[at].(continuation := false)];
        }
        cells := cells[..at] + [EMPTY] + cells[at..];
        if wide {
          cells := cells[at := cells[at].(continuation := true)];
        }
      }
      OpenedIsGap(was, at, wide, count);
      cells := cells[..cols];
      wrapped := false;
      if cells[cols - 1].wide {
        cells := cells[cols - 1 := Blank(cells[cols - 1].attrs)];
      }
    }
  }

  // -------------------------------------------------------------- single columns

  function ClearedHalf(cells: seq<Cell>, col: nat): (r: seq<Cell>)
    requires col < |cells| && PairedAt(cells, col)
    ensures |r| == |cells|
  {
    if cells[col].wide then cells[col + 1 := Blank(cells[col + 1].attrs)]
    else if cells[col].continuation then cells[col - 1 := Blank(cells[col - 1].attrs)]
    else cells
  }

  function ErasedAt(row: Row, col: nat, attrs: Attrs): (r: Row)
    requires col < |row.cells| && PairedAt(row.cells, col)
    ensures |r.cells| == |row.cells|
  {
    Row(ClearedHalf(row.cells, col)[col := Blank(attrs)],
        row.wrapped && col != |row.cells| - if row.cells[col].wide then 2 else 1)
  }

  function RemovedAt(cells: seq<Cell>, col: nat): (r: seq<Cell>)
    requires col < |cells| && PairedAt(cells, col)
    ensures |r| == |cells| - 1
  {
    var cut := ClearedHalf(cells, col);
    cut[..col] + cut[col + 1..]
  }

  // -------------------------------------------------------------------- erasing

  lemma EraseNothing(row: Row, from: nat, attrs: Attrs)
    requires from <= |row.cells| && attrs.WellFormed() && ValidRow(row, |row.cells|)
    ensures EraseRange(row, from, from, attrs) == row
  {
  }

  /** Column `i` of a row erased from `from` to `to`. */
  function ErasedCell(row: Row, from: nat, to: nat, attrs: Attrs, i: nat): Cell
    requires from <= to <= |row.cells| && i < |row.cells|
  {
    if from == to then row.cells[i]
    else if i < from then
      if i + 1 == from && row.cells[from].continuation then Blank(row.cells[i].attrs) else row.cells[i]
    else if i < to then Blank(attrs)
    else if i == to && row.cells[i].continuation then Blank(row.cells[i].attrs)
    else row.cells[i]
  }

  lemma EraseByCell(row: Row, from: nat, to: nat, attrs: Attrs)
    requires from <= to <= |row.cells| && attrs.WellFormed() && ValidRow(row, |row.cells|)
    ensures
      var r := EraseRange(row, from, to, attrs);
      && |r.cells| == |row.cells|
      && (forall i :: 0 <= i < |row.cells| ==> r.cells[i] == ErasedCell(row, from, to, attrs, i))
      && (r.wrapped <==>
            row.wrapped && (from < to ==> to < |row.cells| && !(to == |row.cells| - 1 && row.cells[to].continuation)))
  {
    hide ValidContents, Paired;
  }

  lemma EraseOneMore(row: Row, from: nat, col: nat, attrs: Attrs)
    requires from <= col < |row.cells| && 2 <= |row.cells| && attrs.WellFormed() && ValidRow(row, |row.cells|)
    ensures
      var part := EraseRange(row, from, col, attrs);
      && |part.cells| == |row.cells| && PairedAt(part.cells, col)
      && ErasedAt(part, col, attrs) == EraseRange(row, from, col + 1, attrs)
  {
    hide ValidContents, EraseRange;
    var part, next := EraseRange(row, from, col, attrs), EraseRange(row, from, col + 1, attrs);
    EraseByCell(row, from, col, attrs);
    EraseByCell(row, from, col + 1, attrs);
    assert PairedAt(part.cells, col) && PairedAt(row.cells, col) && ValidCell(row.cells[col]);
    if col > 0 { assert PairedAt(row.cells, col - 1) && ValidCell(row.cells[col - 1]); }
    if col + 1 < |row.cells| { assert PairedAt(row.cells, col + 1) && ValidCell(row.cells[col + 1]); }
    hide Paired, ValidCell;
    assert ErasedAt(part, col, attrs).cells == next.cells;
  }

  // ------------------------------------------------------------------- deleting

  /** The row, shorter, after `n` columns from `at` are gone. */
  function Closed(cells: seq<Cell>, at: nat, n: nat): (r: seq<Cell>)
    requires at + n <= |cells|
    ensures |r| == |cells| - n
  {
    if n == 0 then cells else CutLeft(cells, at) + CutRight(cells, at + n)
  }

  lemma ClosedIsValid(cells: seq<Cell>, at: nat, n: nat)
    requires at + n <= |cells| && ValidCells(cells, |cells|)
    ensures ValidCells(Closed(cells, at, n), |cells| - n)
  {
    hide CutLeft, CutRight, ValidContents;
    CutLeftIsValid(cells, at);
    CutRightIsValid(cells, at + n);
    JoinIsValid(CutLeft(cells, at), CutRight(cells, at + n));
  }

  /** Column `i` of the shortened row. */
  function ClosedCell(cells: seq<Cell>, at: nat, n: nat, i: nat): Cell
    requires 0 < n && at + n <= |cells| && i < |cells| - n
  {
    if i < at then if i + 1 == at && cells[at].continuation then Blank(cells[i].attrs) else cells[i]
    else if i == at && cells[i + n].continuation then Blank(cells[i + n].attrs)
    else cells[i + n]
  }

  lemma ClosedByCell(cells: seq<Cell>, at: nat, n: nat)
    requires 0 < n && at + n <= |cells|
    ensures forall i :: 0 <= i < |cells| - n ==> Closed(cells, at, n)[i] == ClosedCell(cells, at, n, i)
  {
  }

  lemma CloseOneMore(cells: seq<Cell>, at: nat, n: nat)
    requires at + n < |cells| && ValidCells(cells, |cells|)
    ensures PairedAt(Closed(cells, at, n), at)
    ensures RemovedAt(Closed(cells, at, n), at) == Closed(cells, at, n + 1)
  {
    hide ValidContents, Closed;
    var part := Closed(cells, at, n);
    ClosedIsValid(cells, at, n);
    assert PairedAt(part, at);
    if n == 0 { ClosedNothing(cells, at); } else { ClosedByCell(cells, at, n); }
    ClosedByCell(cells, at, n + 1);
    assert PairedAt(cells, at + n) && ValidCell(cells[at + n]);
    if at + n + 1 < |cells| { assert PairedAt(cells, at + n + 1) && ValidCell(cells[at + n + 1]); }
    hide Paired, ValidCell, RemovedAt, PairedAt;
    RemovedByCell(part, at);
    forall i | 0 <= i < |part| - 1 ensures RemovedAt(part, at)[i] == Closed(cells, at, n + 1)[i] {
      assert RemovedAt(part, at)[i] == RemovedCell(part, at, i);
      assert Closed(cells, at, n + 1)[i] == ClosedCell(cells, at, n + 1, i);
      SameCell(cells, at, n, part, i);
    }
  }

  function RemovedCell(cells: seq<Cell>, col: nat, i: nat): Cell
    requires col < |cells| && PairedAt(cells, col) && i < |cells| - 1
  {
    if i < col then
      if i + 1 == col && cells[col].continuation && !cells[col].wide then Blank(cells[i].attrs) else cells[i]
    else if i == col && cells[col].wide then Blank(cells[i + 1].attrs)
    else cells[i + 1]
  }

  lemma RemovedByCell(cells: seq<Cell>, col: nat)
    requires col < |cells| && PairedAt(cells, col)
    ensures forall i :: 0 <= i < |cells| - 1 ==> RemovedAt(cells, col)[i] == RemovedCell(cells, col, i)
  {
  }

  lemma SameCell(cells: seq<Cell>, at: nat, n: nat, part: seq<Cell>, i: nat)
    requires at + n < |cells| && |part| == |cells| - n && i < |part| - 1 && PairedAt(part, at)
    requires if n == 0 then part == cells else forall j :: 0 <= j < |part| ==> part[j] == ClosedCell(cells, at, n, j)
    requires PairedAt(cells, at + n) && ValidCell(cells[at + n])
    requires at + n + 1 < |cells| ==> PairedAt(cells, at + n + 1)
    ensures RemovedCell(part, at, i) == ClosedCell(cells, at, n + 1, i)
  {
    hide ValidContents;
  }

  lemma ClosedNothing(cells: seq<Cell>, at: nat)
    requires at <= |cells|
    ensures Closed(cells, at, 0) == cells
  {
  }

  lemma ClosedIsRange(row: Row, at: nat, n: nat)
    requires at + n <= |row.cells| && ValidRow(row, |row.cells|)
    ensures DeleteRange(row, at, n) == Row(Closed(row.cells, at, n) + Blanks(n, PLAIN), false)
  {
    hide ValidContents, CutLeft, CutRight;
    assert n == 0 ==> row.cells + Blanks(0, PLAIN) == row.cells;
  }

  // ------------------------------------------------------------------ inserting

  /** The row, longer, with `n` new cells at `at`. */
  function Opened(cells: seq<Cell>, at: nat, wide: bool, n: nat): (r: seq<Cell>)
    requires at + (if wide then 1 else 0) <= |cells|
    ensures |r| == |cells| + n
  {
    var split := if wide then at + 1 else at;
    cells[..split] + Blanks(n, PLAIN) + cells[split..]
  }

  lemma OpenedNothing(cells: seq<Cell>, at: nat, wide: bool)
    requires at + (if wide then 1 else 0) <= |cells|
    ensures Opened(cells, at, wide, 0) == cells
  {
  }

  lemma OpenOneMore(cells: seq<Cell>, at: nat, wide: bool, n: nat)
    requires at <= |cells| && ValidCells(cells, |cells|) && wide == (at < |cells| && cells[at].continuation)
    ensures
      var part := Opened(cells, at, wide, n);
      var plain := if wide then part[at := part[at].(continuation := false)] else part;
      var more := plain[..at] + [EMPTY] + plain[at..];
      Opened(cells, at, wide, n + 1) == if wide then more[at := more[at].(continuation := true)] else more
  {
    hide ValidContents;
    if wide { assert ValidCell(cells[at]); }
  }

  lemma OpenedIsGap(cells: seq<Cell>, at: nat, wide: bool, n: nat)
    requires at <= |cells| && wide == (at < |cells| && cells[at].continuation)
    ensures
      var split := Gap(cells, at, n);
      Opened(cells, at, wide, n) == cells[..split] + Blanks(n, PLAIN) + cells[split..]
  {
    if n == 0 {
      var split := Gap(cells, at, n);
      assert cells[..split] + Blanks(0, PLAIN) + cells[split..] == cells;
      assert Opened(cells, at, wide, 0) == cells;
    }
  }
}
