/** The grid with its rows, cursor and scroll region updated in place
    (`src/vt100/grid.rs`).  A row is owned by the grid alone, so an operation on
    one row runs on a buffer of it that is then stored back. */
module GridBuffers {
  import opened Attributes
  import opened Cells
  import opened Screens
  import opened Resizing
  import opened RowBuffers

  function InsertedRow(rows: seq<Row>, at: nat, row: Row): (r: seq<Row>)
    requires at <= |rows|
    ensures |r| == |rows| + 1
  {
    rows[..at] + [row] + rows[at..]
  }

  function RemovedRow(rows: seq<Row>, at: nat): (r: seq<Row>)
    requires at < |rows|
    ensures |r| == |rows| - 1
  {
    rows[..at] + rows[at + 1..]
  }

  class GridBuffer {
    var height: nat
    var cols: nat
    var rows: seq<Row>
    var pos: Pos
    var savedPos: Pos
    var top: nat
    var bottom: nat
    var origin: bool
    var savedOrigin: bool

    function View(): Grid
      reads this
    {
      Grid(height, cols, rows, pos, savedPos, top, bottom, origin, savedOrigin)
    }

    constructor (g: Grid)
      ensures View() == g
    {
      height, cols := g.height, g.cols;
      rows, pos, savedPos, top, bottom, origin, savedOrigin :=
        g.rows, g.pos, g.savedPos, g.top, g.bottom, g.origin, g.savedOrigin;
    }

    // ------------------------------------------------------------ whole rows

    method ScrollRowsUp(count: nat)
      requires ValidGrid(View())
      modifies this`rows
      ensures View() == ScrollUp(old(View()), count)
    {
      hide ShiftUp, InsertedRow, RemovedRow, NewRow, ValidRows;
      var n := Min(count, height - top);
      ShiftNothing(rows, top, bottom + 1, cols);
      for i := 0 to n
        invariant |rows| == height && rows == ShiftUp(old(rows), top, bottom + 1, i, cols)
      {
        UpOneMore(old(rows), top, bottom + 1, i, cols);
        rows := InsertedRow(rows, bottom + 1, NewRow(cols));
        rows := RemovedRow(rows, top);
      }
    }

    method ScrollRowsDown(count: nat)
      requires ValidGrid(View())
      modifies this`rows
      ensures View() == ScrollDown(old(View()), count)
    {
      hide ShiftDown, InsertedRow, RemovedRow, Unwrapped, NewRow, ValidRows;
      ghost var shifted := rows;
      ShiftNothing(rows, top, bottom + 1, cols);
      for i := 0 to count
        invariant |rows| == height == |shifted| && shifted == ShiftDown(old(rows), top, bottom + 1, i, cols)
        invariant rows == if i == 0 then shifted else Unwrapped(shifted, bottom)
      {
        DownOneMore(old(rows), top, bottom + 1, i, cols);
        UnwrappedRemoved(shifted, bottom);
        rows := RemovedRow(rows, bottom);
        rows := InsertedRow(rows, top, NewRow(cols));
        shifted := rows;
        rows := Unwrapped(rows, bottom);
      }
    }

    method InsertRows(count: nat)
      requires ValidGrid(View())
      modifies this`rows
      ensures View() == InsertLines(old(View()), count)
    {
      hide ShiftDown, ShiftUp;
      if pos.row <= bottom {
        InsertRowsInside(count);
      } else {
        InsertRowsBelow(count);
      }
    }

    /** The loop of `insert_lines` with the cursor above the region's end. */
    method InsertRowsInside(count: nat)
      requires ValidGrid(View()) && pos.row <= bottom
      modifies this`rows
      ensures View() == InsertLines(old(View()), count)
    {
      hide ShiftDown, ShiftUp, InsertedRow, RemovedRow, Unwrapped, NewRow, ValidRows;
      ghost var shifted := rows;
      ShiftNothing(rows, pos.row, bottom + 1, cols);
      for i := 0 to count
        invariant |rows| == height == |shifted| && shifted == ShiftDown(old(rows), pos.row, bottom + 1, i, cols)
        invariant rows == if i == 0 then shifted else Unwrapped(shifted, bottom)
      {
        DownOneMore(old(rows), pos.row, bottom + 1, i, cols);
        UnwrappedRemoved(shifted, bottom);
        rows := RemovedRow(rows, bottom);
        rows := InsertedRow(rows, pos.row, NewRow(cols));
        shifted := rows;
        rows := Unwrapped(rows, bottom);
      }
    }

    /** The same loop with the cursor below the region. */
    method InsertRowsBelow(count: nat)
      requires ValidGrid(View()) && bottom < pos.row
      modifies this`rows
      ensures View() == InsertLines(old(View()), count)
    {
      hide ShiftDown, ShiftUp, InsertedRow, RemovedRow, Unwrapped, NewRow, ValidRows;
      ghost var shifted := rows;
      ShiftNothing(rows, bottom, pos.row + 1, cols);
      for i := 0 to count
        invariant |rows| == height == |shifted| && shifted == ShiftUp(old(rows), bottom, pos.row + 1, i, cols)
        invariant rows == if i == 0 then shifted else Unwrapped(shifted, bottom)
      {
        UpOneMore(old(rows), bottom, pos.row + 1, i, cols);
        UnwrappedRemoved(shifted, bottom);
        rows := RemovedRow(rows, bottom);
        rows := InsertedRow(rows, pos.row, NewRow(cols));
        shifted := rows;
        rows := Unwrapped(rows, bottom);
      }
    }

    method DeleteRows(count: nat)
      requires ValidGrid(View())
      modifies this`rows
      ensures View() == DeleteLines(old(View()), count)
    {
      hide ShiftDown, ShiftUp, InsertedRow, RemovedRow, NewRow, ValidRows;
      var n := Min(count, height - pos.row);
      var inside := pos.row <= bottom;
      if inside {
        ShiftNothing(rows, pos.row, bottom + 1, cols);
      } else {
        ShiftNothing(rows, bottom + 1, pos.row, cols);
      }
      for i := 0 to n
        invariant |rows| == height
        invariant rows == if inside then ShiftUp(old(rows), pos.row, bottom + 1, i, cols)
                          else ShiftDown(old(rows), bottom + 1, pos.row, i, cols)
      {
        if inside {
          UpOneMore(old(rows), pos.row, bottom + 1, i, cols);
        } else {
          DownOneMore(old(rows), bottom + 1, pos.row, i, cols);
        }
        rows := InsertedRow(rows, bottom + 1, NewRow(cols));
        rows := RemovedRow(rows, pos.row);
      }
    }

    /** Clearing rows `lo` up to `end`. */
    method ClearWholeRows(lo: nat, end: nat, attrs: Attrs)
      requires ValidGrid(View()) && lo <= end <= height && attrs.WellFormed()
      modifies this`rows
      ensures View() == ClearRows(old(View()), lo, end, attrs)
    {
      for i := lo to end
        invariant |rows| == height
        invariant forall j :: 0 <= j < height ==>
          rows[j] == if lo <= j < i then ClearedRow(cols, attrs) else old(rows)[j]
      {
        var row := new RowBuffer(rows[i]);
        assert ValidRow(old(rows)[i], cols);
        row.Clear(attrs);
        rows := rows[i := row.View()];
      }
      assert rows == ClearRows(old(View()), lo, end, attrs).rows;
    }

    /** The rows of `set_size`: each is cut or filled up, then rows are dropped or
        added. */
    method ResizeRows(newHeight: nat, newCols: nat)
      modifies this`rows
      ensures rows == ResizedRows(old(rows), newHeight, newCols)
    {
      hide ResizedRow;
      for i := 0 to |rows|
        invariant |rows| == |old(rows)|
        invariant forall j :: 0 <= j < |rows| ==>
          rows[j] == if j < i then ResizedRow(old(rows)[j], newCols) else old(rows)[j]
      {
        rows := rows[i := ResizedRow(rows[i], newCols)];
      }
      if newHeight <= |rows| {
        rows := rows[..newHeight];
      } else {
        rows := rows + seq(newHeight - |rows|, _ => NewRow(newCols));
      }
    }

    method SetSize(newHeight: nat, newCols: nat)
      requires ValidGrid(View()) && newHeight > 0 && newCols > 0
      modifies this
      ensures View() == Resized(old(View()), newHeight, newCols)
    {
      hide ResizedRows, ValidRows;
      if bottom == height - 1 { bottom := newHeight - 1; }
      ResizeRows(newHeight, newCols);
      height, cols := newHeight, newCols;
      if bottom >= height { bottom := height - 1; }
      if bottom < top { top := 0; }
      pos := Pos(Min(pos.row, height - 1), Min(pos.col, cols - 1));
      savedPos := Pos(Min(savedPos.row, height - 1), Min(savedPos.col, cols - 1));
    }

    // -------------------------------------------------------- the current row

    method EraseInRow(from: nat, to: nat, attrs: Attrs)
      requires ValidGrid(View()) && from <= to <= cols && attrs.WellFormed()
      modifies this`rows
      ensures View() == Screens.EraseColumns(old(View()), from, to, attrs)
    {
      hide EraseRange;
      assert ValidRow(rows[pos.row], cols);
      var row := new RowBuffer(rows[pos.row]);
      row.EraseColumns(from, to, attrs);
      rows := rows[pos.row := row.View()];
    }

    method EraseInLine(mode: nat, attrs: Attrs)
      requires ValidGrid(View()) && attrs.WellFormed()
      modifies this`rows
      ensures View() == EraseLine(old(View()), mode, attrs)
    {
      hide EraseRange;
      match mode {
        case 0 => EraseInRow(pos.col, cols, attrs);
        case 1 => EraseInRow(0, Min(pos.col, cols - 1) + 1, attrs);
        case 2 =>
          assert ValidRow(rows[pos.row], cols);
          var row := new RowBuffer(rows[pos.row]);
          row.Clear(attrs);
          rows := rows[pos.row := row.View()];
        case _ =>
      }
    }

    method EraseInDisplay(mode: nat, attrs: Attrs)
      requires ValidGrid(View()) && attrs.WellFormed()
      modifies this`rows
      ensures View() == EraseDisplay(old(View()), mode, attrs)
    {
      hide EraseRange, ClearRows;
      match mode {
        case 0 =>
          ClearWholeRows(pos.row + 1, height, attrs);
          EraseInRow(pos.col, cols, attrs);
        case 1 =>
          ClearWholeRows(0, pos.row, attrs);
          EraseInRow(0, Min(pos.col, cols - 1) + 1, attrs);
        case 2 => ClearWholeRows(0, height, attrs);
        case _ =>
      }
    }

    method InsertBlankCells(count: nat)
      requires ValidGrid(View())
      modifies this`rows
      ensures View() == Screens.InsertCells(old(View()), count)
    {
      hide InsertBlanks;
      assert ValidRow(rows[pos.row], cols);
      var row := new RowBuffer(rows[pos.row]);
      row.InsertCells(pos.col, count);
      rows := rows[pos.row := row.View()];
    }

    method DeleteSomeCells(count: nat)
      requires ValidGrid(View())
      modifies this`rows
      ensures View() == Screens.DeleteCells(old(View()), count)
    {
      hide DeleteRange;
      assert ValidRow(rows[pos.row], cols);
      var row := new RowBuffer(rows[pos.row]);
      row.DeleteCells(pos.col, Min(count, cols - pos.col));
      rows := rows[pos.row := row.View()];
    }

    // --------------------------------------------------------------- the cursor

    /** Clamping to the scroll region or the screen; how many rows were cut off. */
    method ClampTop(region: bool) returns (lines: nat)
      modifies this`pos
      ensures
        if region && old(pos).row < top then lines == top - old(pos).row && pos == Pos(top, old(pos).col)
        else lines == 0 && pos == old(pos)
    {
      lines := 0;
      if region && pos.row < top {
        lines := top - pos.row;
        pos := Pos(top, pos.col);
      }
    }

    method ClampBottom(region: bool) returns (lines: nat)
      requires 1 <= height
      modifies this`pos
      ensures
        var limit := if region then bottom else height - 1;
        if old(pos).row > limit then lines == old(pos).row - limit && pos == Pos(limit, old(pos).col)
        else lines == 0 && pos == old(pos)
    {
      lines := 0;
      var limit := if region then bottom else height - 1;
      if pos.row > limit {
        lines := pos.row - limit;
        pos := Pos(limit, pos.col);
      }
    }

    method MoveTo(row: nat, col: nat)
      requires ValidGrid(View())
      modifies this`pos
      ensures View() == SetPos(old(View()), row, col)
    {
      hide ValidRows;
      pos := Pos(if origin then row + top else row, col);
      var above := ClampTop(origin);
      var below := ClampBottom(origin);
      pos := Pos(pos.row, Min(pos.col, cols - 1));
    }

    method DownClamped(count: nat)
      requires ValidGrid(View())
      modifies this`pos
      ensures View() == RowDown(old(View()), count)
    {
      var inside := top <= pos.row <= bottom;
      pos := Pos(pos.row + count, pos.col);
      var cut := ClampBottom(inside);
    }

    method UpClamped(count: nat)
      requires ValidGrid(View())
      modifies this`pos
      ensures View() == RowUp(old(View()), count)
    {
      var inside := top <= pos.row <= bottom;
      pos := Pos(if pos.row < count then 0 else pos.row - count, pos.col);
      var cut := ClampTop(inside);
    }

    /** `row_inc_scroll(1)`. */
    method DownScrolling() returns (scrolled: nat)
      requires ValidGrid(View())
      modifies this
      ensures (View(), scrolled) == LineDown(old(View()))
    {
      hide ShiftUp;
      var inside := top <= pos.row <= bottom;
      pos := Pos(pos.row + 1, pos.col);
      var lines := ClampBottom(inside);
      if inside {
        NoScroll(View());
        ScrollRowsUp(lines);
        return lines;
      }
      return 0;
    }

    /** `row_dec_scroll(1)`. */
    method UpScrolling()
      requires ValidGrid(View())
      modifies this
      ensures View() == LineUp(old(View()))
    {
      hide ShiftDown;
      var inside := top <= pos.row <= bottom;
      var extra := if pos.row == 0 then 1 else 0;
      pos := Pos(if pos.row == 0 then 0 else pos.row - 1, pos.col);
      var lines := ClampTop(inside);
      ScrollRowsDown(lines + extra);
    }

    method SetRegion(low: nat, high: nat)
      requires ValidGrid(View())
      modifies this
      ensures View() == SetScrollRegion(old(View()), low, high)
    {
      var last := Min(high, height - 1);
      if low < last {
        top, bottom := low, last;
      } else {
        top, bottom := 0, height - 1;
      }
      pos := Pos(top, 0);
    }

    method SetOriginMode(on: bool)
      requires ValidGrid(View())
      modifies this
      ensures View() == SetOrigin(old(View()), on)
    {
      origin := on;
      MoveTo(0, 0);
    }

    /** `col_wrap`. */
    method WrapColumn(width: nat, wrap: bool)
      requires ValidGrid(View()) && width <= 2
      modifies this
      ensures View() == ColumnWrap(old(View()), width, wrap)
    {
      hide ShiftUp, LineDown;
      if pos.col > cols - width {
        var before := pos.row;
        pos := Pos(pos.row, 0);
        var scrolled := DownScrolling();
        var left := before - scrolled;
        rows := rows[left := rows[left].(wrapped := wrap && left + 1 == pos.row)];
      }
    }

    // ---------------------------------------------------------------- drawing

    /** A mark joins the character at or before a column of a row. */
    method Attach(row: nat, col: nat, c: Scalar)
      requires ValidGrid(View()) && row < height && 0 < col <= cols && IsMark(c)
      modifies this`rows
      ensures View() == MarkAt(old(View()), row, col, c)
    {
      assert ValidRow(rows[row], cols);
      var cells := rows[row].cells;
      assert PairedAt(cells, col - 1);
      var at := col - 1;
      if cells[at].continuation {
        at := col - 2;
      }
      rows := rows[row := rows[row].(cells := cells[at := Append(cells[at], c)])];
    }

    /** `Screen::text` on the grid it draws on. */
    method DrawText(c: Scalar, attrs: Attrs)
      requires ValidGrid(View()) && attrs.WellFormed() && !IsC1(c)
      modifies this
      ensures View() == Text(old(View()), c, attrs)
    {
      hide ColumnWrap, AttachMark, DrawBase;
      if IsUndrawable(c) {
        return;
      }
      var width := Columns(c);
      var wrap := false;
      if pos.col > cols - width {
        var last := rows[pos.row].cells[cols - 1];
        if last.contents != [] || last.continuation {
          wrap := true;
        }
      }
      WrapColumn(width, wrap);
      DrawHere(c, attrs);
    }

    /** Drawing where the character is known to fit. */
    method DrawHere(c: Scalar, attrs: Attrs)
      requires ValidGrid(View()) && attrs.WellFormed() && !IsC1(c) && !IsUndrawable(c) && pos.col + Columns(c) <= cols
      modifies this
      ensures View() == if Columns(c) == 0 then AttachMark(old(View()), c) else DrawBase(old(View()), c, attrs)
    {
      hide MarkAt, PutWide, PutNarrow;
      var width := Columns(c);
      if width == 0 {
        if pos.col > 0 {
          Attach(pos.row, pos.col, c);
        } else if pos.row > 0 && rows[pos.row - 1].wrapped {
          Attach(pos.row - 1, cols, c);
        }
      } else {
        assert ValidRow(rows[pos.row], cols);
        var row := new RowBuffer(rows[pos.row]);
        row.Draw(pos.col, c, attrs);
        rows := rows[pos.row := row.View()];
        pos := Pos(pos.row, pos.col + width);
      }
    }

    method Reset()
      requires ValidGrid(View())
      modifies this
      ensures View() == FreshGrid(old(height), old(cols))
    {
      rows := NewRows(height, cols);
      pos, savedPos, top, bottom, origin, savedOrigin := Pos(0, 0), Pos(0, 0), 0, height - 1, false, false;
    }

    // ----------------------------------------------------------------- commands

    method Place(row: nat, col: nat)
      requires ValidGrid(View()) && row < height && col <= cols
      modifies this`pos
      ensures View() == At(old(View()), row, col)
    {
      pos := Pos(row, col);
    }

    /** The commands that only move the cursor. */
    method Travel(command: Command)
      requires ValidGrid(View())
      requires command.Tab? || command.CursorUp? || command.CursorDown? || command.CursorBack? || command.NextLine?
        || command.PreviousLine? || command.Column? || command.Line?
      modifies this`pos
      ensures View() == ExecEditing(old(View()), command)
    {
      hide RowUp, RowDown, ValidGrid, At;
      CursorBounds(View());
      match command {
        case Tab => Place(pos.row, Min(pos.col - pos.col % 8 + 8, cols - 1));
        case CursorUp(n) => UpClamped(n);
        case CursorDown(n) => DownClamped(n);
        case CursorBack(n) => Place(pos.row, if pos.col < n then 0 else pos.col - n);
        case NextLine(n) =>
          Place(pos.row, 0);
          DownClamped(n);
        case PreviousLine(n) =>
          Place(pos.row, 0);
          UpClamped(n);
        case Column(n) => Place(pos.row, Min(n, cols - 1));
        case Line(n) => Place(Min(n, height - 1), pos.col);
      }
    }

    method Edit(command: Command)
      requires ValidGrid(View())
      modifies this
      ensures View() == ExecEditing(old(View()), command)
    {
      hide ScrollUp, ScrollDown, InsertLines, DeleteLines, Screens.InsertCells, Screens.DeleteCells, SetScrollRegion,
        LineUp, ValidGrid, At;
      match command {
        case ReverseIndex => UpScrolling();
        case InsertLine(n) => InsertRows(n);
        case DeleteLine(n) => DeleteRows(n);
        case InsertCharacter(n) => InsertBlankCells(n);
        case DeleteCharacter(n) => DeleteSomeCells(n);
        case PanDown(n) => ScrollRowsUp(n);
        case PanUp(n) => ScrollRowsDown(n);
        case Margins(low, high) => SetRegion(low, high);
        case Tab => Travel(command);
        case CursorUp(_) => Travel(command);
        case CursorDown(_) => Travel(command);
        case CursorBack(_) => Travel(command);
        case NextLine(_) => Travel(command);
        case PreviousLine(_) => Travel(command);
        case Column(_) => Travel(command);
        case Line(_) => Travel(command);
        case _ =>
      }
    }

    method Stride(command: Command, attrs: Attrs)
      requires ValidGrid(View()) && attrs.WellFormed()
      requires command.Backspace? || command.CarriageReturn? || command.CursorForward? || command.MoveTo?
      modifies this`pos
      ensures View() == ExecDrawing(old(View()), attrs, command)
    {
      hide SetPos, ValidGrid, At;
      CursorBounds(View());
      match command {
        case Backspace => Place(pos.row, if pos.col == 0 then 0 else pos.col - 1);
        case CarriageReturn => Place(pos.row, 0);
        case CursorForward(n) => Place(pos.row, Min(pos.col + n, cols - 1));
        case MoveTo(row, col) => MoveTo(row, col);
      }
    }

    method Wipe(command: Command, attrs: Attrs)
      requires ValidGrid(View()) && attrs.WellFormed()
      requires command.EraseInDisplay? || command.EraseInLine? || command.EraseCharacter?
      modifies this`rows
      ensures View() == ExecDrawing(old(View()), attrs, command)
    {
      hide EraseDisplay, EraseLine, Screens.EraseColumns, ValidGrid;
      CursorBounds(View());
      match command {
        case EraseInDisplay(mode) => EraseInDisplay(mode, attrs);
        case EraseInLine(mode) => EraseInLine(mode, attrs);
        case EraseCharacter(n) => EraseInRow(pos.col, Min(pos.col + n, cols), attrs);
      }
    }

    method Execute(command: Command, attrs: Attrs)
      requires ValidGrid(View()) && attrs.WellFormed()
      modifies this
      ensures View() == ExecDrawing(old(View()), attrs, command)
    {
      hide ExecEditing, Text, LineDown, ValidGrid, SetPos, At, EraseDisplay, EraseLine, EraseCells, ClampCol;
      match command {
        case Print(c) =>
          if !IsC1(c) {
            DrawText(c, attrs);
          }
        case LineFeed => var scrolled := DownScrolling();
        case Backspace => Stride(command, attrs);
        case CarriageReturn => Stride(command, attrs);
        case CursorForward(_) => Stride(command, attrs);
        case MoveTo(_, _) => Stride(command, attrs);
        case EraseInDisplay(_) => Wipe(command, attrs);
        case EraseInLine(_) => Wipe(command, attrs);
        case EraseCharacter(_) => Wipe(command, attrs);
        case _ => Edit(command);
      }
    }
  }

  lemma CursorBounds(g: Grid)
    requires ValidGrid(g)
    ensures 2 <= g.height && 2 <= g.cols && g.pos.row < g.height && g.pos.col <= g.cols
  {
  }

  // ------------------------------------------------------------ shifting by one

  lemma ShiftNothing(rows: seq<Row>, lo: nat, end: nat, cols: nat)
    requires lo <= end <= |rows| && ValidRows(rows, cols)
    ensures ShiftUp(rows, lo, end, 0, cols) == rows && ShiftDown(rows, lo, end, 0, cols) == rows
  {
    assert rows == rows[..lo] + rows[lo..end] + rows[end..];
  }

  lemma NoScroll(g: Grid)
    requires ValidGrid(g)
    ensures ScrollUp(g, 0) == g
  {
    ShiftNothing(g.rows, g.top, g.bottom + 1, g.cols);
  }

  /** Row `i` after rows `lo` up to `end` moved up, or down, by `n`. */
  function UpRow(rows: seq<Row>, lo: nat, end: nat, n: nat, cols: nat, i: nat): Row
    requires lo <= end <= |rows| && i < |rows|
  {
    if lo <= i < end then if i + n < end then rows[i + n] else NewRow(cols) else rows[i]
  }

  function DownRow(rows: seq<Row>, lo: nat, end: nat, n: nat, cols: nat, i: nat): Row
    requires lo <= end <= |rows| && i < |rows|
  {
    if lo <= i < end then if i >= lo + n then rows[i - n] else NewRow(cols) else rows[i]
  }

  lemma ShiftUpByRow(rows: seq<Row>, lo: nat, end: nat, n: nat, cols: nat, i: nat)
    requires lo <= end <= |rows| && ValidRows(rows, cols) && i < |rows|
    ensures ShiftUp(rows, lo, end, n, cols)[i] == UpRow(rows, lo, end, n, cols, i)
  {
    hide ValidRows, NewRow;
  }

  lemma ShiftDownByRow(rows: seq<Row>, lo: nat, end: nat, n: nat, cols: nat, i: nat)
    requires lo <= end <= |rows| && ValidRows(rows, cols) && i < |rows|
    ensures ShiftDown(rows, lo, end, n, cols)[i] == DownRow(rows, lo, end, n, cols, i)
  {
    hide ValidRows, NewRow;
    var k := Min(n, end - lo);
    var front := rows[..lo] + NewRows(k, cols);
    assert ShiftDown(rows, lo, end, n, cols) == front + (rows[lo..end - k] + rows[end..]);
    if i >= lo + k && i < end { assert rows[lo..end - k][i - lo - k] == rows[i - k]; }
  }

  /** Row `i` after row `out` was taken out and a new row put in before `at`. */
  lemma Replaced(rows: seq<Row>, out: nat, at: nat, row: Row, i: nat)
    requires out < |rows| && at < |rows| && i < |rows|
    ensures InsertedRow(RemovedRow(rows, out), at, row)[i] ==
      var j := if i < at then i else i - 1;
      if i == at then row else if j < out then rows[j] else rows[j + 1]
  {
  }

  /** Removing the region's first row and inserting after its last moves it up
      once more; so does inserting first. */
  lemma UpOneMore(rows: seq<Row>, lo: nat, end: nat, n: nat, cols: nat)
    requires lo < end <= |rows| && ValidRows(rows, cols)
    ensures
      var part := ShiftUp(rows, lo, end, n, cols);
      && RemovedRow(InsertedRow(part, end, NewRow(cols)), lo) == ShiftUp(rows, lo, end, n + 1, cols)
      && InsertedRow(RemovedRow(part, lo), end - 1, NewRow(cols)) == ShiftUp(rows, lo, end, n + 1, cols)
  {
    hide ShiftUp, NewRow, ValidRows;
    var part, next := ShiftUp(rows, lo, end, n, cols), ShiftUp(rows, lo, end, n + 1, cols);
    var moved := InsertedRow(RemovedRow(part, lo), end - 1, NewRow(cols));
    forall i | 0 <= i < |rows| ensures moved[i] == next[i] {
      Replaced(part, lo, end - 1, NewRow(cols), i);
      ShiftUpByRow(rows, lo, end, n + 1, cols, i);
      ShiftUpByRow(rows, lo, end, n, cols, i);
      if i + 1 < |rows| { ShiftUpByRow(rows, lo, end, n, cols, i + 1); }
    }
    assert moved == next;
    assert RemovedRow(InsertedRow(part, end, NewRow(cols)), lo) == moved;
  }

  lemma DownOneMore(rows: seq<Row>, lo: nat, end: nat, n: nat, cols: nat)
    requires lo <= end <= |rows| && ValidRows(rows, cols)
    ensures lo < end ==>
      InsertedRow(RemovedRow(ShiftDown(rows, lo, end, n, cols), end - 1), lo, NewRow(cols))
        == ShiftDown(rows, lo, end, n + 1, cols)
    ensures end < |rows| ==>
      RemovedRow(InsertedRow(ShiftDown(rows, lo, end, n, cols), lo, NewRow(cols)), end)
        == ShiftDown(rows, lo, end, n + 1, cols)
  {
    hide ShiftDown, NewRow, ValidRows, InsertedRow, RemovedRow;
    var part, next := ShiftDown(rows, lo, end, n, cols), ShiftDown(rows, lo, end, n + 1, cols);
    if lo < end {
      var moved := InsertedRow(RemovedRow(part, end - 1), lo, NewRow(cols));
      forall i | 0 <= i < |rows| ensures moved[i] == next[i] {
        Replaced(part, end - 1, lo, NewRow(cols), i);
        ShiftDownByRow(rows, lo, end, n + 1, cols, i);
        ShiftDownByRow(rows, lo, end, n, cols, i);
        if i > 0 { ShiftDownByRow(rows, lo, end, n, cols, i - 1); }
      }
      assert moved == next;
    } else {
      forall i | 0 <= i < |rows| ensures part[i] == next[i] {
        ShiftDownByRow(rows, lo, end, n + 1, cols, i);
        ShiftDownByRow(rows, lo, end, n, cols, i);
      }
      assert part == next;
    }
    if end < |rows| { InsertFirst(part, lo, end, NewRow(cols)); }
  }

  lemma InsertFirst(rows: seq<Row>, lo: nat, end: nat, row: Row)
    requires lo <= end < |rows|
    ensures RemovedRow(InsertedRow(rows, lo, row), end) ==
      if lo == end then rows else InsertedRow(RemovedRow(rows, end - 1), lo, row)
  {
  }

  lemma UnwrappedRemoved(rows: seq<Row>, at: nat)
    requires at < |rows|
    ensures RemovedRow(Unwrapped(rows, at), at) == RemovedRow(rows, at)
  {
  }
}
