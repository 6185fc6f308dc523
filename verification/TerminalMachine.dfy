/** The terminal with its modes and attributes updated in place
    (`src/vt100/screen.rs`), and the painting loops (`src/vt100/row.rs`,
    `src/vt100/grid.rs`); both are proved against the value model. */
module TerminalMachine {
  import opened Wrappers
  import opened Attributes
  import opened Cells
  import opened Screens
  import opened GridBuffers
  import opened Painter

  class Terminal {
    const grid: GridBuffer
    var attrs: Attrs
    var savedAttrs: Attrs
    var keypad: bool
    var applicationCursor: bool
    var hideCursor: bool
    var bracketedPaste: bool
    var reverseVideo: bool
    var mouse: MouseMode
    var encoding: MouseEncoding

    function View(): Screen
      reads this, grid
    {
      Screen(grid.View(), attrs, savedAttrs, keypad, applicationCursor, hideCursor, bracketedPaste, reverseVideo,
             mouse, encoding)
    }

    constructor (height: nat, cols: nat)
      requires 2 <= height && 2 <= cols
      ensures View() == FreshScreen(height, cols) && fresh(grid)
    {
      grid := new GridBuffer(FreshGrid(height, cols));
      attrs, savedAttrs := PLAIN, PLAIN;
      keypad, applicationCursor, hideCursor, bracketedPaste, reverseVideo := false, false, false, false, false;
      mouse, encoding := NoMouse, DefaultEncoding;
    }

    /** The parameter loop of SGR; a malformed colour ends it. */
    method Render(params: Params)
      requires WellFormed(View())
      modifies this`attrs
      ensures View() == Rendered(old(View()), params)
    {
      hide WellFormed, SgrFrom;
      ghost var start := attrs;
      if params == [] {
        attrs := PLAIN;
        return;
      }
      var i := 0;
      assert params[0..] == params;
      while i < |params|
        invariant 0 <= i <= |params|
        invariant SgrFrom(start, params) == SgrFrom(attrs, params[i..])
        decreases |params| - i
      {
        var step := NextSgr(attrs, params[i..]);
        SgrAdvances(attrs, params[i..]);
        if step.None? {
          return;
        }
        var (next, used) := step.value;
        assert params[i..][used..] == params[i + used..];
        attrs, i := next, i + used;
      }
      SgrEnds(attrs);
      assert params[|params|..] == [];
    }

    method Switch(mode: PrivateMode, on: bool)
      requires WellFormed(View())
      modifies this, grid
      ensures View() == SwitchMode(old(View()), mode, on)
    {
      hide ValidRows, SetOrigin;
      match mode {
        case ApplicationCursorMode => applicationCursor := on;
        case ReverseVideoMode => reverseVideo := on;
        case OriginMode => grid.SetOriginMode(on);
        case ShowCursorMode => hideCursor := !on;
        case BracketedPasteMode => bracketedPaste := on;
        case MouseTracking(m) =>
          if on {
            mouse := m;
          } else if mouse == m {
            mouse := NoMouse;
          }
        case MouseReporting(e) =>
          if on {
            encoding := e;
          } else if encoding == e {
            encoding := DefaultEncoding;
          }
      }
    }

    method Save()
      requires WellFormed(View())
      modifies this, grid
      ensures View() == Saved(old(View()))
    {
      grid.savedPos, grid.savedOrigin := grid.pos, grid.origin;
      savedAttrs := attrs;
    }

    method Restore()
      requires WellFormed(View())
      modifies this, grid
      ensures View() == Restored(old(View()))
    {
      grid.pos, grid.origin := grid.savedPos, grid.savedOrigin;
      attrs := savedAttrs;
    }

    method Reinitialize()
      requires WellFormed(View())
      modifies this, grid
      ensures View() == FreshScreen(old(grid.height), old(grid.cols))
    {
      grid.Reset();
      attrs, savedAttrs := PLAIN, PLAIN;
      keypad, applicationCursor, hideCursor, bracketedPaste, reverseVideo := false, false, false, false, false;
      mouse, encoding := NoMouse, DefaultEncoding;
    }

    method ExecuteBeyondGrid(command: Command)
      requires WellFormed(View()) && BeyondGrid(command)
      modifies this, grid
      ensures View() == Exec(old(View()), command)
    {
      hide WellFormed, SwitchMode, FreshScreen, Saved, Restored, Rendered, Exec;
      ExecIsBeyondGrid(View(), command);
      match command {
        case SaveCursor => Save();
        case RestoreCursor => Restore();
        case Keypad(on) => keypad := on;
        case Reset => Reinitialize();
        case Rendition(params) => Render(params);
        case SetMode(mode) => Switch(mode, true);
        case ResetMode(mode) => Switch(mode, false);
      }
    }

    method ExecuteOnGrid(command: Command)
      requires WellFormed(View()) && !BeyondGrid(command)
      modifies this, grid
      ensures View() == Exec(old(View()), command)
    {
      hide WellFormed, ValidGrid, ExecDrawing, Exec;
      ExecIsOnGrid(View(), command);
      grid.Execute(command, attrs);
    }

    method Execute(command: Command)
      requires WellFormed(View())
      modifies this, grid
      ensures View() == Exec(old(View()), command)
    {
      hide WellFormed, Exec;
      if BeyondGrid(command) {
        ExecuteBeyondGrid(command);
      } else {
        ExecuteOnGrid(command);
      }
    }

    /** Interpreting a whole command sequence. */
    method Interpret(commands: seq<Command>)
      requires WellFormed(View())
      modifies this, grid
      ensures View() == Run(old(View()), commands) && WellFormed(View())
    {
      hide Exec, WellFormed;
      assert commands[0..] == commands;
      for i := 0 to |commands|
        invariant WellFormed(View())
        invariant Run(old(View()), commands) == Run(View(), commands[i..])
      {
        assert commands[i..][1..] == commands[i + 1..];
        Execute(commands[i]);
      }
      assert commands[|commands|..] == [];
    }
  }

  /** One turn of the SGR loop: the attributes and how many parameters it took. */
  function NextSgr(attrs: Attrs, params: Params): (r: Option<(Attrs, nat)>)
    requires params != []
    ensures r.Some? ==> 1 <= r.value.1 <= |params|
  {
    var param := params[0];
    if param == [38] || param == [48] then
      match ExtendedColor(params[1..])
      case None => None
      case Some((color, used)) => Some((SetColor(attrs, param == [38], color), 1 + used))
    else if |param| == 1 then Some((SingleParam(attrs, param[0]), 1))
    else if |param| > 0 && (param[0] == 38 || param[0] == 48) && SubparameterShape(param) then
      match SubparameterColor(param)
      case None => None
      case Some(color) => Some((SetColor(attrs, param[0] == 38, color), 1))
    else Some((attrs, 1))
  }

  lemma SgrAdvances(attrs: Attrs, params: Params)
    requires params != []
    ensures SgrFrom(attrs, params) ==
      match NextSgr(attrs, params)
      case None => attrs
      case Some((next, used)) => SgrFrom(next, params[used..])
  {
    hide SingleParam, ExtendedColor, SubparameterColor, SubparameterShape, SetColor;
  }

  lemma SgrEnds(attrs: Attrs)
    ensures SgrFrom(attrs, []) == attrs
  {
  }

  // ------------------------------------------------------------- painting loops

  /** The loop over the columns of a row with its pending erase. */
  method WriteColumns(pen: Pen, cells: seq<Cell>, shown: seq<Cell>, row: nat, wrapping: bool) returns (r: Pen)
    requires |cells| == |shown| && ValidCells(cells, |cells|) && pen.attrs.WellFormed()
    ensures r == PaintColumns(pen, cells, shown, row, wrapping)
  {
    hide Flush, DrawCell, ValidContents, Paired;
    var cols := |cells|;
    r := pen;
    var erase: Option<Pending> := None;
    var previousWasWide := false;
    for col := 0 to cols
      invariant PainterReady(RowPainter(r, erase, previousWasWide), col)
      invariant PaintCells(RowPainter(pen, None, false), cells, shown, row, 0, wrapping)
                == PaintCells(RowPainter(r, erase, previousWasWide), cells, shown, row, col, wrapping)
    {
      var cell := cells[col];
      assert ValidCell(cell);
      if previousWasWide {
        previousWasWide := false;
      } else {
        if erase.Some? && EndsErase(cell, erase.value) {
          r := Flush(r, erase.value, row, wrapping, cols, EraseCount(col - erase.value.col));
          erase := None;
        }
        if cell != shown[col] {
          if cell.contents != [] {
            r := DrawCell(r, cell, Pos(row, col), wrapping, cols);
          } else if erase.None? {
            erase := Some(Pending(col, cell.attrs));
          }
        }
        previousWasWide := cell.wide;
      }
    }
    if erase.Some? {
      r := Flush(r, erase.value, row, wrapping, cols, [EraseInLine(0)]);
    }
  }

  method WriteRow(pen: Pen, target: Row, shown: Row, row: nat, wrapping: bool, wasWrapping: bool) returns (r: Pen)
    requires |target.cells| == |shown.cells| >= 2 && ValidRow(target, |target.cells|) && pen.attrs.WellFormed()
    ensures r == PaintRow(pen, target, shown, row, wrapping, wasWrapping)
  {
    hide PaintColumns, RedrawFirst, RedrawLast, ValidContents, Paired;
    var cols, first := |target.cells|, target.cells[0];
    assert ValidCell(first);
    r := pen;
    if wrapping && !wasWrapping && first == shown.cells[0] && r.pos.row + 1 == row
       && r.pos.col + (if shown.cells[0].wide then 1 else 0) >= cols {
      r := RedrawFirst(r, first, row);
    }
    r := WriteColumns(r, target.cells, shown.cells, row, wrapping);
    if target.wrapped != shown.wrapped {
      r := RedrawLast(r, target, row);
    }
  }

  /** The loop over the rows of two screens. */
  method WriteRows(pen: Pen, target: seq<Row>, shown: seq<Row>, cols: nat) returns (r: Pen)
    requires |target| == |shown| && 2 <= cols && ValidRows(target, cols) && ValidRows(shown, cols)
    requires pen.attrs.WellFormed()
    ensures r == PaintRows(pen, target, shown, 0, cols)
  {
    hide PaintRow, ValidContents, Paired;
    r := pen;
    var wrapping, wasWrapping := false, false;
    for i := 0 to |target|
      invariant r.attrs.WellFormed()
      invariant wrapping == (i > 0 && target[i - 1].wrapped) && wasWrapping == (i > 0 && shown[i - 1].wrapped)
      invariant PaintRows(pen, target, shown, 0, cols) == PaintRows(r, target, shown, i, cols)
    {
      assert ValidRow(target[i], cols) && ValidRow(shown[i], cols);
      r := WriteRow(r, target[i], shown[i], i, wrapping, wasWrapping);
      wrapping, wasWrapping := target[i].wrapped, shown[i].wrapped;
    }
  }

  /** The loop of the full repaint. */
  method WriteAllRows(pen: Pen, target: seq<Row>, cols: nat) returns (r: Pen)
    requires 2 <= cols && ValidRows(target, cols) && pen.attrs.WellFormed()
    ensures r == FormatRows(pen, target, 0, cols)
  {
    hide PaintColumns, RedrawFirst, ValidContents, Paired;
    r := pen;
    var wrapping := false;
    for i := 0 to |target|
      invariant r.attrs.WellFormed()
      invariant wrapping == (i > 0 && target[i - 1].wrapped)
      invariant FormatRows(pen, target, 0, cols) == FormatRows(r, target, i, cols)
    {
      assert ValidRow(target[i], cols);
      if wrapping && target[i].cells[0] == EMPTY {
        r := RedrawFirst(r, EMPTY, i);
      }
      r := WriteColumns(r, target[i].cells, Blanks(cols, PLAIN), i, wrapping);
      wrapping := target[i].wrapped;
    }
  }
}
