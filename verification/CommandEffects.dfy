/** What each command does to a screen, row by row and column by column. */
module CommandEffects {
  import opened Attributes
  import opened Cells
  import opened Screens

  /** Only the rows of the grid differ. */
  predicate OnlyRows(s: Screen, r: Screen) {
    r == s.(grid := s.grid.(rows := r.grid.rows)) && |r.grid.rows| == |s.grid.rows|
  }

  /** Only the cursor differs. */
  predicate OnlyCursor(s: Screen, r: Screen, row: int, col: int) {
    r == s.(grid := s.grid.(pos := r.grid.pos)) && r.grid.pos.row == row && r.grid.pos.col == col
  }

  predicate IsEmpty(row: Row, cols: nat) {
    |row.cells| == cols && !row.wrapped && forall j :: 0 <= j < cols ==> row.cells[j] == Cell([], false, false, PLAIN)
  }

  lemma NewIsEmpty(cols: nat)
    ensures IsEmpty(NewRow(cols), cols)
  {
  }

  // ---------------------------------------------------------------- scrolling rows

  predicate UpAt(rows: seq<Row>, row: Row, lo: nat, hi: nat, n: nat, last: int, cols: nat, i: nat)
    requires i < |rows|
  {
    if i < lo || i > hi then row == rows[i]
    else if i + n <= hi && i + n < |rows| then row == if i == last then rows[i + n].(wrapped := false) else rows[i + n]
    else IsEmpty(row, cols)
  }

  /** Rows `lo` to `hi` moved up by `n`, rows below filled with empty ones; row `last` is
      not soft-wrapped any more. */
  predicate MovedUp(rows: seq<Row>, r: seq<Row>, lo: nat, hi: nat, n: nat, last: int, cols: nat) {
    |r| == |rows| && forall i :: 0 <= i < |r| ==> UpAt(rows, r[i], lo, hi, n, last, cols, i)
  }

  predicate DownAt(rows: seq<Row>, row: Row, lo: nat, hi: nat, n: nat, last: int, cols: nat, i: nat)
    requires i < |rows|
  {
    if i < lo || i > hi then row == rows[i]
    else if i >= lo + n then row == if i == last then rows[i - n].(wrapped := false) else rows[i - n]
    else IsEmpty(row, cols)
  }

  /** Rows `lo` to `hi` moved down by `n`, rows above filled with empty ones; row `last`
      is not soft-wrapped any more. */
  predicate MovedDown(rows: seq<Row>, r: seq<Row>, lo: nat, hi: nat, n: nat, last: int, cols: nat) {
    |r| == |rows| && forall i :: 0 <= i < |r| ==> DownAt(rows, r[i], lo, hi, n, last, cols, i)
  }

  lemma ShiftUpMoves(rows: seq<Row>, lo: nat, end: nat, n: nat, cols: nat)
    requires lo < end <= |rows| && ValidRows(rows, cols)
    ensures MovedUp(rows, ShiftUp(rows, lo, end, n, cols), lo, end - 1, n, -1, cols)
    ensures MovedUp(rows, Unwrapped(ShiftUp(rows, lo, end, n, cols), lo), lo, end - 1, n, lo, cols)
  {
    hide ValidRows, NewRow, IsEmpty;
    NewIsEmpty(cols);
    EmptyStays(ShiftUp(rows, lo, end, n, cols)[lo], cols);
  }

  lemma ShiftDownMoves(rows: seq<Row>, lo: nat, end: nat, n: nat, cols: nat)
    requires lo < end <= |rows| && ValidRows(rows, cols)
    ensures MovedDown(rows, ShiftDown(rows, lo, end, n, cols), lo, end - 1, n, -1, cols)
    ensures MovedDown(rows, Unwrapped(ShiftDown(rows, lo, end, n, cols), end - 1), lo, end - 1, n, end - 1, cols)
  {
    hide ValidRows, NewRow, IsEmpty;
    NewIsEmpty(cols);
    EmptyStays(ShiftDown(rows, lo, end, n, cols)[end - 1], cols);
  }

  lemma EmptyStays(row: Row, cols: nat)
    ensures IsEmpty(row, cols) ==> IsEmpty(row.(wrapped := false), cols)
  {
  }

  /** A line feed on the last row of the scroll region moves the region up by one;
      anywhere else it moves the cursor down, but not past the last row. */
  lemma LineFeedSays(s: Screen)
    requires WellFormed(s)
    ensures
      var (g, r) := (s.grid, Exec(s, LineFeed));
      if g.pos.row == g.bottom then OnlyRows(s, r) && MovedUp(g.rows, r.grid.rows, g.top, g.bottom, 1, -1, g.cols)
      else OnlyCursor(s, r, if g.pos.row + 1 < g.height then g.pos.row + 1 else g.pos.row, g.pos.col)
  {
    hide ValidRows, ShiftUp, Text, EraseDisplay, EraseLine, EraseCells, ExecEditing, MovedUp;
    ExecIsOnGrid(s, LineFeed);
    ShiftUpMoves(s.grid.rows, s.grid.top, s.grid.bottom + 1, 1, s.grid.cols);
  }

  /** A reverse index on the first row of the region, or of the screen, moves the region
      down by one; anywhere else it moves the cursor up. */
  lemma ReverseIndexSays(s: Screen)
    requires WellFormed(s)
    ensures
      var (g, r) := (s.grid, Exec(s, ReverseIndex));
      if g.pos.row == g.top || g.pos.row == 0 then
        OnlyRows(s, r) && MovedDown(g.rows, r.grid.rows, g.top, g.bottom, 1, g.bottom, g.cols)
      else OnlyCursor(s, r, g.pos.row - 1, g.pos.col)
  {
    hide ValidRows, ShiftDown, Unwrapped, MovedDown;
    ExecIsOnGrid(s, ReverseIndex);
    ShiftDownMoves(s.grid.rows, s.grid.top, s.grid.bottom + 1, 1, s.grid.cols);
  }

  /** Moving by more than there are rows leaves them empty. */
  lemma MovedAway(rows: seq<Row>, r: seq<Row>, lo: nat, hi: nat, k: nat, n: nat, cols: nat)
    requires MovedUp(rows, r, lo, hi, k, -1, cols) && (k == n || (lo + k > hi && lo + n > hi))
    ensures MovedUp(rows, r, lo, hi, n, -1, cols)
  {
    hide IsEmpty;
    forall i | 0 <= i < |r| ensures UpAt(rows, r[i], lo, hi, n, -1, cols, i) {
      assert UpAt(rows, r[i], lo, hi, k, -1, cols, i);
    }
  }

  /** Panning moves the region and not the cursor. */
  lemma PanDownSays(s: Screen, n: nat)
    requires WellFormed(s)
    ensures
      var (g, r) := (s.grid, Exec(s, PanDown(n)));
      OnlyRows(s, r) && MovedUp(g.rows, r.grid.rows, g.top, g.bottom, n, -1, g.cols)
  {
    hide ValidRows, ShiftUp, MovedUp;
    var (g, k) := (s.grid, Min(n, s.grid.height - s.grid.top));
    ExecIsOnGrid(s, PanDown(n));
    ShiftUpMoves(g.rows, g.top, g.bottom + 1, k, g.cols);
    MovedAway(g.rows, Exec(s, PanDown(n)).grid.rows, g.top, g.bottom, k, n, g.cols);
  }

  lemma PanUpSays(s: Screen, n: nat)
    requires WellFormed(s)
    ensures
      var (g, r) := (s.grid, Exec(s, PanUp(n)));
      && OnlyRows(s, r)
      && if n == 0 then r == s else MovedDown(g.rows, r.grid.rows, g.top, g.bottom, n, g.bottom, g.cols)
  {
    hide ValidRows, ShiftDown, Unwrapped, MovedDown;
    ExecIsOnGrid(s, PanUp(n));
    ShiftDownMoves(s.grid.rows, s.grid.top, s.grid.bottom + 1, n, s.grid.cols);
  }

  /** Inserting lines moves the rows from the cursor to the region's end down; below the
      region it moves those from the region's end to the cursor up. */
  lemma InsertLineSays(s: Screen, n: nat)
    requires WellFormed(s)
    ensures
      var (g, r) := (s.grid, Exec(s, InsertLine(n)));
      && OnlyRows(s, r)
      && if n == 0 then r == s
         else if g.pos.row <= g.bottom then
           MovedDown(g.rows, r.grid.rows, g.pos.row, g.bottom, n, g.bottom, g.cols)
         else MovedUp(g.rows, r.grid.rows, g.bottom, g.pos.row, n, g.bottom, g.cols)
  {
    hide ValidRows, ShiftDown, ShiftUp, MovedDown;
    var g := s.grid;
    ExecIsOnGrid(s, InsertLine(n));
    if g.pos.row <= g.bottom {
      ShiftDownMoves(g.rows, g.pos.row, g.bottom + 1, n, g.cols);
    } else {
      ShiftUpMoves(g.rows, g.bottom, g.pos.row + 1, n, g.cols);
    }
  }

  /** Deleting lines moves the rows below the cursor, to the region's end, up; below the
      region it moves those between the region and the cursor down. */
  lemma DeleteLineSays(s: Screen, n: nat)
    requires WellFormed(s)
    ensures
      var (g, r) := (s.grid, Exec(s, DeleteLine(n)));
      && OnlyRows(s, r)
      && if g.pos.row <= g.bottom then MovedUp(g.rows, r.grid.rows, g.pos.row, g.bottom, n, -1, g.cols)
         else if g.pos.row == g.bottom + 1 then r == s
         else
           MovedDown(g.rows, r.grid.rows, g.bottom + 1, g.pos.row - 1,
                     if n < g.height - g.pos.row then n else g.height - g.pos.row, -1, g.cols)
  {
    hide ValidRows, ShiftDown, ShiftUp, MovedDown, MovedUp;
    var g := s.grid;
    var k := Min(n, g.height - g.pos.row);
    ExecIsOnGrid(s, DeleteLine(n));
    if g.pos.row <= g.bottom {
      ShiftUpMoves(g.rows, g.pos.row, g.bottom + 1, k, g.cols);
      MovedAway(g.rows, Exec(s, DeleteLine(n)).grid.rows, g.pos.row, g.bottom, k, n, g.cols);
    } else if g.pos.row == g.bottom + 1 {
      NothingShifts(g.rows, g.pos.row, k, g.cols);
    } else {
      ShiftDownMoves(g.rows, g.bottom + 1, g.pos.row, k, g.cols);
    }
  }

  lemma NothingShifts(rows: seq<Row>, at: nat, n: nat, cols: nat)
    requires at <= |rows| && ValidRows(rows, cols)
    ensures ShiftDown(rows, at, at, n, cols) == rows
  {
    hide ValidRows;
    assert rows[..at] + rows[at..] == rows;
  }

  // ------------------------------------------------------------------- the cursor

  /** The first and last row that a relative move may reach. */
  function Highest(g: Grid): int {
    if g.top <= g.pos.row <= g.bottom then g.top else 0
  }

  function Lowest(g: Grid): int {
    if g.top <= g.pos.row <= g.bottom then g.bottom else g.height - 1
  }

  function AtLeast(a: int, b: int): int {
    if a < b then b else a
  }

  function AtMost(a: int, b: int): int {
    if a > b then b else a
  }

  /** Moves up and down go as far as told but stay in the scroll region, or from outside
      of it on the screen; those to a line's start go to the first column as well. */
  lemma VerticalMovesSay(s: Screen, n: nat)
    requires WellFormed(s)
    ensures
      var g := s.grid;
      var (up, down) := (AtLeast(g.pos.row - n, Highest(g)), AtMost(g.pos.row + n, Lowest(g)));
      && OnlyCursor(s, Exec(s, CursorUp(n)), up, g.pos.col)
      && OnlyCursor(s, Exec(s, CursorDown(n)), down, g.pos.col)
      && OnlyCursor(s, Exec(s, PreviousLine(n)), up, 0)
      && OnlyCursor(s, Exec(s, NextLine(n)), down, 0)
  {
    hide ValidRows, Text, EraseDisplay, EraseLine, EraseCells, InsertLines, DeleteLines, InsertCells, DeleteCells,
      ScrollUp, ScrollDown;
    ExecIsOnGrid(s, CursorUp(n));
    ExecIsOnGrid(s, CursorDown(n));
    ExecIsOnGrid(s, PreviousLine(n));
    ExecIsOnGrid(s, NextLine(n));
  }

  /** Moves to the left stop at the first column and those to the right at the last; a
      tab goes to the next multiple of eight. */
  lemma HorizontalMovesSay(s: Screen, n: nat)
    requires WellFormed(s)
    ensures
      var (row, col, last) := (s.grid.pos.row, s.grid.pos.col, s.grid.cols - 1);
      && OnlyCursor(s, Exec(s, CursorForward(n)), row, AtMost(col + n, last))
      && OnlyCursor(s, Exec(s, CursorBack(n)), row, AtLeast(col - n, 0))
      && OnlyCursor(s, Exec(s, Backspace), row, AtLeast(col - 1, 0))
      && OnlyCursor(s, Exec(s, CarriageReturn), row, 0)
      && OnlyCursor(s, Exec(s, Tab), row, AtMost((col / 8 + 1) * 8, last))
  {
    hide ValidRows, Text, EraseDisplay, EraseLine, EraseCells, InsertLines, DeleteLines, InsertCells, DeleteCells,
      ScrollUp, ScrollDown;
    ExecIsOnGrid(s, CursorForward(n));
    ExecIsOnGrid(s, CursorBack(n));
    ExecIsOnGrid(s, Backspace);
    ExecIsOnGrid(s, CarriageReturn);
    ExecIsOnGrid(s, Tab);
  }

  /** Absolute moves go to the place told, or to the nearest one there is; in origin mode
      rows are counted from the region's first and end at its last. */
  lemma AbsoluteMovesSay(s: Screen, row: nat, col: nat)
    requires WellFormed(s)
    ensures
      var g := s.grid;
      && OnlyCursor(s, Exec(s, Column(col)), g.pos.row, AtMost(col, g.cols - 1))
      && OnlyCursor(s, Exec(s, Line(row)), AtMost(row, g.height - 1), g.pos.col)
      && OnlyCursor(s, Exec(s, MoveTo(row, col)),
                    if g.origin then AtMost(row + g.top, g.bottom) else AtMost(row, g.height - 1),
                    AtMost(col, g.cols - 1))
  {
    hide ValidRows, Text, EraseDisplay, EraseLine, EraseCells, InsertLines, DeleteLines, InsertCells, DeleteCells,
      ScrollUp, ScrollDown;
    ExecIsOnGrid(s, Column(col));
    ExecIsOnGrid(s, Line(row));
    ExecIsOnGrid(s, MoveTo(row, col));
  }

  /** Margins set the region if that has at least two rows, and the whole screen
      otherwise; the cursor goes to its start. */
  lemma MarginsSay(s: Screen, top: nat, bottom: nat)
    requires WellFormed(s)
    ensures
      var (g, r) := (s.grid, Exec(s, Margins(top, bottom)));
      var last := AtMost(bottom, g.height - 1);
      && r == s.(grid := g.(top := r.grid.top, bottom := r.grid.bottom, pos := Pos(r.grid.top, 0)))
      && (if top < last then r.grid.top == top && r.grid.bottom == last
          else r.grid.top == 0 && r.grid.bottom == g.height - 1)
  {
    hide ValidRows, InsertLines, DeleteLines, InsertCells, DeleteCells, ScrollUp, ScrollDown;
    ExecIsOnGrid(s, Margins(top, bottom));
  }

  // ----------------------------------------------------------- beyond the cursor

  /** Restoring brings back the place, the origin mode and the style as they were saved,
      whatever they are now, and changes nothing else. */
  lemma RestoreUndoes(s: Screen, t: Screen)
    requires WellFormed(s) && WellFormed(t)
    requires
      var saved := Exec(s, SaveCursor);
      && t.grid.savedPos == saved.grid.savedPos && t.grid.savedOrigin == saved.grid.savedOrigin
      && t.savedAttrs == saved.savedAttrs
    ensures Exec(t, RestoreCursor) == t.(grid := t.grid.(pos := s.grid.pos, origin := s.grid.origin), attrs := s.attrs)
    ensures
      var saved := Exec(s, SaveCursor);
      saved == s.(grid := s.grid.(savedPos := saved.grid.savedPos, savedOrigin := saved.grid.savedOrigin),
                  savedAttrs := saved.savedAttrs)
  {
    hide ValidRows, ExecDrawing, SwitchMode, Rendered, FreshScreen;
    ExecIsBeyondGrid(s, SaveCursor);
    ExecIsBeyondGrid(t, RestoreCursor);
  }

  /** A rendition command changes the style as its codes say, and nothing else. */
  lemma RenditionSays(s: Screen, params: Params)
    requires WellFormed(s)
    ensures Exec(s, Rendition(params)) == s.(attrs := Sgr(s.attrs, params))
  {
    hide ValidRows, ExecDrawing, SwitchMode, Saved, Restored, FreshScreen, Sgr;
    ExecIsBeyondGrid(s, Rendition(params));
  }

  /** A reset screen is like new: blank, plain, the cursor in the first place, the region
      the whole screen, and no mode set. */
  lemma ResetSays(s: Screen)
    requires WellFormed(s)
    ensures
      var (g, r) := (s.grid, Exec(s, Reset));
      && r == Screen(Grid(g.height, g.cols, r.grid.rows, Pos(0, 0), Pos(0, 0), 0, g.height - 1, false, false),
                     PLAIN, PLAIN, false, false, false, false, false, NoMouse, DefaultEncoding)
      && |r.grid.rows| == g.height
      && forall i :: 0 <= i < g.height ==> IsEmpty(r.grid.rows[i], g.cols)
  {
    hide ExecDrawing, SwitchMode, Rendered, Saved, Restored, IsEmpty;
    ExecIsBeyondGrid(s, Reset);
    NewIsEmpty(s.grid.cols);
  }

  /** Each mode is set and reset by its own command, and nothing else is. */
  lemma ModesSay(s: Screen, on: bool)
    requires WellFormed(s)
    ensures
      var run := (mode: PrivateMode) requires WellFormed(s) => Exec(s, if on then SetMode(mode) else ResetMode(mode));
      && run(ApplicationCursorMode) == s.(applicationCursor := on)
      && run(ReverseVideoMode) == s.(reverseVideo := on)
      && run(ShowCursorMode) == s.(hideCursor := !on)
      && run(BracketedPasteMode) == s.(bracketedPaste := on)
      && run(OriginMode) == s.(grid := s.grid.(origin := on, pos := Pos(if on then s.grid.top else 0, 0)))
    ensures Exec(s, Keypad(on)) == s.(keypad := on)
  {
    hide ValidRows, ExecDrawing, Rendered, Saved, Restored, FreshScreen;
    ExecIsBeyondGrid(s, Keypad(on));
    OneMode(s, ApplicationCursorMode, on);
    OneMode(s, ReverseVideoMode, on);
    OneMode(s, ShowCursorMode, on);
    OneMode(s, BracketedPasteMode, on);
    OneMode(s, OriginMode, on);
  }

  lemma OneMode(s: Screen, mode: PrivateMode, on: bool)
    requires WellFormed(s)
    ensures Exec(s, if on then SetMode(mode) else ResetMode(mode)) == SwitchMode(s, mode, on)
  {
    hide ValidRows, ExecDrawing, Rendered, Saved, Restored, FreshScreen, SwitchMode;
    ExecIsBeyondGrid(s, if on then SetMode(mode) else ResetMode(mode));
  }

  /** A mouse mode or encoding replaces the one before; only the one in force is
      reset. */
  lemma MouseSays(s: Screen, mouse: MouseMode, encoding: MouseEncoding)
    requires WellFormed(s)
    ensures Exec(s, SetMode(MouseTracking(mouse))) == s.(mouse := mouse)
    ensures Exec(s, SetMode(MouseReporting(encoding))) == s.(encoding := encoding)
    ensures Exec(s, ResetMode(MouseTracking(mouse))) == if s.mouse == mouse then s.(mouse := NoMouse) else s
    ensures Exec(s, ResetMode(MouseReporting(encoding))) ==
      if s.encoding == encoding then s.(encoding := DefaultEncoding) else s
  {
    hide ValidRows, ExecDrawing, Rendered, Saved, Restored, FreshScreen;
    OneMode(s, MouseTracking(mouse), true);
    OneMode(s, MouseReporting(encoding), true);
    OneMode(s, MouseTracking(mouse), false);
    OneMode(s, MouseReporting(encoding), false);
  }
}
