/** The terminal that interprets drawing commands: grid operations and command
    execution (`src/vt100/grid.rs`, `src/vt100/screen.rs`, `src/vt100/perform.rs`).

    Every operation requires and ensures `WellFormed`, so each of the source's
    unwraps and index operations is in range on every reachable screen. */
module Screens {
  import opened Attributes
  import opened Cells

  datatype Pos = Pos(row: nat, col: nat)

  datatype Grid = Grid(
    height: nat,
    cols: nat,
    rows: seq<Row>,
    pos: Pos,
    savedPos: Pos,
    top: nat,
    bottom: nat,
    origin: bool,
    savedOrigin: bool)

  datatype MouseMode = NoMouse | Press | PressRelease | ButtonMotion | AnyMotion
  datatype MouseEncoding = DefaultEncoding | Utf8 | SgrEncoding

  datatype Screen = Screen(
    grid: Grid,
    attrs: Attrs,
    savedAttrs: Attrs,
    keypad: bool,
    applicationCursor: bool,
    hideCursor: bool,
    bracketedPaste: bool,
    reverseVideo: bool,
    mouse: MouseMode,
    encoding: MouseEncoding)

  predicate ValidRows(rows: seq<Row>, cols: nat) {
    forall i :: 0 <= i < |rows| ==> ValidRow(rows[i], cols)
  }

  predicate ValidPos(pos: Pos, g: Grid) {
    pos.row < g.height && pos.col <= g.cols
  }

  /** The cursor may rest one column past the end, after drawing the last cell. */
  predicate ValidGrid(g: Grid) {
    && 2 <= g.height && 2 <= g.cols
    && |g.rows| == g.height
    && ValidRows(g.rows, g.cols)
    && ValidPos(g.pos, g)
    && ValidPos(g.savedPos, g)
    && g.top < g.bottom < g.height
  }

  predicate WellFormed(s: Screen) {
    ValidGrid(s.grid) && s.attrs.WellFormed() && s.savedAttrs.WellFormed()
  }

  /** What no operation changes. */
  predicate SameShape(g: Grid, h: Grid) {
    g.height == h.height && g.cols == h.cols
  }

  function Min(a: nat, b: nat): nat {
    if a <= b then a else b
  }

  // -------------------------------------------------------------- rows of rows

  function NewRows(n: nat, cols: nat): (rows: seq<Row>)
    ensures |rows| == n && ValidRows(rows, cols)
    ensures forall i :: 0 <= i < n ==> rows[i] == NewRow(cols)
  {
    seq(n, _ => NewRow(cols))
  }

  /** Rows `lo` up to `end` move up by `count`, new rows appearing below. */
  function ShiftUp(rows: seq<Row>, lo: nat, end: nat, count: nat, cols: nat): (r: seq<Row>)
    requires lo <= end <= |rows| && ValidRows(rows, cols)
    ensures |r| == |rows| && ValidRows(r, cols)
  {
    var k := Min(count, end - lo);
    rows[..lo] + rows[lo + k..end] + NewRows(k, cols) + rows[end..]
  }

  /** Rows `lo` up to `end` move down by `count`, new rows appearing above. */
  function ShiftDown(rows: seq<Row>, lo: nat, end: nat, count: nat, cols: nat): (r: seq<Row>)
    requires lo <= end <= |rows| && ValidRows(rows, cols)
    ensures |r| == |rows| && ValidRows(r, cols)
  {
    var k := Min(count, end - lo);
    rows[..lo] + NewRows(k, cols) + rows[lo..end - k] + rows[end..]
  }

  function Unwrapped(rows: seq<Row>, at: nat): (r: seq<Row>)
    requires at < |rows|
    ensures |r| == |rows|
  {
    rows[at := rows[at].(wrapped := false)]
  }

  // ----------------------------------------------------------- cursor movement

  function InScrollRegion(g: Grid): bool {
    g.top <= g.pos.row <= g.bottom
  }

  function ClampRow(g: Grid, row: int, region: bool): (r: nat)
    requires ValidGrid(g)
    ensures r < g.height
  {
    var low := if region then g.top else 0;
    var high := if region then g.bottom else g.height - 1;
    if row < low then low else if row > high then high else row
  }

  function ClampCol(g: Grid, col: nat): (c: nat)
    requires ValidGrid(g)
    ensures c < g.cols
  {
    Min(col, g.cols - 1)
  }

  function At(g: Grid, row: nat, col: nat): (r: Grid)
    requires ValidGrid(g) && row < g.height && col <= g.cols
    ensures ValidGrid(r) && SameShape(r, g)
  {
    g.(pos := Pos(row, col))
  }

  /** `set_pos`: origin mode counts rows from the scroll region and stays in it. */
  function SetPos(g: Grid, row: nat, col: nat): (r: Grid)
    requires ValidGrid(g)
    ensures ValidGrid(r) && SameShape(r, g)
  {
    At(g, ClampRow(g, if g.origin then row + g.top else row, g.origin), ClampCol(g, col))
  }

  /** `row_inc_clamp`: bounded by the scroll region only from inside it. */
  function RowDown(g: Grid, count: nat): (r: Grid)
    requires ValidGrid(g)
    ensures ValidGrid(r) && SameShape(r, g)
  {
    var bottom := if InScrollRegion(g) then g.bottom else g.height - 1;
    At(g, Min(g.pos.row + count, bottom), g.pos.col)
  }

  function RowUp(g: Grid, count: nat): (r: Grid)
    requires ValidGrid(g)
    ensures ValidGrid(r) && SameShape(r, g)
  {
    var top := if InScrollRegion(g) then g.top else 0;
    At(g, if g.pos.row < top + count then top else g.pos.row - count, g.pos.col)
  }

  // ----------------------------------------------------------------- scrolling

  function ScrollUp(g: Grid, count: nat): (r: Grid)
    requires ValidGrid(g)
    ensures ValidGrid(r) && SameShape(r, g) && r.pos == g.pos
  {
    g.(rows := ShiftUp(g.rows, g.top, g.bottom + 1, Min(count, g.height - g.top), g.cols))
  }

  function ScrollDown(g: Grid, count: nat): (r: Grid)
    requires ValidGrid(g)
    ensures ValidGrid(r) && SameShape(r, g) && r.pos == g.pos
  {
    if count == 0 then g
    else g.(rows := Unwrapped(ShiftDown(g.rows, g.top, g.bottom + 1, count, g.cols), g.bottom))
  }

  /** `row_inc_scroll(1)`: the grid, and how many lines scrolled away. */
  function LineDown(g: Grid): (r: (Grid, nat))
    requires ValidGrid(g)
    ensures ValidGrid(r.0) && SameShape(r.0, g) && r.0.pos.col == g.pos.col
    ensures r.1 <= 1 && r.0.pos.row + r.1 >= g.pos.row
    ensures r.1 == 1 ==> r.0.pos.row == g.pos.row && g.pos.row == g.bottom
  {
    if g.pos.row == g.bottom then (ScrollUp(g, 1), 1)
    else if g.pos.row + 1 < g.height then (At(g, g.pos.row + 1, g.pos.col), 0)
    else (g, 0)
  }

  /** `row_dec_scroll(1)`. */
  function LineUp(g: Grid): (r: Grid)
    requires ValidGrid(g)
    ensures ValidGrid(r) && SameShape(r, g)
  {
    if InScrollRegion(g) && g.pos.row == g.top then ScrollDown(g, 1)
    else if g.pos.row == 0 then ScrollDown(g, 1)
    else At(g, g.pos.row - 1, g.pos.col)
  }

  // ------------------------------------------------------------ editing a line

  function CurrentRow(g: Grid): (row: Row)
    requires ValidGrid(g)
    ensures ValidRow(row, g.cols)
  {
    g.rows[g.pos.row]
  }

  function WithRow(g: Grid, at: nat, row: Row): (r: Grid)
    requires ValidGrid(g) && at < g.height && ValidRow(row, g.cols)
    ensures ValidGrid(r) && SameShape(r, g) && r.pos == g.pos
  {
    g.(rows := g.rows[at := row])
  }

  function EraseColumns(g: Grid, from: nat, to: nat, attrs: Attrs): (r: Grid)
    requires ValidGrid(g) && from <= to <= g.cols && attrs.WellFormed()
    ensures ValidGrid(r) && SameShape(r, g) && r.pos == g.pos
  {
    WithRow(g, g.pos.row, EraseRange(CurrentRow(g), from, to, attrs))
  }

  function EraseCells(g: Grid, count: nat, attrs: Attrs): (r: Grid)
    requires ValidGrid(g) && attrs.WellFormed()
    ensures ValidGrid(r) && SameShape(r, g)
  {
    EraseColumns(g, g.pos.col, Min(g.pos.col + count, g.cols), attrs)
  }

  function EraseForward(g: Grid, attrs: Attrs): (r: Grid)
    requires ValidGrid(g) && attrs.WellFormed()
    ensures ValidGrid(r) && SameShape(r, g) && r.pos == g.pos
  {
    EraseColumns(g, g.pos.col, g.cols, attrs)
  }

  function EraseBackward(g: Grid, attrs: Attrs): (r: Grid)
    requires ValidGrid(g) && attrs.WellFormed()
    ensures ValidGrid(r) && SameShape(r, g) && r.pos == g.pos
  {
    EraseColumns(g, 0, Min(g.pos.col, g.cols - 1) + 1, attrs)
  }

  function ClearedRows(n: nat, cols: nat, attrs: Attrs): (rows: seq<Row>)
    requires attrs.WellFormed()
    ensures |rows| == n && ValidRows(rows, cols)
    ensures forall i :: 0 <= i < n ==> rows[i] == ClearedRow(cols, attrs)
  {
    seq(n, _ => ClearedRow(cols, attrs))
  }

  /** Rows `lo` up to `end` cleared whole. */
  function ClearRows(g: Grid, lo: nat, end: nat, attrs: Attrs): (r: Grid)
    requires ValidGrid(g) && lo <= end <= g.height && attrs.WellFormed()
    ensures ValidGrid(r) && SameShape(r, g) && r.pos == g.pos
  {
    g.(rows := g.rows[..lo] + ClearedRows(end - lo, g.cols, attrs) + g.rows[end..])
  }

  function EraseDisplay(g: Grid, mode: nat, attrs: Attrs): (r: Grid)
    requires ValidGrid(g) && attrs.WellFormed()
    ensures ValidGrid(r) && SameShape(r, g)
  {
    if mode == 0 then EraseForward(ClearRows(g, g.pos.row + 1, g.height, attrs), attrs)
    else if mode == 1 then EraseBackward(ClearRows(g, 0, g.pos.row, attrs), attrs)
    else if mode == 2 then ClearRows(g, 0, g.height, attrs)
    else g
  }

  function EraseLine(g: Grid, mode: nat, attrs: Attrs): (r: Grid)
    requires ValidGrid(g) && attrs.WellFormed()
    ensures ValidGrid(r) && SameShape(r, g)
  {
    if mode == 0 then EraseForward(g, attrs)
    else if mode == 1 then EraseBackward(g, attrs)
    else if mode == 2 then WithRow(g, g.pos.row, ClearedRow(g.cols, attrs))
    else g
  }

  function InsertCells(g: Grid, count: nat): (r: Grid)
    requires ValidGrid(g)
    ensures ValidGrid(r) && SameShape(r, g)
  {
    InsertBlanksIsValid(CurrentRow(g), g.pos.col, count);
    WithRow(g, g.pos.row, InsertBlanks(CurrentRow(g), g.pos.col, count))
  }

  function DeleteCells(g: Grid, count: nat): (r: Grid)
    requires ValidGrid(g)
    ensures ValidGrid(r) && SameShape(r, g)
  {
    WithRow(g, g.pos.row, DeleteRange(CurrentRow(g), g.pos.col, Min(count, g.cols - g.pos.col)))
  }

  // ------------------------------------------------------------- editing lines

  /** `insert_lines`.  Below the scroll region the source removes the region's
      last row and inserts at the cursor, which moves the rows between them up. */
  function InsertLines(g: Grid, count: nat): (r: Grid)
    requires ValidGrid(g)
    ensures ValidGrid(r) && SameShape(r, g)
  {
    if count == 0 then g
    else if g.pos.row <= g.bottom then
      g.(rows := Unwrapped(ShiftDown(g.rows, g.pos.row, g.bottom + 1, count, g.cols), g.bottom))
    else
      g.(rows := Unwrapped(ShiftUp(g.rows, g.bottom, g.pos.row + 1, count, g.cols), g.bottom))
  }

  /** `delete_lines`.  Below the scroll region the source inserts after the
      region and removes at the cursor, moving the rows between them down. */
  function DeleteLines(g: Grid, count: nat): (r: Grid)
    requires ValidGrid(g)
    ensures ValidGrid(r) && SameShape(r, g)
  {
    var n := Min(count, g.height - g.pos.row);
    if g.pos.row <= g.bottom then g.(rows := ShiftUp(g.rows, g.pos.row, g.bottom + 1, n, g.cols))
    else g.(rows := ShiftDown(g.rows, g.bottom + 1, g.pos.row, n, g.cols))
  }

  function SetScrollRegion(g: Grid, top: nat, bottom: nat): (r: Grid)
    requires ValidGrid(g)
    ensures ValidGrid(r) && SameShape(r, g)
  {
    var low := Min(bottom, g.height - 1);
    if top < low then g.(top := top, bottom := low, pos := Pos(top, 0))
    else g.(top := 0, bottom := g.height - 1, pos := Pos(0, 0))
  }

  function SetOrigin(g: Grid, on: bool): (r: Grid)
    requires ValidGrid(g)
    ensures ValidGrid(r) && SameShape(r, g)
  {
    SetPos(g.(origin := on), 0, 0)
  }

  // ------------------------------------------------------------------ drawing

  /** Whether the cursor's row would become soft-wrapped by drawing past its end. */
  predicate LastCellDrawn(g: Grid)
    requires ValidGrid(g)
  {
    var last := g.rows[g.pos.row].cells[g.cols - 1];
    last.contents != [] || last.continuation
  }

  /** `col_wrap`: a character that does not fit moves to the next line. */
  function ColumnWrap(g: Grid, width: nat, wrap: bool): (r: Grid)
    requires ValidGrid(g) && width <= 2
    ensures ValidGrid(r) && SameShape(r, g) && r.pos.col <= g.cols - width
  {
    if g.pos.col > g.cols - width then
      var (h, scrolled) := LineDown(At(g, g.pos.row, 0));
      var left := g.pos.row - scrolled;
      WithRow(h, left, h.rows[left].(wrapped := wrap && left + 1 == h.pos.row))
    else g
  }

  /** A zero-width mark joins the character before the cursor, on the previous
      row when that row is soft-wrapped onto this one. */
  function AttachMark(g: Grid, c: Scalar): (r: Grid)
    requires ValidGrid(g) && IsMark(c)
    ensures ValidGrid(r) && SameShape(r, g) && r.pos == g.pos
  {
    if g.pos.col > 0 then MarkAt(g, g.pos.row, g.pos.col, c)
    else if g.pos.row > 0 && g.rows[g.pos.row - 1].wrapped then MarkAt(g, g.pos.row - 1, g.cols, c)
    else g
  }

  function MarkAt(g: Grid, row: nat, col: nat, c: Scalar): (r: Grid)
    requires ValidGrid(g) && row < g.height && 0 < col <= g.cols && IsMark(c)
    ensures ValidGrid(r) && SameShape(r, g) && r.pos == g.pos
  {
    var cells := g.rows[row].cells;
    var at := MarkColumn(cells, col);
    AppendIsValid(cells, at, c);
    WithRow(g, row, g.rows[row].(cells := cells[at := Append(cells[at], c)]))
  }

  function DrawBase(g: Grid, c: Scalar, attrs: Attrs): (r: Grid)
    requires ValidGrid(g) && IsBase(c) && attrs.WellFormed() && g.pos.col + Columns(c) <= g.cols
    ensures ValidGrid(r) && SameShape(r, g) && r.pos == Pos(g.pos.row, g.pos.col + Columns(c))
  {
    var row := CurrentRow(g);
    if c.width == Wide then
      PutWideIsValid(row, g.pos.col, c, attrs);
      At(WithRow(g, g.pos.row, PutWide(row, g.pos.col, c, attrs)), g.pos.row, g.pos.col + 2)
    else
      PutNarrowIsValid(row.cells, g.pos.col, c, attrs);
      At(WithRow(g, g.pos.row, row.(cells := PutNarrow(row.cells, g.pos.col, c, attrs))), g.pos.row, g.pos.col + 1)
  }

  /** `Screen::text`, for the scalars `print` passes on. */
  function Text(g: Grid, c: Scalar, attrs: Attrs): (r: Grid)
    requires ValidGrid(g) && attrs.WellFormed() && !IsC1(c)
    ensures ValidGrid(r) && SameShape(r, g)
  {
    if IsUndrawable(c) then g
    else
      var width := Columns(c);
      var wrap := g.pos.col > g.cols - width && LastCellDrawn(g);
      var h := ColumnWrap(g, width, wrap);
      if width == 0 then AttachMark(h, c) else DrawBase(h, c, attrs)
  }

  // ----------------------------------------------------------------- commands

  datatype PrivateMode =
    | ApplicationCursorMode | ReverseVideoMode | OriginMode | ShowCursorMode | BracketedPasteMode
    | MouseTracking(mouse: MouseMode)
    | MouseReporting(encoding: MouseEncoding)

  datatype Command =
    | Print(c: Scalar)
    | Backspace | Tab | LineFeed | CarriageReturn
    | SaveCursor | RestoreCursor
    | Keypad(application: bool)
    | ReverseIndex
    | Reset
    | CursorUp(n: nat) | CursorDown(n: nat) | CursorForward(n: nat) | CursorBack(n: nat)
    | NextLine(n: nat) | PreviousLine(n: nat)
    | Column(n: nat) | Line(n: nat)
    | MoveTo(row: nat, col: nat)
    | EraseInDisplay(mode: nat) | EraseInLine(mode: nat)
    | InsertLine(n: nat) | DeleteLine(n: nat)
    | InsertCharacter(n: nat) | DeleteCharacter(n: nat) | EraseCharacter(n: nat)
    | PanDown(n: nat) | PanUp(n: nat)
    | Rendition(params: Params)
    | Margins(top: nat, bottom: nat)
    | SetMode(private: PrivateMode) | ResetMode(private: PrivateMode)

  function FreshGrid(height: nat, cols: nat): (g: Grid)
    requires 2 <= height && 2 <= cols
    ensures ValidGrid(g)
  {
    Grid(height, cols, NewRows(height, cols), Pos(0, 0), Pos(0, 0), 0, height - 1, false, false)
  }

  function FreshScreen(height: nat, cols: nat): (s: Screen)
    requires 2 <= height && 2 <= cols
    ensures WellFormed(s) && s.grid.height == height && s.grid.cols == cols
  {
    Screen(FreshGrid(height, cols), PLAIN, PLAIN, false, false, false, false, false, NoMouse, DefaultEncoding)
  }

  function WithGrid(s: Screen, g: Grid): (r: Screen)
    requires WellFormed(s) && ValidGrid(g)
    ensures WellFormed(r) && r.grid == g && r.attrs == s.attrs && r.savedAttrs == s.savedAttrs
  {
    s.(grid := g)
  }

  function SwitchMode(s: Screen, mode: PrivateMode, on: bool): (r: Screen)
    requires WellFormed(s)
    ensures WellFormed(r) && SameShape(r.grid, s.grid)
  {
    match mode
    case ApplicationCursorMode => s.(applicationCursor := on)
    case ReverseVideoMode => s.(reverseVideo := on)
    case OriginMode => WithGrid(s, SetOrigin(s.grid, on))
    case ShowCursorMode => s.(hideCursor := !on)
    case BracketedPasteMode => s.(bracketedPaste := on)
    case MouseTracking(m) => if on then s.(mouse := m) else if s.mouse == m then s.(mouse := NoMouse) else s
    case MouseReporting(e) =>
      if on then s.(encoding := e) else if s.encoding == e then s.(encoding := DefaultEncoding) else s
  }

  /** The commands the painter itself writes. */
  function ExecDrawing(g: Grid, attrs: Attrs, command: Command): (r: Grid)
    requires ValidGrid(g) && attrs.WellFormed()
    ensures ValidGrid(r) && SameShape(r, g)
  {
    match command
    case Print(c) => if IsC1(c) then g else Text(g, c, attrs)
    case Backspace => At(g, g.pos.row, if g.pos.col == 0 then 0 else g.pos.col - 1)
    case LineFeed => LineDown(g).0
    case CarriageReturn => At(g, g.pos.row, 0)
    case CursorForward(n) => At(g, g.pos.row, ClampCol(g, g.pos.col + n))
    case MoveTo(row, col) => SetPos(g, row, col)
    case EraseInDisplay(mode) => EraseDisplay(g, mode, attrs)
    case EraseInLine(mode) => EraseLine(g, mode, attrs)
    case EraseCharacter(n) => EraseCells(g, n, attrs)
    case _ => ExecEditing(g, command)
  }

  /** The remaining cursor, editing and scrolling commands. */
  function ExecEditing(g: Grid, command: Command): (r: Grid)
    requires ValidGrid(g)
    ensures ValidGrid(r) && SameShape(r, g)
  {
    match command
    case Tab => At(g, g.pos.row, ClampCol(g, g.pos.col - g.pos.col % 8 + 8))
    case ReverseIndex => LineUp(g)
    case CursorUp(n) => RowUp(g, n)
    case CursorDown(n) => RowDown(g, n)
    case CursorBack(n) => At(g, g.pos.row, if g.pos.col < n then 0 else g.pos.col - n)
    case NextLine(n) => RowDown(At(g, g.pos.row, 0), n)
    case PreviousLine(n) => RowUp(At(g, g.pos.row, 0), n)
    case Column(n) => At(g, g.pos.row, ClampCol(g, n))
    case Line(n) => At(g, Min(n, g.height - 1), g.pos.col)
    case InsertLine(n) => InsertLines(g, n)
    case DeleteLine(n) => DeleteLines(g, n)
    case InsertCharacter(n) => InsertCells(g, n)
    case DeleteCharacter(n) => DeleteCells(g, n)
    case PanDown(n) => ScrollUp(g, n)
    case PanUp(n) => ScrollDown(g, n)
    case Margins(top, bottom) => SetScrollRegion(g, top, bottom)
    case _ => g
  }

  function Saved(s: Screen): (r: Screen)
    requires WellFormed(s)
    ensures WellFormed(r) && SameShape(r.grid, s.grid)
  {
    s.(grid := s.grid.(savedPos := s.grid.pos, savedOrigin := s.grid.origin), savedAttrs := s.attrs)
  }

  function Restored(s: Screen): (r: Screen)
    requires WellFormed(s)
    ensures WellFormed(r) && SameShape(r.grid, s.grid)
  {
    s.(grid := s.grid.(pos := s.grid.savedPos, origin := s.grid.savedOrigin), attrs := s.savedAttrs)
  }

  function Rendered(s: Screen, params: Params): (r: Screen)
    requires WellFormed(s)
    ensures WellFormed(r) && r.grid == s.grid
  {
    SgrKeepsWellFormed(s.attrs, params);
    s.(attrs := Sgr(s.attrs, params))
  }

  /** One command.  Numeric parameters are the canonical ones: zero already
      replaced by its default and one-based positions already made zero-based. */
  function Exec(s: Screen, command: Command): (r: Screen)
    requires WellFormed(s)
    ensures WellFormed(r) && SameShape(r.grid, s.grid)
  {
    hide ValidRows, ExecDrawing, SwitchMode, FreshScreen, Saved, Restored, Rendered;
    match command
    case SaveCursor => Saved(s)
    case RestoreCursor => Restored(s)
    case Keypad(on) => WithGrid(s, s.grid).(keypad := on)
    case Reset => FreshScreen(s.grid.height, s.grid.cols)
    case Rendition(params) => Rendered(s, params)
    case SetMode(mode) => SwitchMode(s, mode, true)
    case ResetMode(mode) => SwitchMode(s, mode, false)
    case _ => WithGrid(s, ExecDrawing(s.grid, s.attrs, command))
  }

  /** Every command sequence keeps the screen well formed: row count and widths
      fixed, cursor and scroll region valid, wide characters paired. */
  function Run(s: Screen, commands: seq<Command>): (r: Screen)
    requires WellFormed(s)
    ensures WellFormed(r) && SameShape(r.grid, s.grid)
    decreases |commands|
  {
    if commands == [] then s else Run(Exec(s, commands[0]), commands[1..])
  }

  lemma {:induction false} RunConcat(s: Screen, first: seq<Command>, second: seq<Command>)
    requires WellFormed(s)
    ensures Run(s, first + second) == Run(Run(s, first), second)
    decreases |first|
  {
    if first == [] {
      assert first + second == second;
    } else {
      assert (first + second)[1..] == first[1..] + second;
      RunConcat(Exec(s, first[0]), first[1..], second);
    }
  }

  // ------------------------------------------------------------- kinds of command

  /** The commands that touch more than the grid. */
  predicate BeyondGrid(command: Command) {
    command.SaveCursor? || command.RestoreCursor? || command.Keypad? || command.Reset? || command.Rendition?
    || command.SetMode? || command.ResetMode?
  }

  lemma ExecIsBeyondGrid(s: Screen, command: Command)
    requires WellFormed(s) && BeyondGrid(command)
    ensures command.SaveCursor? ==> Exec(s, command) == Saved(s)
    ensures command.RestoreCursor? ==> Exec(s, command) == Restored(s)
    ensures command.Keypad? ==> Exec(s, command) == s.(keypad := command.application)
    ensures command.Reset? ==>
      && 2 <= s.grid.height && 2 <= s.grid.cols
      && Exec(s, command) == FreshScreen(s.grid.height, s.grid.cols)
    ensures command.Rendition? ==> Exec(s, command) == Rendered(s, command.params)
    ensures command.SetMode? ==> Exec(s, command) == SwitchMode(s, command.private, true)
    ensures command.ResetMode? ==> Exec(s, command) == SwitchMode(s, command.private, false)
  {
    hide SwitchMode, FreshScreen, Saved, Restored, Rendered, ExecDrawing, ValidRows;
  }

  lemma ExecIsOnGrid(s: Screen, command: Command)
    requires WellFormed(s) && !BeyondGrid(command)
    ensures ValidGrid(s.grid) && s.attrs.WellFormed()
    ensures Exec(s, command) == s.(grid := ExecDrawing(s.grid, s.attrs, command))
  {
    hide ValidGrid, ExecDrawing;
  }
}
