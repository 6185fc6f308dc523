/** What repaints share: modes, the final cursor, clearing. */
module Frames {
  import opened Attributes
  import opened Cells
  import opened Screens
  import opened Painter
  import opened Painting
  import opened RowPainting
  import opened ScreenPainting

  /** Everything the contents writer is responsible for. */
  predicate SameContents(t: Screen, s: Screen) {
    && SameSize(t, s)
    && t.grid.rows == s.grid.rows && t.grid.pos == s.grid.pos && t.attrs == s.attrs
    && t.hideCursor == s.hideCursor && t.reverseVideo == s.reverseVideo
  }

  predicate SameKeys(t: Screen, s: Screen) {
    t.keypad == s.keypad && t.applicationCursor == s.applicationCursor && t.bracketedPaste == s.bracketedPaste
  }

  predicate SameMouse(t: Screen, s: Screen) {
    t.mouse == s.mouse && t.encoding == s.encoding
  }

  /** The input modes, which writing contents leaves alone. */
  predicate SameInput(t: Screen, s: Screen) {
    SameKeys(t, s) && SameMouse(t, s)
  }

  // ------------------------------------------------------------------- modes

  lemma ExecMode(t: Screen, mode: PrivateMode, on: bool)
    requires WellFormed(t)
    ensures Exec(t, if on then SetMode(mode) else ResetMode(mode)) == SwitchMode(t, mode, on)
  {
    hide ExecDrawing, Rendered, ValidGrid, SwitchMode, FreshScreen, Saved, Restored;
  }

  lemma ModeEffect(t: Screen, mode: PrivateMode, on: bool)
    requires WellFormed(t)
    ensures Run(t, [if on then SetMode(mode) else ResetMode(mode)]) == SwitchMode(t, mode, on)
  {
    hide Exec, Run, SwitchMode, ValidGrid;
    ExecMode(t, mode, on);
    RunOne(t, if on then SetMode(mode) else ResetMode(mode));
  }

  lemma KeypadEffect(t: Screen, on: bool)
    requires WellFormed(t)
    ensures Run(t, [Keypad(on)]) == t.(keypad := on)
  {
    hide Run, ExecDrawing, Rendered, ValidGrid, SwitchMode, FreshScreen, Saved, Restored;
    RunOne(t, Keypad(on));
  }

  /** Where the mouse mode ends up; the writer assumed it was `shown`. */
  function MouseAfter(actual: MouseMode, target: MouseMode, shown: MouseMode): MouseMode {
    if target != shown && target != NoMouse then target
    else if target != shown && actual == shown then NoMouse
    else actual
  }

  function EncodingAfter(actual: MouseEncoding, target: MouseEncoding, shown: MouseEncoding): MouseEncoding {
    if target != shown && target != DefaultEncoding then target
    else if target != shown && actual == shown then DefaultEncoding
    else actual
  }

  lemma MouseEffect(t: Screen, target: MouseMode, shown: MouseMode)
    requires WellFormed(t)
    ensures Run(t, MouseModeChange(target, shown)) == t.(mouse := MouseAfter(t.mouse, target, shown))
  {
    hide Run, Exec, ValidGrid;
    RunNil(t);
    if target != shown && target == NoMouse { ModeEffect(t, MouseTracking(shown), false); }
    if target != shown && target != NoMouse { ModeEffect(t, MouseTracking(target), true); }
  }

  lemma EncodingEffect(t: Screen, target: MouseEncoding, shown: MouseEncoding)
    requires WellFormed(t)
    ensures Run(t, MouseEncodingChange(target, shown)) == t.(encoding := EncodingAfter(t.encoding, target, shown))
  {
    hide Run, Exec, ValidGrid;
    RunNil(t);
    if target != shown && target == DefaultEncoding { ModeEffect(t, MouseReporting(shown), false); }
    if target != shown && target != DefaultEncoding { ModeEffect(t, MouseReporting(target), true); }
  }

  lemma MiceEffect(t: Screen, target: Screen, mouse: MouseMode, encoding: MouseEncoding)
    requires Surface(t)
    ensures Run(t, MouseModeChange(target.mouse, mouse) + MouseEncodingChange(target.encoding, encoding))
            == t.(mouse := MouseAfter(t.mouse, target.mouse, mouse),
                  encoding := EncodingAfter(t.encoding, target.encoding, encoding))
  {
    hide Run, Exec, ValidGrid, MouseModeChange, MouseEncodingChange, MouseAfter, EncodingAfter;
    RunConcat(t, MouseModeChange(target.mouse, mouse), MouseEncodingChange(target.encoding, encoding));
    MouseEffect(t, target.mouse, mouse);
    EncodingEffect(t.(mouse := MouseAfter(t.mouse, target.mouse, mouse)), target.encoding, encoding);
  }

  lemma KeypadThen(t: Screen, on: bool, rest: seq<Command>)
    requires WellFormed(t)
    ensures WellFormed(t.(keypad := on))
    ensures Run(t, (if on != t.keypad then [Keypad(on)] else []) + rest) == Run(t.(keypad := on), rest)
  {
    hide Run, Exec, ValidGrid;
    RunConcat(t, if on != t.keypad then [Keypad(on)] else [], rest);
    RunNil(t);
    KeypadEffect(t, on);
  }

  lemma ApplicationCursorThen(t: Screen, on: bool, rest: seq<Command>)
    requires WellFormed(t)
    ensures WellFormed(t.(applicationCursor := on))
    ensures Run(t, (if on != t.applicationCursor then [ApplicationCursor(on)] else []) + rest)
      == Run(t.(applicationCursor := on), rest)
  {
    hide Run, Exec, ValidGrid;
    RunConcat(t, if on != t.applicationCursor then [ApplicationCursor(on)] else [], rest);
    RunNil(t);
    ModeEffect(t, ApplicationCursorMode, on);
  }

  lemma BracketedPasteThen(t: Screen, on: bool, rest: seq<Command>)
    requires WellFormed(t)
    ensures WellFormed(t.(bracketedPaste := on))
    ensures Run(t, (if on != t.bracketedPaste then [BracketedPaste(on)] else []) + rest)
      == Run(t.(bracketedPaste := on), rest)
  {
    hide Run, Exec, ValidGrid;
    RunConcat(t, if on != t.bracketedPaste then [BracketedPaste(on)] else [], rest);
    RunNil(t);
    ModeEffect(t, BracketedPasteMode, on);
  }

  lemma ReverseVideoChange(t: Screen, on: bool)
    requires WellFormed(t)
    ensures Run(t, if on != t.reverseVideo then [ReverseVideo(on)] else []) == t.(reverseVideo := on)
  {
    hide Run, Exec, ValidGrid;
    RunNil(t);
    ModeEffect(t, ReverseVideoMode, on);
  }

  lemma HideCursorChange(t: Screen, on: bool)
    requires WellFormed(t)
    ensures Run(t, if on != t.hideCursor then [HideCursor(on)] else []) == t.(hideCursor := on)
  {
    hide Run, Exec, ValidGrid;
    RunNil(t);
    ModeEffect(t, ShowCursorMode, !on);
  }

  lemma KeysEffect(t: Screen, target: Screen, shown: Screen, rest: seq<Command>)
    requires Surface(t) && SameKeys(t, shown)
    ensures
      var keys := (if target.keypad != shown.keypad then [Keypad(target.keypad)] else [])
        + ((if target.applicationCursor != shown.applicationCursor
            then [ApplicationCursor(target.applicationCursor)] else [])
        + ((if target.bracketedPaste != shown.bracketedPaste then [BracketedPaste(target.bracketedPaste)] else [])
           + rest));
      var u := t.(keypad := target.keypad, applicationCursor := target.applicationCursor,
                  bracketedPaste := target.bracketedPaste);
      Surface(u) && Run(t, keys) == Run(u, rest)
  {
    hide Run, Exec, ValidGrid;
    KeypadThen(t, target.keypad,
      (if target.applicationCursor != shown.applicationCursor
       then [ApplicationCursor(target.applicationCursor)] else [])
      + ((if target.bracketedPaste != shown.bracketedPaste then [BracketedPaste(target.bracketedPaste)] else [])
         + rest));
    var t1 := t.(keypad := target.keypad);
    ApplicationCursorThen(t1, target.applicationCursor,
      (if target.bracketedPaste != shown.bracketedPaste then [BracketedPaste(target.bracketedPaste)] else []) + rest);
    BracketedPasteThen(t1.(applicationCursor := target.applicationCursor), target.bracketedPaste, rest);
  }

  /** The terminal with the target's two-way input modes. */
  function Keyed(t: Screen, target: Screen): Screen {
    t.(keypad := target.keypad, applicationCursor := target.applicationCursor, bracketedPaste := target.bracketedPaste)
  }

  /** The input-mode diff changes exactly the input modes, to the target's; the
      mouse needs the terminal to have started where the writer assumed. */
  lemma InputModesRepainted(t: Screen, target: Screen, shown: Screen)
    requires Surface(t) && SameKeys(t, shown)
    ensures
      var r := Run(t, InputModeDiff(target, shown));
      && r == Keyed(t, target).(mouse := r.mouse, encoding := r.encoding)
      && (SameMouse(t, shown) ==> SameMouse(r, target))
  {
    hide Run, Exec, ValidGrid, MouseModeChange, MouseEncodingChange;
    KeysEffect(t, target, shown,
               MouseModeChange(target.mouse, shown.mouse) + MouseEncodingChange(target.encoding, shown.encoding));
    MiceEffect(Keyed(t, target), target, shown.mouse, shown.encoding);
  }

  // ---------------------------------------------------------------- contents

  lemma DisplayModesEffect(t: Screen, reverse: bool, hidden: bool, rest: seq<Command>)
    requires Surface(t)
    ensures
      var out := (if reverse != t.reverseVideo then [ReverseVideo(reverse)] else [])
        + ((if hidden != t.hideCursor then [HideCursor(hidden)] else []) + rest);
      var u := t.(reverseVideo := reverse, hideCursor := hidden);
      Surface(u) && Run(t, out) == Run(u, rest)
  {
    hide Run, Exec, ValidGrid;
    var a := if reverse != t.reverseVideo then [ReverseVideo(reverse)] else [];
    var b := if hidden != t.hideCursor then [HideCursor(hidden)] else [];
    RunConcat(t, a, b + rest);
    ReverseVideoChange(t, reverse);
    var t1 := t.(reverseVideo := reverse);
    RunConcat(t1, b, rest);
    HideCursorChange(t1, hidden);
  }

  /** Rows painted, the cursor is placed and the attributes restored. */
  lemma FinishEffect(t: Screen, target: Screen, pen: Pen)
    requires Surface(t) && WellFormed(target) && SameSize(t, target) && WrapsDrawn(target.grid.rows)
    requires pen.attrs.WellFormed()
    requires Run(t, pen.out) == Shown(t, target.grid.rows, pen.pos, pen.attrs)
    ensures
      var r := Run(t, pen.out + (PlaceCursor(target.grid, pen) + Restyle(target.attrs, pen.attrs)));
      && Surface(r)
      && OnlyMoved(r, Shown(t, target.grid.rows, pen.pos, target.attrs), target.grid.pos)
  {
    hide Run, Exec, PlaceCursor, Restyle, ValidRows;
    var place, style := PlaceCursor(target.grid, pen), Restyle(target.attrs, pen.attrs);
    RunConcat(t, pen.out, place + style);
    var u := Run(t, pen.out);
    RunConcat(u, place, style);
    PlaceCursorEffect(u, target.grid, pen);
    var v := Run(u, place);
    RestyleEffect(v, target.attrs);
    assert v.grid.origin == u.grid.origin;
  }

  // -------------------------------------------------------------- full repaint

  lemma EraseWholeRow(row: Row, cols: nat)
    requires ValidRow(row, cols) && 2 <= cols
    ensures EraseRange(row, 0, cols, PLAIN) == NewRow(cols)
  {
    assert EraseRange(row, 0, cols, PLAIN).cells == Blanks(cols, PLAIN);
  }

  lemma ClearScreenGrid(g: Grid)
    requires ValidGrid(g) && g.pos == Pos(0, 0)
    ensures EraseDisplay(g, 0, PLAIN) == g.(rows := NewRows(g.height, g.cols))
  {
    hide EraseRange;
    var h := ClearRows(g, 1, g.height, PLAIN);
    assert ValidRow(h.rows[0], g.cols);
    EraseWholeRow(h.rows[0], g.cols);
    assert EraseForward(h, PLAIN).rows == NewRows(g.height, g.cols);
  }

  lemma ExecClear(t: Screen)
    requires WellFormed(t) && t.grid.pos == Pos(0, 0) && t.attrs == PLAIN
    ensures Exec(t, EraseInDisplay(0)) == t.(grid := t.grid.(rows := NewRows(t.grid.height, t.grid.cols)))
  {
    hide ExecEditing, Text, SwitchMode, EraseLine, EraseCells, EraseDisplay, Rendered, ValidRows;
    ClearScreenGrid(t.grid);
  }

  /** Resetting attributes, homing and clearing: a blank screen remains. */
  lemma ClearEffect(t: Screen)
    requires Surface(t)
    ensures Run(t, [Rendition([]), MoveTo(0, 0), EraseInDisplay(0)])
            == Shown(t, NewRows(t.grid.height, t.grid.cols), Pos(0, 0), PLAIN)
  {
    hide Exec, Run, ValidRows;
    assert [Rendition([]), MoveTo(0, 0), EraseInDisplay(0)] == [Rendition([])] + ([MoveTo(0, 0)] + [EraseInDisplay(0)]);
    RunCons(t, Rendition([]), [MoveTo(0, 0)] + [EraseInDisplay(0)]);
    ExecPlain(t);
    var u := t.(attrs := PLAIN);
    RunCons(u, MoveTo(0, 0), [EraseInDisplay(0)]);
    MoveToEffect(u, Pos(0, 0));
    var v := Moved(u, Pos(0, 0));
    RunOne(v, EraseInDisplay(0));
    ExecClear(v);
  }

  lemma ExecPlain(t: Screen)
    requires WellFormed(t)
    ensures Exec(t, Rendition([])) == t.(attrs := PLAIN)
  {
    hide ExecDrawing, SwitchMode, ValidGrid, FreshScreen, Saved, Restored;
  }

  lemma FullKeysEffect(t: Screen, target: Screen)
    requires Surface(t)
    ensures Run(t, [Keypad(target.keypad), ApplicationCursor(target.applicationCursor),
                    BracketedPaste(target.bracketedPaste)])
            == Keyed(t, target)
  {
    hide Run, Exec, ValidGrid;
    var a, b, c := [Keypad(target.keypad)], [ApplicationCursor(target.applicationCursor)],
      [BracketedPaste(target.bracketedPaste)];
    assert [Keypad(target.keypad), ApplicationCursor(target.applicationCursor), BracketedPaste(target.bracketedPaste)]
      == a + (b + c);
    RunConcat(t, a, b + c);
    KeypadEffect(t, target.keypad);
    var t1 := t.(keypad := target.keypad);
    RunConcat(t1, b, c);
    ModeEffect(t1, ApplicationCursorMode, target.applicationCursor);
    var t2 := t1.(applicationCursor := target.applicationCursor);
    ModeEffect(t2, BracketedPasteMode, target.bracketedPaste);
  }
}
