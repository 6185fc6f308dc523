/** Where differential painting fails: two concrete soft-wrapped screens, one for
    each way of not being harmless. */
module SoftWraps {
  import opened Wrappers
  import opened Attributes
  import opened Cells
  import opened Screens
  import opened Painter
  import opened Painting
  import opened RowPainting
  import opened ScreenPainting
  import opened CarriedPainting
  import opened WrappedRows
  import opened WrapFlags
  import Whole = WrappedScreens

  function Glyph(code: nat): Scalar {
    Scalar(code, Narrow)
  }

  function Ink(code: nat): Cell {
    Drawn(Glyph(code), PLAIN)
  }

  function Small(first: Row, second: Row, pos: Pos): Screen {
    Screen(Grid(2, 2, [first, second], pos, Pos(0, 0), 0, 1, false, false), PLAIN, PLAIN,
           false, false, false, false, false, NoMouse, DefaultEncoding)
  }

  lemma PairIsValid(a: Cell, b: Cell, wrapped: bool)
    requires ValidCell(a) && ValidCell(b) && !a.wide && !a.continuation && !b.wide && !b.continuation
    ensures ValidRow(Row([a, b], wrapped), 2)
  {
  }

  lemma InkIsValid(code: nat)
    requires 0x20 <= code < 0x7f
    ensures ValidCell(Ink(code)) && !Ink(code).wide && !Ink(code).continuation
  {
  }

  /** A screen that painting can start from and end at. */
  predicate Sound(s: Screen) {
    Surface(s) && FlagsFit(s.grid.rows) && s.grid.height == 2 && s.grid.cols == 2
  }

  // -------------------------------------------------------- a character overwritten

  /** "xyab" on a terminal two columns wide, the first row wrapped. */
  function Before(): (s: Screen)
    ensures Sound(s)
  {
    hide ValidContents;
    InkIsValid(120); InkIsValid(121); InkIsValid(97); InkIsValid(98);
    PairIsValid(Ink(120), Ink(121), true);
    PairIsValid(Ink(97), Ink(98), false);
    Small(Row([Ink(120), Ink(121)], true), Row([Ink(97), Ink(98)], false), Pos(0, 1))
  }

  /** The same with "z" drawn over "y" and the last "b" erased. */
  function After(): (s: Screen)
    ensures Sound(s)
  {
    hide ValidContents;
    InkIsValid(120); InkIsValid(122); InkIsValid(97);
    PairIsValid(Ink(120), Ink(122), true);
    PairIsValid(Ink(97), EMPTY, false);
    Small(Row([Ink(120), Ink(122)], true), Row([Ink(97), EMPTY], false), Pos(1, 1))
  }

  /** Painting the first row leaves the pen past its end. */
  lemma FirstRowDiff()
    ensures
      var r := PaintRow(Pen([], Pos(0, 1), PLAIN), After().grid.rows[0], Before().grid.rows[0], 0, false, false);
      r.pos == Pos(0, 2) && r.attrs == PLAIN
  {
    var cells, shown := After().grid.rows[0].cells, Before().grid.rows[0].cells;
    var p0 := RowPainter(Pen([], Pos(0, 1), PLAIN), None, false);
    assert PaintCell(p0, cells[0], shown[0], Pos(0, 0), false, 2) == p0;
    var p1 := PaintCell(p0, cells[1], shown[1], Pos(0, 1), false, 2);
    assert PaintCells(p1, cells, shown, 0, 2, false) == p1;
    assert PaintCells(p0, cells, shown, 0, 1, false) == p1;
    assert PaintCells(p0, cells, shown, 0, 0, false) == p1;
  }

  lemma SecondRowChange()
    ensures FirstChange(After().grid.rows[1].cells, Before().grid.rows[1].cells) == 1
  {
    var cells, shown := After().grid.rows[1].cells, Before().grid.rows[1].cells;
    assert cells[1..] == [EMPTY] && shown[1..] == [Ink(98)];
    assert FirstChange(cells[1..], shown[1..]) == 0;
  }

  /** To reach the erase the painter draws a space, which lands on the "a". */
  lemma WrappedScreenMisdrawn()
    ensures
      var r := Run(Before(), ContentsDiff(After(), Before()));
      r.grid.rows[1].cells[0] == Ink(SPACE.code) != After().grid.rows[1].cells[0]
  {
    hide Run, Exec, ContentsDiff, PaintRow, Whole.Harmless;
    Whole.ContentsRepaintedIff(Before(), After(), Before());
    var target, shown, pen := After().grid.rows, Before().grid.rows, Whole.FirstPen(Before());
    var next := Whole.After(pen, target, shown, 0, 2);
    FirstRowDiff();
    SecondRowChange();
    assert Whole.Painted(pen, target, shown, 0, 2)[1] == Whole.Painted(next, target, shown, 1, 2)[0]
      == Whole.PaintedRow(next, target, shown, 1, 2);
    assert CarriesErase(next, target[1].cells, shown[1].cells, 1);
    EndingAt(next, target[1].cells, shown[1].cells, 1, true);
  }

  // -------------------------------------------------------------- a wrap forgotten

  const WIDE := Scalar(0x4e00, Wide)

  lemma WideIsValid()
    ensures ValidRow(Row([Drawn(WIDE, PLAIN), CONTINUATION], true), 2)
  {
    var row := Row([Drawn(WIDE, PLAIN), CONTINUATION], true);
    assert ValidCell(row.cells[0]) && ValidCell(row.cells[1]);
  }

  /** A wide character filling the first row, which is wrapped. */
  function WideBefore(): (s: Screen)
    ensures Sound(s)
  {
    hide ValidContents;
    InkIsValid(97); InkIsValid(98);
    WideIsValid();
    PairIsValid(Ink(97), Ink(98), false);
    Small(Row([Drawn(WIDE, PLAIN), CONTINUATION], true), Row([Ink(97), Ink(98)], false), Pos(0, 0))
  }

  /** A blank and a "z" instead, still wrapped. */
  function WideAfter(): (s: Screen)
    ensures Sound(s)
  {
    hide ValidContents;
    InkIsValid(97); InkIsValid(98); InkIsValid(122);
    PairIsValid(EMPTY, Ink(122), true);
    PairIsValid(Ink(97), Ink(98), false);
    Small(Row([EMPTY, Ink(122)], true), Row([Ink(97), Ink(98)], false), Pos(0, 0))
  }

  lemma Unchanged(cells: seq<Cell>)
    ensures FirstChange(cells, cells) == |cells|
  {
  }

  /** Erasing its first half makes the row forget that it is wrapped. */
  lemma WrapForgotten()
    ensures
      var r := Run(WideBefore(), ContentsDiff(WideAfter(), WideBefore()));
      !r.grid.rows[0].wrapped && WideAfter().grid.rows[0].wrapped
  {
    hide Run, Exec, ContentsDiff, PaintRow, Whole.Harmless;
    Whole.ContentsRepaintedIff(WideBefore(), WideAfter(), WideBefore());
    var target, shown, pen := WideAfter().grid.rows, WideBefore().grid.rows, Whole.FirstPen(WideBefore());
    Unchanged(target[1].cells);
    assert Whole.Painted(pen, target, shown, 0, 2)[0] == Whole.PaintedRow(pen, target, shown, 0, 2);
    assert Whole.Unmarked(pen, target, shown, 0, 2);
  }

  // ------------------------------------------------------------ how they come about

  lemma FreshOn()
    ensures On(FreshScreen(2, 2), [NewRow(2), NewRow(2)], Pen([], Pos(0, 0), PLAIN))
  {
    RunNil(FreshScreen(2, 2));
    assert NewRows(2, 2) == [NewRow(2), NewRow(2)];
  }

  lemma InkedPair(row: Row, at: nat, code: nat)
    requires at < 2 == |row.cells| && ValidRow(row, 2) && !row.cells[0].wide && !row.cells[1].wide
    requires 0x20 <= code < 0x7f
    ensures Inked(row, at, Ink(code)) == row.(cells := row.cells[at := Ink(code)])
  {
    assert PairedAt(row.cells, 0) && PairedAt(row.cells, 1);
  }

  /** A character typed on a row of narrow cells. */
  lemma TypeOn(t: Screen, rows: seq<Row>, pen: Pen, code: nat)
    requires On(t, rows, pen) && t.grid.cols == 2 && 0x20 <= code < 0x7f && pen.attrs == PLAIN
    requires pen.pos.row < |rows| && pen.pos.col < 2 && |rows[pen.pos.row].cells| == 2
    requires !rows[pen.pos.row].cells[0].wide && !rows[pen.pos.row].cells[1].wide
    ensures
      var row := rows[pen.pos.row];
      On(t, rows[pen.pos.row := row.(cells := row.cells[pen.pos.col := Ink(code)])],
         Pen(pen.out + [Print(Glyph(code))], Pos(pen.pos.row, pen.pos.col + 1), PLAIN))
  {
    hide Run, Exec, Surface, On, Inked, ValidContents;
    OnIsValid(t, rows, pen);
    assert ValidRow(rows[pen.pos.row], 2);
    InkIsValid(code);
    InkedPair(rows[pen.pos.row], pen.pos.col, code);
    InkOn(t, rows, pen, Ink(code));
    assert Scalars(Ink(code).contents) == [Print(Glyph(code))];
  }

  /** A character typed past the end of the first row. */
  lemma WrapOn(t: Screen, first: Row, pen: Pen, code: nat)
    requires On(t, [first, NewRow(2)], pen) && t.grid.cols == 2 && 0x20 <= code < 0x7f && pen.attrs == PLAIN
    requires pen.pos == Pos(0, 2) && EndDrawn(first)
    ensures On(t, [first.(wrapped := true), Row([Ink(code), EMPTY], false)],
               Pen(pen.out + [Print(Glyph(code))], Pos(1, 1), PLAIN))
  {
    hide Run, Exec, Surface, On, Inked, ValidContents, EndDrawn;
    InkIsValid(code);
    assert NewRow(2).cells == [EMPTY, EMPTY];
    InkedPair(NewRow(2), 0, code);
    CarryInk(t, [first, NewRow(2)], pen, Ink(code));
    assert Scalars(Ink(code).contents) == [Print(Glyph(code))];
    assert [EMPTY, EMPTY][0 := Ink(code)] == [Ink(code), EMPTY];
    assert Wrap([first, NewRow(2)], 0)[1 := Row([Ink(code), EMPTY], false)]
           == [first.(wrapped := true), Row([Ink(code), EMPTY], false)];
  }

  /** What a run of commands leaves when it is followed with a pen. */
  lemma Reached(rows: seq<Row>, pen: Pen, commands: seq<Command>, first: Row, second: Row)
    requires On(FreshScreen(2, 2), rows, pen) && pen.out == commands && rows == [first, second] && pen.attrs == PLAIN
    ensures Run(FreshScreen(2, 2), commands) == Small(first, second, pen.pos)
  {
    hide Run, Exec;
  }

  lemma NewIsPair()
    ensures NewRow(2) == Row([EMPTY, EMPTY], false)
  {
  }

  /** Two characters typed on a fresh screen. */
  lemma FirstRowTyped(a: nat, b: nat)
    requires 0x20 <= a < 0x7f && 0x20 <= b < 0x7f
    ensures On(FreshScreen(2, 2), [Row([Ink(a), Ink(b)], false), NewRow(2)],
               Pen([Print(Glyph(a)), Print(Glyph(b))], Pos(0, 2), PLAIN))
  {
    hide Run, Exec, Surface, On, FreshScreen;
    var t, blank := FreshScreen(2, 2), NewRow(2);
    FreshOn();
    NewIsPair();
    TypeOn(t, [blank, blank], Pen([], Pos(0, 0), PLAIN), a);
    var one := Row([Ink(a), EMPTY], false);
    assert [EMPTY, EMPTY][0 := Ink(a)] == one.cells && [blank, blank][0 := one] == [one, blank];
    assert [] + [Print(Glyph(a))] == [Print(Glyph(a))];
    TypeOn(t, [one, blank], Pen([Print(Glyph(a))], Pos(0, 1), PLAIN), b);
    var both := Row([Ink(a), Ink(b)], false);
    assert one.cells[1 := Ink(b)] == both.cells && [one, blank][0 := both] == [both, blank];
    assert [Print(Glyph(a))] + [Print(Glyph(b))] == [Print(Glyph(a)), Print(Glyph(b))];
  }

  /** Two more characters after a full first row, and the cursor moved up again. */
  lemma SecondRowTyped(first: Row, pen: Pen, a: nat, b: nat, col: nat)
    requires On(FreshScreen(2, 2), [first, NewRow(2)], pen) && pen.pos == Pos(0, 2) && pen.attrs == PLAIN
    requires 0x20 <= a < 0x7f && 0x20 <= b < 0x7f && EndDrawn(first) && col < 2
    ensures On(FreshScreen(2, 2), [first.(wrapped := true), Row([Ink(a), Ink(b)], false)],
               Pen(pen.out + [Print(Glyph(a)), Print(Glyph(b)), MoveTo(0, col)], Pos(0, col), PLAIN))
  {
    hide Run, Exec, Surface, On, FreshScreen, EndDrawn;
    var t, wrapped := FreshScreen(2, 2), first.(wrapped := true);
    var half, full := Row([Ink(a), EMPTY], false), Row([Ink(a), Ink(b)], false);
    WrapOn(t, first, pen, a);
    TypeOn(t, [wrapped, half], Pen(pen.out + [Print(Glyph(a))], Pos(1, 1), PLAIN), b);
    assert half.cells[1 := Ink(b)] == full.cells && [wrapped, half][1 := full] == [wrapped, full];
    var typed := Pen(pen.out + [Print(Glyph(a))] + [Print(Glyph(b))], Pos(1, 2), PLAIN);
    MoveOn(t, [wrapped, full], typed, Pos(0, col));
    assert typed.out + [MoveTo(0, col)] == pen.out + [Print(Glyph(a)), Print(Glyph(b)), MoveTo(0, col)];
  }

  lemma BeforeIsReached()
    ensures Run(FreshScreen(2, 2),
                [Print(Glyph(120)), Print(Glyph(121)), Print(Glyph(97)), Print(Glyph(98)), MoveTo(0, 1)])
            == Before()
  {
    hide Run, Exec, Surface, On, FreshScreen;
    var first, pen := Row([Ink(120), Ink(121)], false), Pen([Print(Glyph(120)), Print(Glyph(121))], Pos(0, 2), PLAIN);
    FirstRowTyped(120, 121);
    SecondRowTyped(first, pen, 97, 98, 1);
    var typed := Pen(pen.out + [Print(Glyph(97)), Print(Glyph(98)), MoveTo(0, 1)], Pos(0, 1), PLAIN);
    var rows := [first.(wrapped := true), Row([Ink(97), Ink(98)], false)];
    Reached(rows, typed, typed.out, rows[0], rows[1]);
    assert typed.out == [Print(Glyph(120)), Print(Glyph(121)), Print(Glyph(97)), Print(Glyph(98)), MoveTo(0, 1)];
  }

  lemma AfterIsReached()
    ensures Run(FreshScreen(2, 2), [Print(Glyph(120)), Print(Glyph(122)), Print(Glyph(97))]) == After()
  {
    hide Run, Exec, Surface, On, FreshScreen;
    var first, pen := Row([Ink(120), Ink(122)], false), Pen([Print(Glyph(120)), Print(Glyph(122))], Pos(0, 2), PLAIN);
    FirstRowTyped(120, 122);
    WrapOn(FreshScreen(2, 2), first, pen, 97);
    var typed := Pen(pen.out + [Print(Glyph(97))], Pos(1, 1), PLAIN);
    var rows := [first.(wrapped := true), Row([Ink(97), EMPTY], false)];
    Reached(rows, typed, typed.out, rows[0], rows[1]);
    assert typed.out == [Print(Glyph(120)), Print(Glyph(122)), Print(Glyph(97))];
  }

  lemma WideInked()
    ensures ValidCell(Drawn(WIDE, PLAIN)) && Scalars(Drawn(WIDE, PLAIN).contents) == [Print(WIDE)]
    ensures Inked(NewRow(2), 0, Drawn(WIDE, PLAIN)) == Row([Drawn(WIDE, PLAIN), CONTINUATION], false)
  {
    assert NewRow(2).cells == [EMPTY, EMPTY];
    assert Inked(NewRow(2), 0, Drawn(WIDE, PLAIN)).cells == [Drawn(WIDE, PLAIN), CONTINUATION];
  }

  lemma WideBeforeIsReached()
    ensures Run(FreshScreen(2, 2), [Print(WIDE), Print(Glyph(97)), Print(Glyph(98)), MoveTo(0, 0)]) == WideBefore()
  {
    hide Run, Exec, Surface, On, FreshScreen, Inked;
    var t, blank, first := FreshScreen(2, 2), NewRow(2), Row([Drawn(WIDE, PLAIN), CONTINUATION], false);
    FreshOn();
    WideInked();
    InkOn(t, [blank, blank], Pen([], Pos(0, 0), PLAIN), Drawn(WIDE, PLAIN));
    assert [blank, blank][0 := first] == [first, blank] && [] + [Print(WIDE)] == [Print(WIDE)];
    SecondRowTyped(first, Pen([Print(WIDE)], Pos(0, 2), PLAIN), 97, 98, 0);
    var typed := Pen([Print(WIDE)] + [Print(Glyph(97)), Print(Glyph(98)), MoveTo(0, 0)], Pos(0, 0), PLAIN);
    var rows := [first.(wrapped := true), Row([Ink(97), Ink(98)], false)];
    Reached(rows, typed, typed.out, rows[0], rows[1]);
    assert typed.out == [Print(WIDE), Print(Glyph(97)), Print(Glyph(98)), MoveTo(0, 0)];
  }

  lemma WideAfterIsReached()
    ensures Run(FreshScreen(2, 2),
                [CursorForward(1), Print(Glyph(122)), Print(Glyph(97)), Print(Glyph(98)), MoveTo(0, 0)])
            == WideAfter()
  {
    hide Run, Exec, Surface, On, FreshScreen;
    var t, blank, first := FreshScreen(2, 2), NewRow(2), Row([EMPTY, Ink(122)], false);
    FreshOn();
    NewIsPair();
    MoveOn(t, [blank, blank], Pen([], Pos(0, 0), PLAIN), Pos(0, 1));
    assert [] + [CursorForward(1)] == [CursorForward(1)];
    TypeOn(t, [blank, blank], Pen([CursorForward(1)], Pos(0, 1), PLAIN), 122);
    assert [EMPTY, EMPTY][1 := Ink(122)] == first.cells && [blank, blank][0 := first] == [first, blank];
    var pen := Pen([CursorForward(1)] + [Print(Glyph(122))], Pos(0, 2), PLAIN);
    SecondRowTyped(first, pen, 97, 98, 0);
    var typed := Pen(pen.out + [Print(Glyph(97)), Print(Glyph(98)), MoveTo(0, 0)], Pos(0, 0), PLAIN);
    var rows := [first.(wrapped := true), Row([Ink(97), Ink(98)], false)];
    Reached(rows, typed, typed.out, rows[0], rows[1]);
    assert typed.out == [CursorForward(1), Print(Glyph(122)), Print(Glyph(97)), Print(Glyph(98)), MoveTo(0, 0)];
  }
}
