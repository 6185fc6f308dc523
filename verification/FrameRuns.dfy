/** Whole runs of outputs: what the terminal shows after each. */
module FrameRuns {
  import opened Wrappers
  import Attributes
  import Cells
  import opened Screens
  import opened Painter
  import opened Painting
  import opened ScreenPainting
  import opened Frames
  import opened WrapFlags
  import opened SafeDiffs
  import opened WrappedScreens
  import opened FullRepaints

  /** One output of the session: the screen painted, whether a full repaint was
      demanded for it, and the terminal that took the place of the last one, if it was
      resized in between. */
  datatype Frame = Frame(screen: Screen, forced: bool, resized: Option<Screen>)

  /** The screen that the terminal was last painted with, or its own at first. */
  function Earlier(t: Screen, frames: seq<Frame>, i: nat): Screen
    requires i < |frames|
  {
    if i == 0 then t else frames[i - 1].screen
  }

  /** The first output is a full repaint, and so is one that is forced or follows a
      change of size. */
  predicate Full(frames: seq<Frame>, i: nat)
    requires i < |frames|
  {
    i == 0 || frames[i].forced || !SameSize(frames[i].screen, frames[i - 1].screen)
  }

  /** A screen that commands lead to; the terminal has its size, and is only replaced
      when a full repaint follows. */
  predicate Fits(t: Screen, frames: seq<Frame>, i: nat)
    requires i < |frames|
  {
    var f := frames[i];
    && WellFormed(f.screen) && FlagsFit(f.screen.grid.rows)
    && (f.resized.None? ==> SameSize(f.screen, Earlier(t, frames, i)))
    && (f.resized.Some? ==> Surface(f.resized.value) && SameSize(f.resized.value, f.screen) && Full(frames, i))
  }

  predicate Paintable(t: Screen, frames: seq<Frame>) {
    forall i :: 0 <= i < |frames| ==> Fits(t, frames, i)
  }

  lemma AtPrefix(t: Screen, frames: seq<Frame>, n: nat, i: nat)
    requires i < n <= |frames|
    ensures Full(frames[..n], i) == Full(frames, i) && Fits(t, frames[..n], i) == Fits(t, frames, i)
    ensures MouseAt(t, frames[..n], i) == MouseAt(t, frames, i)
  {
    hide WellFormed, FlagsFit, Surface, MouseFits, SameSize;
    assert frames[..n][i] == frames[i] && (i > 0 ==> frames[..n][i - 1] == frames[i - 1]);
  }

  lemma PaintablePrefix(t: Screen, frames: seq<Frame>, n: nat)
    requires Paintable(t, frames) && n <= |frames|
    ensures Paintable(t, frames[..n])
  {
    hide Fits;
    forall i | 0 <= i < n ensures Fits(t, frames[..n], i) { AtPrefix(t, frames, n, i); }
  }

  /** What `emit_output` writes last: a full repaint, or the diff from the screen
      painted before. */
  function Output(t: Screen, frames: seq<Frame>): seq<Command>
    requires Paintable(t, frames) && frames != []
  {
    hide WellFormed, FlagsFit, Surface, StateFormatted, StateDiff;
    var n := |frames|;
    assert Fits(t, frames, n - 1);
    if Full(frames, n - 1) then StateFormatted(frames[n - 1].screen)
    else
      assert Fits(t, frames, n - 2);
      StateDiff(frames[n - 1].screen, frames[n - 2].screen)
  }

  /** The terminal that an output reaches. */
  function Standing(t: Screen, frame: Frame): Screen {
    if frame.resized.Some? then frame.resized.value else t
  }

  lemma StandingIsWellFormed(t: Screen, frames: seq<Frame>, u: Screen)
    requires frames != [] && Paintable(t, frames) && WellFormed(u)
    ensures WellFormed(Standing(u, frames[|frames| - 1]))
  {
    hide FlagsFit, ValidGrid, Full, SameSize;
    assert Fits(t, frames, |frames| - 1);
  }

  /** The terminal after a run of outputs. */
  function Terminal(t: Screen, frames: seq<Frame>): (r: Screen)
    requires WellFormed(t) && Paintable(t, frames)
    ensures WellFormed(r)
  {
    hide Paintable, WellFormed, Run, Output, Standing;
    if frames == [] then t
    else
      var front := frames[..|frames| - 1];
      PaintablePrefix(t, frames, |frames| - 1);
      var u := Terminal(t, front);
      StandingIsWellFormed(t, frames, u);
      Run(Standing(u, frames[|frames| - 1]), Output(t, frames))
  }

  lemma StandingFits(t: Screen, frames: seq<Frame>, u: Screen)
    requires frames != [] && Paintable(t, frames) && Surface(u) && SameSize(u, Earlier(t, frames, |frames| - 1))
    ensures
      var v := Standing(u, frames[|frames| - 1]);
      Surface(v) && SameSize(v, frames[|frames| - 1].screen)
  {
    hide FlagsFit, ValidGrid, Full;
    assert Fits(t, frames, |frames| - 1);
  }

  // ---------------------------------------------------------------- one increment

  /** The whole diff of any two screens that commands lead to. */
  lemma StateRepaintedIff(t: Screen, target: Screen, shown: Screen)
    requires Surface(t) && WellFormed(target) && WellFormed(shown) && SameSize(target, shown)
    requires FlagsFit(target.grid.rows) && FlagsFit(shown.grid.rows)
    requires SameContents(t, shown) && SameKeys(t, shown)
    ensures
      var r := Run(t, StateDiff(target, shown));
      && Surface(r) && SameKeys(r, target) && (SameMouse(t, shown) ==> SameMouse(r, target))
      && (SameContents(r, target) <==> Safe(target, shown))
  {
    hide Run, Exec, ContentsDiff, InputModeDiff, Harmless, FlagsFit, Painted, Safe;
    RunConcat(t, ContentsDiff(target, shown), InputModeDiff(target, shown));
    ContentsRepaintedIff(t, target, shown);
    DiffIsRightIff(t, target, shown);
    InputModesRepainted(Run(t, ContentsDiff(target, shown)), target, shown);
  }

  /** In particular without soft wraps the diff is always right. */
  lemma UnwrappedRepainted(t: Screen, target: Screen, shown: Screen)
    requires Surface(t) && WellFormed(target) && WellFormed(shown) && SameSize(target, shown)
    requires NoWraps(target.grid.rows) && FlagsFit(shown.grid.rows)
    requires SameContents(t, shown) && SameKeys(t, shown)
    ensures
      var r := Run(t, StateDiff(target, shown));
      && Surface(r) && SameContents(r, target) && SameKeys(r, target) && (SameMouse(t, shown) ==> SameMouse(r, target))
  {
    hide Run, Exec, StateDiff, ValidRows, Safe;
    StateRepaintedIff(t, target, shown);
    UnwrappedIsSafe(target, shown);
  }

  lemma {:induction false} UnchangedRows(pen: Pen, rows: seq<Cells.Row>, i: nat, cols: nat)
    requires i <= |rows| && 2 <= cols && ValidRows(rows, cols) && pen.attrs.WellFormed()
    ensures PaintRows(pen, rows, rows, i, cols) == pen
    decreases |rows| - i
  {
    hide PaintRow;
    if i < |rows| {
      assert Cells.ValidRow(rows[i], cols);
      RowPen(pen, rows[i], rows[i], i, i > 0 && rows[i - 1].wrapped, i > 0 && rows[i - 1].wrapped);
      UnchangedRows(pen, rows, i + 1, cols);
    }
  }

  /** Nothing is written where nothing has changed. */
  lemma UnchangedIsSilent(s: Screen)
    requires WellFormed(s)
    ensures StateDiff(s, s) == []
  {
    hide ValidRows, PaintRows;
    UnchangedRows(Pen([], s.grid.pos, s.attrs), s.grid.rows, 0, s.grid.cols);
    Attributes.SgrRoundTrip(s.attrs, s.attrs);
  }

  // -------------------------------------------------------------------- whole runs

  /** Every diff of the run is safe. */
  predicate SafeRun(t: Screen, frames: seq<Frame>)
    requires Paintable(t, frames)
  {
    forall i :: 0 < i < |frames| && !Full(frames, i) ==> SafeAt(t, frames, i)
  }

  predicate SafeAt(t: Screen, frames: seq<Frame>, i: nat)
    requires Paintable(t, frames) && 0 < i < |frames| && !Full(frames, i)
  {
    hide WellFormed, FlagsFit, Surface;
    assert Fits(t, frames, i) && Fits(t, frames, i - 1);
    Safe(frames[i].screen, frames[i - 1].screen)
  }

  /** What a full repaint needs of the terminal's mouse state: it sets a tracking mode
      or an encoding but never resets one. */
  predicate MouseFits(actual: Screen, target: Screen) {
    && (target.mouse != NoMouse || actual.mouse == NoMouse)
    && (target.encoding != DefaultEncoding || actual.encoding == DefaultEncoding)
  }

  /** Every full repaint of the run finds a mouse state that it can make right. */
  predicate MouseRun(t: Screen, frames: seq<Frame>) {
    forall i :: 0 <= i < |frames| && Full(frames, i) ==> MouseAt(t, frames, i)
  }

  predicate MouseAt(t: Screen, frames: seq<Frame>, i: nat)
    requires i < |frames|
  {
    MouseFits(Standing(Earlier(t, frames, i), frames[i]), frames[i].screen)
  }

  predicate ShownAfter(t: Screen, frames: seq<Frame>, j: nat)
    requires WellFormed(t) && Paintable(t, frames) && 0 < j <= |frames|
  {
    PaintablePrefix(t, frames, j);
    Shows(Terminal(t, frames[..j]), frames[j - 1].screen)
  }

  predicate MouseAfterwards(t: Screen, frames: seq<Frame>, j: nat)
    requires WellFormed(t) && Paintable(t, frames) && 0 < j <= |frames|
  {
    PaintablePrefix(t, frames, j);
    SameMouse(Terminal(t, frames[..j]), frames[j - 1].screen)
  }

  /** Over every run of outputs, full repaints and safe diffs in any order and at
      any sizes, the terminal shows the last painted screen; and its mouse state as
      well, if every full repaint could make that right. */
  lemma {:induction false} EveryFrameShown(t: Screen, frames: seq<Frame>)
    requires Surface(t) && frames != [] && Paintable(t, frames) && SafeRun(t, frames)
    ensures
      var (r, last) := (Terminal(t, frames), frames[|frames| - 1].screen);
      Surface(r) && SameContents(r, last) && SameKeys(r, last) && (MouseRun(t, frames) ==> SameMouse(r, last))
    decreases |frames|
  {
    hide Terminal, WellFormed, SafeRun, MouseRun, SafeAt, MouseAt, Surface, Full, Paintable, SameContents,
      SameKeys, SameMouse;
    assert WellFormed(t) by { SurfaceIsSound(t); }
    PrefixOfRun(t, frames);
    if |frames| > 1 { EveryFrameShown(t, frames[..|frames| - 1]); } else { NothingYet(t, frames[..0]); }
    LastOutput(t, frames);
  }

  /** The last output, when the terminal showed the screen before it. */
  lemma LastOutput(t: Screen, frames: seq<Frame>)
    requires Surface(t) && frames != [] && Paintable(t, frames) && Paintable(t, frames[..|frames| - 1])
    requires
      var u := Terminal(t, frames[..|frames| - 1]);
      Surface(u) && (|frames| > 1 ==> Shows(u, frames[|frames| - 2].screen))
    ensures
      var (n, u, r) := (|frames|, Terminal(t, frames[..|frames| - 1]), Terminal(t, frames));
      && Surface(r) && SameKeys(r, frames[n - 1].screen)
      && (SameContents(r, frames[n - 1].screen) <==> (Full(frames, n - 1) || SafeAt(t, frames, n - 1)))
      && (n == 1 || SameMouse(u, frames[n - 2].screen) ==>
            (SameMouse(r, frames[n - 1].screen) <==> (Full(frames, n - 1) ==> MouseAt(t, frames, n - 1))))
  {
    hide Terminal, WellFormed, Run, Fits, Surface, StateDiff, StateFormatted, FlagsFit, Safe, Standing, SameSize,
      SameContents, SameKeys, SameMouse, MouseFits;
    SurfaceIsSound(t);
    var n, u := |frames|, Terminal(t, frames[..|frames| - 1]);
    var v := Standing(u, frames[n - 1]);
    if n == 1 { NothingYet(t, frames[..0]); }
    assert SameSize(u, Earlier(t, frames, n - 1)) by { SizeOf(t, frames, u); }
    StandingFits(t, frames, u);
    SurfaceIsSound(v);
    TerminalIs(t, frames);
    if Full(frames, n - 1) {
      FullOutput(t, frames, v);
      StandingMouse(u, Earlier(t, frames, n - 1), frames[n - 1]);
    } else {
      SurfaceIsSound(u);
      DiffOutput(t, frames, u);
    }
  }

  lemma SizeOf(t: Screen, frames: seq<Frame>, u: Screen)
    requires frames != [] && (if |frames| > 1 then Shows(u, frames[|frames| - 2].screen) else u == t)
    ensures SameSize(u, Earlier(t, frames, |frames| - 1))
  {
  }

  lemma TerminalIs(t: Screen, frames: seq<Frame>)
    requires WellFormed(t) && frames != [] && Paintable(t, frames) && Paintable(t, frames[..|frames| - 1])
    requires WellFormed(Standing(Terminal(t, frames[..|frames| - 1]), frames[|frames| - 1]))
    ensures Terminal(t, frames) ==
      Run(Standing(Terminal(t, frames[..|frames| - 1]), frames[|frames| - 1]), Output(t, frames))
  {
    hide Paintable, WellFormed, Run, Output, Standing;
  }

  lemma FullOutput(t: Screen, frames: seq<Frame>, v: Screen)
    requires frames != [] && Paintable(t, frames) && Full(frames, |frames| - 1)
    requires Surface(v) && WellFormed(v) && SameSize(v, frames[|frames| - 1].screen)
    ensures
      var (r, target) := (Run(v, Output(t, frames)), frames[|frames| - 1].screen);
      && Surface(r) && SameContents(r, target) && SameKeys(r, target)
      && (SameMouse(r, target) <==> MouseFits(v, target))
  {
    hide Run, Exec, StateDiff, StateFormatted, FlagsFit, ValidGrid;
    assert Fits(t, frames, |frames| - 1);
    FullRepainted(v, frames[|frames| - 1].screen);
  }

  lemma DiffOutput(t: Screen, frames: seq<Frame>, u: Screen)
    requires frames != [] && Paintable(t, frames) && !Full(frames, |frames| - 1)
    requires Surface(u) && WellFormed(u) && Shows(u, frames[|frames| - 2].screen)
    ensures
      var n := |frames|;
      var (r, target) := (Run(u, Output(t, frames)), frames[n - 1].screen);
      && Standing(u, frames[n - 1]) == u && Surface(r) && SameKeys(r, target)
      && (SameContents(r, target) <==> SafeAt(t, frames, n - 1))
      && (SameMouse(u, frames[n - 2].screen) ==> SameMouse(r, target))
  {
    hide Run, Exec, StateDiff, StateFormatted, FlagsFit, Safe, ValidGrid;
    var n := |frames|;
    assert Fits(t, frames, n - 1) && Fits(t, frames, n - 2);
    StateRepaintedIff(u, frames[n - 1].screen, frames[n - 2].screen);
  }

  /** Only the mouse state of a terminal matters to whether it fits. */
  lemma StandingMouse(u: Screen, shown: Screen, frame: Frame)
    ensures u == shown || SameMouse(u, shown) ==>
      (MouseFits(Standing(u, frame), frame.screen) <==> MouseFits(Standing(shown, frame), frame.screen))
  {
  }

  predicate Shows(t: Screen, s: Screen) {
    SameContents(t, s) && SameKeys(t, s)
  }

  /** A run is safe, or its mouse right, exactly when it was before and is at its
      last output. */
  lemma PrefixOfRun(t: Screen, frames: seq<Frame>)
    requires frames != [] && Paintable(t, frames)
    ensures Paintable(t, frames[..|frames| - 1])
    ensures
      var n := |frames|;
      && (SafeRun(t, frames) <==>
            SafeRun(t, frames[..n - 1]) && (Full(frames, n - 1) || SafeAt(t, frames, n - 1)))
      && (MouseRun(t, frames) <==>
            MouseRun(t, frames[..n - 1]) && (Full(frames, n - 1) ==> MouseAt(t, frames, n - 1)))
  {
    hide Fits, SafeAt, Full, MouseAt;
    var n, before := |frames|, frames[..|frames| - 1];
    PaintablePrefix(t, frames, n - 1);
    FirstIsFull(frames);
    forall i | 0 <= i < n - 1
      ensures Full(before, i) == Full(frames, i) && MouseAt(t, before, i) == MouseAt(t, frames, i)
      ensures 0 < i && !Full(frames, i) ==> SafeAt(t, before, i) == SafeAt(t, frames, i)
    {
      AtPrefix(t, frames, n - 1, i);
      if 0 < i && !Full(frames, i) { SafeAtPrefix(t, frames, n - 1, i); }
    }
  }

  lemma FirstIsFull(frames: seq<Frame>)
    requires frames != []
    ensures Full(frames, 0)
  {
  }

  lemma SafeAtPrefix(t: Screen, frames: seq<Frame>, n: nat, i: nat)
    requires 0 < i < n <= |frames| && Paintable(t, frames) && Paintable(t, frames[..n])
    requires !Full(frames, i) && !Full(frames[..n], i)
    ensures SafeAt(t, frames[..n], i) == SafeAt(t, frames, i)
  {
    hide Fits, Safe, Full;
  }

  // ------------------------------------------------------------------ exactly when

  lemma ShownBefore(t: Screen, frames: seq<Frame>, j: nat)
    requires WellFormed(t) && Paintable(t, frames) && 0 < j < |frames|
    ensures Paintable(t, frames[..|frames| - 1])
    ensures ShownAfter(t, frames, j) == ShownAfter(t, frames[..|frames| - 1], j)
    ensures MouseAfterwards(t, frames, j) == MouseAfterwards(t, frames[..|frames| - 1], j)
  {
    hide Terminal, WellFormed, Fits;
    PaintablePrefix(t, frames, |frames| - 1);
    assert frames[..|frames| - 1][..j] == frames[..j];
  }

  /** The terminal shows each of a run of screens after its output exactly when every
      diff between full repaints is safe; and their mouse state as well exactly
      when besides every full repaint could make that right. */
  lemma {:induction false} EveryFrameShownIff(t: Screen, frames: seq<Frame>)
    requires Surface(t) && Paintable(t, frames)
    ensures (forall j :: 0 < j <= |frames| ==> ShownAfter(t, frames, j)) <==> SafeRun(t, frames)
    ensures (forall j :: 0 < j <= |frames| ==> ShownAfter(t, frames, j) && MouseAfterwards(t, frames, j)) <==>
      SafeRun(t, frames) && MouseRun(t, frames)
    decreases |frames|
  {
    hide Terminal, WellFormed, FlagsFit, SafeRun, MouseRun, ShownAfter, MouseAfterwards, SafeAt, MouseAt,
      Surface, Full, Paintable;
    assert WellFormed(t) by { SurfaceIsSound(t); }
    if frames == [] {
      EmptyRun(t, frames);
    } else {
      var n, before := |frames|, frames[..|frames| - 1];
      PrefixOfRun(t, frames);
      EveryFrameShownIff(t, before);
      forall j | 0 < j < n
        ensures ShownAfter(t, frames, j) == ShownAfter(t, before, j)
        ensures MouseAfterwards(t, frames, j) == MouseAfterwards(t, before, j)
      {
        ShownBefore(t, frames, j);
      }
      if SafeRun(t, before) { LastShownIff(t, frames); }
    }
  }

  lemma LastShownIff(t: Screen, frames: seq<Frame>)
    requires Surface(t) && frames != [] && Paintable(t, frames)
    requires Paintable(t, frames[..|frames| - 1]) && SafeRun(t, frames[..|frames| - 1])
    ensures
      var n := |frames|;
      && (ShownAfter(t, frames, n) <==> (Full(frames, n - 1) || SafeAt(t, frames, n - 1)))
      && (MouseRun(t, frames[..n - 1]) ==>
            (MouseAfterwards(t, frames, n) <==> (Full(frames, n - 1) ==> MouseAt(t, frames, n - 1))))
  {
    hide Terminal, WellFormed, SafeRun, MouseRun, SafeAt, MouseAt, Surface, Full, Paintable, SameContents,
      SameKeys, SameMouse;
    assert WellFormed(t) by { SurfaceIsSound(t); }
    var n := |frames|;
    assert frames[..n] == frames;
    if n > 1 { EveryFrameShown(t, frames[..n - 1]); } else { NothingYet(t, frames[..0]); }
    LastOutput(t, frames);
  }

  lemma NothingYet(t: Screen, frames: seq<Frame>)
    requires Surface(t) && frames == [] && Paintable(t, frames)
    ensures Terminal(t, frames) == t
  {
  }

  lemma EmptyRun(t: Screen, frames: seq<Frame>)
    requires frames == [] && Paintable(t, frames)
    ensures SafeRun(t, frames) && MouseRun(t, frames)
  {
  }

  lemma SurfaceIsSound(t: Screen)
    requires Surface(t)
    ensures WellFormed(t)
  {
  }

  // ---------------------------------------------------------------- a stuck mouse

  /** A terminal that tracks the mouse keeps doing so when a screen that does not is
      painted in full. */
  lemma MouseStaysOn()
    ensures
      var (t, target) := (FreshScreen(2, 2).(mouse := AnyMotion, encoding := SgrEncoding), FreshScreen(2, 2));
      var r := Run(t, StateFormatted(target));
      SameContents(r, target) && SameKeys(r, target) && !SameMouse(r, target)
  {
    hide Run, StateFormatted;
    var t, target := FreshScreen(2, 2).(mouse := AnyMotion, encoding := SgrEncoding), FreshScreen(2, 2);
    FullRepainted(t, target);
  }
}
