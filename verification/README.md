# Verified model of a Mosh client

A Dafny model of the deterministic cores of a Mosh client and proofs of what
they are for. `dafny verify dfyconfig.toml` checks the whole project.

The program keeps a remote terminal in step with a server over a lossy
datagram network. The model covers five parts.

- **State synchronization** (`Synchronization`, `Retention`, `SyncRuns`,
  `TwoPeers`, `GivenUp`, `Stalls`, `StallRun`, `ClientOperations`,
  `Instructions`, `ClientHistory`, `Handlers`, `Delivery`, `Convergence`,
  `Turns`). Both ends number their states and exchange differences. Whole runs
  over a network that loses, repeats and reorders are modelled as state
  machines. The main results are exactly-once input (`Delivery.ExactlyOnce`),
  remote convergence (`Convergence.RemoteConvergence`), two-peer safety
  (`TwoPeers.PeersStayAligned`), exactly when a peer can still be brought up to
  date (`Stalls.CanLearnIff`), that a client follows its server
  (`Turns.DeliveredIsShown`, `Turns.FollowsServer`) and that the internal
  "missing state" errors are unreachable (`Delivery.NeverMissesAState`). What
  each event of a session does, and exactly when it succeeds, is told from the
  fields of the driver (`Turns.SendSays`, `Turns.NormalSays`). A terminal
  snapshot and its differences are type parameters; applying a difference is a
  function parameter.
- **The differential painter** of the embedded terminal emulator (`Attributes`,
  `Cells`, `PackedCell`, `Screens`, `CommandEffects`, `ColumnEffects`,
  `Resizing`, `Painter`, `Painting`, `RowPainting`, `ScreenPainting`, `Frames`,
  `CarriedPainting`, `WrappedRows`, `RowWraps`, `WrapFlags`, `WrappedScreens`,
  `SafeDiffs`, `SoftWraps`, `FullRepaint`, `FrameRuns`). A pair of screens is
  compiled into drawing commands; the same emulator interprets them, and what
  each command does is told row by row and column by column (`CommandEffects`,
  `ColumnEffects`). The main result is compiler correctness, for characters of
  any width and any soft wraps. A full repaint shows every screen that commands
  lead to, on any terminal (`FullRepaints.EveryScreenRepainted`). For a diff it
  is proved exactly what is shown (`WrappedScreens.ContentsRepaintedIff`) and,
  by a condition on the two screens alone, exactly when that is the target
  (`SafeDiffs.DiffIsRightIff`); and so over every run of outputs
  (`FrameRuns.EveryFrameShownIff`). Output is a sequence of commands, not bytes.
- **Fragments** (`Bytes`, `Fragments`, `Reassembly`, `Conflicts`). Splitting,
  headers and the one-slot reassembler form a round trip for every arrival order
  (`Reassembly.FragmentRoundTrip`), and a fragment is refused as conflicting
  exactly when no message has it together with those stored
  (`Conflicts.ConflictIff`).
- **Timing** (`RoundTripTime`, `Timestamps`, `Scheduler`, `Reachability`,
  `Wake`). The integer estimator is compared with the exact rational one of
  section 2 of RFC 6298 (`RoundTripTime.RttAccuracy`). The event loop's wake
  time is exactly the first instant at which something it acts on changes
  (`Wake.WakeIsTheFirstChange`), and no later run can tell that it slept until
  then (`Wake.SleepingLosesNothing`).
- **Packets, replay window and local prediction** (`Bits`, `Replay`, `Packets`,
  `Prediction`, `Typing`, `Displays`). The mask refines a set; a sealed packet
  is delivered at most once; the projection stays a fold of the last keys typed
  (`Typing.PendingIsTyped`). Synchronization, prediction and painting together:
  the terminal shows the server's latest state, or what was typed since drawn on
  an earlier one (`Displays.TerminalShowsTruth`).

Where the program updates fields, lists or maps in place, the model has a class
with those fields (`SynchronizationState`, `ClientHistory`, `SessionDriver`,
`RowBuffer`, `GridBuffer`, `Terminal`, `FragmentReassembler`, `RttEstimator`,
`DatagramTiming`, `SendScheduler`, `ReachabilityTracker`, `ReplayWindow`,
`LocalPrediction`, `PackedCell`) and loops where it has loops. Each method is
proved to compute a function of the old state, and the results above are proved
about those functions.

Numbers are unbounded; where the program checks for overflow of 64 bits, or
wraps at 16 bits, the check or the wrap is written out. Word operations of the
replay mask are written out on binary digits. A well-formed screen has at least
two rows and two columns, and a grid owns its rows, so a row is a value inside
it.

## Findings

Properties that turned out false of the code, with the exact condition under
which they hold:

- The differential painter can be wrong on soft-wrapped rows, in two ways. To
  reach a pending erase on a row continued from a wrapped one it draws spaces
  over columns it found unchanged (`SoftWraps.WrappedScreenMisdrawn`). And
  cutting from the left a wide character that ends a wrapped row makes the row
  forget its wrap (`SoftWraps.WrapForgotten`). The diff is right exactly when
  every such erase comes after nothing but spaces in the current style, and
  drawing on the row below a forgotten wrap starts over
  (`SafeDiffs.DiffIsRightIff`, where the condition looks at the two screens
  only); so it always is when the target has no soft wraps
  (`FrameRuns.UnwrappedRepainted`). A full repaint has neither defect
  (`FullRepaints.FullContentsRepainted`).
- A full repaint cannot turn mouse reporting off (`FrameRuns.MouseStaysOn`): the
  mouse state is right exactly when the target tracks the mouse or the terminal
  did not, and the target has an encoding of its own or the terminal had none
  (`FullRepaints.FullRepainted`). Over a run it is right after every output
  exactly when that holds of each full repaint and the screen shown before it
  (`FrameRuns.EveryFrameShownIff`).
- A header with reply 65,535 does not survive decoding; every other one does
  (`Fragments.DecodeInvertsEncode`), and the program never sends it
  (`Timestamps.OutgoingDecodes`).
- Not every accepted operation log can be sent. The log is limited to a 2 MiB
  difference and the instruction around it to 2 MiB as well, so a full log is
  accepted that no instruction can carry (`Instructions.AcceptedLogMayNotFit`).
  The compressed instruction is limited to 1 MiB, and whatever the compressor,
  some accepted log of 1.5 MiB exceeds that
  (`Instructions.SomeLogStaysTooLarge`). An instruction is encoded exactly when
  difference, header and four bytes of framing fit into 2 MiB and the compressed
  form into 1 MiB (`Instructions.SendableIff`); what is short enough for any
  compressor of bounded expansion is given by `Instructions.SurelySendableIff`.
- The loop does not wake for everything that its next turn would change. On a
  slow link the policy may note a glitch of a displayed prediction before any
  deadline (`Wake.GlitchNotedSilently`), and an incomplete instruction may
  outlive its time (`Wake.SlotDroppedSilently`). Before the wake exactly these
  change, besides two clocks (`Wake.SilentChanges`), and no later run shows a
  difference (`Wake.SleepingLosesNothing`).
- A sender and its peer can get stuck for good. A full queue of received states
  gives up the oldest one apart from the floor, and that may be the very state
  the sender knows its peer has and builds on; it is, exactly when the queue is
  full and no other state is older (`GivenUp.LosesKnownIff`), and the peer has
  that state exactly when it has not been given up (`GivenUp.KnownIsHeldIff`).
  If the peer's latest state then also leaves the queue of sent states, its
  acknowledgements mean nothing to the sender, and nothing new ever reaches the
  peer again (`Stalls.StuckForEver`). Such a run exists from the start
  (`StallRun.StuckIsReached`, `StallRun.LostForGood`). When nothing is on its
  way any more, the sender can bring its peer something new exactly when the
  peer has the state known or the one sent last, or its latest state is
  remembered or is the newest there is; and that is enough at any time
  (`Stalls.CanLearnIff`).
- Resizing does not keep a grid well-formed: it may cut a wide character in half
  (`Resizing.WideIsCut`) or leave a scroll region of one row
  (`Resizing.RegionCollapses`). It does exactly when no row kept is cut through
  a wide character and the region does not begin at the new last row
  (`Resizing.ResizedIff`).
- On screens of one row or one column, which the program admits, drawing may
  subtract below zero: exactly when the character is wider than the screen, or
  wraps in a region of the first row alone (`Resizing.WrapSourceIff`). On larger
  well-formed screens it never does (`Resizing.WrapSourceIsColumnWrap`).

## Model

| member | source | states |
|---|---|---|
| `Attributes.SgrKeepsWellFormed` | src/vt100/screen.rs:1229-1356 | SGR on any parameter list keeps the bold and dim bits exclusive, so the unreachable intensity can never occur |
| `Attributes.SgrRunsRequest` | src/vt100/term.rs:180-296 | interpreting the parameters written for a requested change applies exactly that request |
| `Attributes.RequestReaches` | src/vt100/attrs.rs:120-179 | the request built from two attribute sets turns the second into the first |
| `Attributes.SgrRoundTrip` | src/vt100/attrs.rs:120-179 | for all well-formed attributes a and b, running SGR on the parameters of a's difference from b, starting at b, gives exactly a; no parameters are written exactly when nothing differs |
| `Attributes.IntensityCodesSay` | src/vt100/screen.rs:1244-1356 | codes 1, 2, 22 and 0 decide on bold and dim, which exclude each other; no other code does |
| `Attributes.FlagCodesSay` | src/vt100/screen.rs:1244-1356 | each of the five other flags is set by its code, reset by its own and by 0, and by no other |
| `Attributes.ColorCodesSay` | src/vt100/screen.rs:1244-1356 | codes 30-37, 90-97, 39 and 40-47, 100-107, 49 set the two colours, 0 resets both, no other code touches them |
| `Attributes.ExtendedCodesSay` | src/vt100/screen.rs:1260-1345 | indexed and direct colours in separate parameters or in one give the same colour |
| `Cells.EraseRange` | src/vt100/row.rs:55-62 | erasing any range of columns leaves every wide character paired with its continuation |
| `Cells.InsertBlanksIsValid` | src/vt100/grid.rs:501-523 | inserting any number of cells keeps wide characters paired, also when the cursor is on a continuation or a wide character is pushed off the edge |
| `Cells.DeleteRange` | src/vt100/grid.rs:525-533 | deleting any range of cells keeps wide characters paired |
| `Cells.PutNarrowIsValid` | src/vt100/screen.rs:831-893 | drawing a narrow character over either half of a wide one keeps the row valid |
| `Cells.PutWideIsValid` | src/vt100/screen.rs:895-951 | drawing a wide character over up to two others keeps every wide cell followed by exactly one default continuation and vice versa |
| `Cells.AppendIsValid` | src/vt100/cell.rs:53-67 | appending a mark keeps the contents one base scalar and marks that each fitted when added |
| `Screens.ColumnWrap` | src/vt100/grid.rs:678-692 | wrapping leaves the cursor where a character of that width fits, on a well-formed grid of the same size |
| `Screens.Text` | src/vt100/screen.rs:716-953 | drawing any scalar keeps the grid well formed, so no lookup of a neighbouring cell can fail |
| `Screens.InsertLines` | src/vt100/grid.rs:544-551 | inserting lines keeps row count and widths wherever the cursor is, also below the scroll region |
| `Screens.DeleteLines` | src/vt100/grid.rs:553-559 | deleting lines keeps row count and widths wherever the cursor is, also below the scroll region |
| `Screens.Exec` | src/vt100/perform.rs:34-196 | every command keeps rows, widths, cursor, scroll region, pairing and attributes valid |
| `Screens.Run` | src/vt100/screen.rs:716-953 | grid well-formedness over every sequence of text, erase, insert, delete, scroll and cursor commands at a fixed size of at least 2x2 |
| `CommandEffects.LineFeedSays` | src/vt100/grid.rs:621-631 | on the region's last row every row of the region becomes the one below it and the last is blank; elsewhere only the cursor moves, by one row and not past the screen |
| `CommandEffects.ReverseIndexSays` | src/vt100/grid.rs:639-647 | on the first row of the region or screen every row becomes the one above it and the first is blank; elsewhere only the cursor moves |
| `CommandEffects.PanDownSays` | src/vt100/grid.rs:561-577 | row by row: the region moves up by the count, blank rows follow, nothing else changes |
| `CommandEffects.PanUpSays` | src/vt100/grid.rs:579-587 | row by row: the region moves down by the count and its last row is not wrapped any more |
| `CommandEffects.InsertLineSays` | src/vt100/grid.rs:544-551 | row by row, with the cursor in or above the region's end and below it |
| `CommandEffects.DeleteLineSays` | src/vt100/grid.rs:553-559 | row by row, with the cursor in or above the region's end and below it |
| `CommandEffects.VerticalMovesSay` | src/vt100/grid.rs:615-637 | moves up and down by the count, limited by the region from inside and by the screen from outside |
| `CommandEffects.HorizontalMovesSay` | src/vt100/grid.rs:654-676 | moves left, right and to the next tab stop, limited by the first and last column |
| `CommandEffects.AbsoluteMovesSay` | src/vt100/grid.rs:106-114 | the place told or the nearest there is; in origin mode counted from the region's first row and ending at its last |
| `CommandEffects.MarginsSay` | src/vt100/grid.rs:589-600 | a region of at least two rows is set, otherwise the whole screen; the cursor goes to its start |
| `CommandEffects.RestoreUndoes` | src/vt100/screen.rs:672-680 | restoring brings back place, origin mode and style as saved, whatever they are, and nothing else |
| `CommandEffects.RenditionSays` | src/vt100/screen.rs:1229-1356 | a rendition command changes the style as its codes say and nothing else |
| `CommandEffects.ResetSays` | src/vt100/screen.rs:1009-1011 | a reset screen is blank, plain, with no mode set and the whole screen as region |
| `CommandEffects.ModesSay` | src/vt100/screen.rs:1150-1226 | each mode is set and reset by its own command and nothing else changes |
| `CommandEffects.MouseSays` | src/vt100/screen.rs:694-712 | a mouse mode or encoding replaces the one before; only the one in force is reset |
| `ColumnEffects.EraseLineSays` | src/vt100/grid.rs:479-499 | column by column: blank in the current style where erased, a cut wide character blank in its own, all else as before; the wrap survives exactly when the end is untouched |
| `ColumnEffects.EraseCharacterSays` | src/vt100/grid.rs:535-542 | the same for a count of columns from the cursor |
| `ColumnEffects.EraseDisplaySays` | src/vt100/grid.rs:455-477 | row by row and column by column for the three modes |
| `ColumnEffects.DeleteCharacterSays` | src/vt100/grid.rs:525-533 | column by column: what follows moves left, blanks come in at the end, cut characters are blank |
| `ColumnEffects.InsertCharacterSays` | src/vt100/grid.rs:501-523 | column by column: blanks come in at the cursor or after the wide character there, what follows moves right, one cut by the edge is blank |
| `ColumnEffects.ControlSays` | src/vt100/screen.rs:716-725 | control characters draw nothing |
| `ColumnEffects.PrintSays` | src/vt100/screen.rs:831-951 | column by column: the character in the current style, its continuation, and what becomes of wide characters it cuts; the cursor moves past it |
| `ColumnEffects.WrapSays` | src/vt100/screen.rs:737-757 | a character that does not fit is drawn as after a carriage return and a line feed, with the line left marked as wrapped exactly if its end was drawn on |
| `ColumnEffects.MarkSays` | src/vt100/screen.rs:759-829 | a mark joins the character before the cursor, at the start of a continued row the last of the row above, and otherwise nothing |
| `Resizing.ResizedRowIff` | src/vt100/row.rs:73-76 | a resized row keeps wide characters paired exactly when the cut does not go through one |
| `Resizing.ResizedIff` | src/vt100/grid.rs:66-101 | a resized grid is well-formed exactly when no row kept is cut through a wide character and the scroll region does not begin at the new last row |
| `Resizing.ResizedSays` | src/vt100/grid.rs:66-101 | cell by cell: what fits stays, what is new is blank; a cursor that fits stays and one that does not goes to the edge |
| `Resizing.RegionSays` | src/vt100/grid.rs:73-88 | a region that reached the last row still does, another keeps its end if that fits and its start unless it would end before |
| `Resizing.WideIsCut` | src/vt100/row.rs:73-76 | a concrete 2x3 grid with a typed wide character of which resizing leaves one half |
| `Resizing.RegionCollapses` | src/vt100/grid.rs:73-88 | a concrete grid whose scroll region is one row after resizing |
| `Resizing.WrapSourceIff` | src/vt100/grid.rs:678-692 | on a grid of any size, wrapping subtracts below zero exactly when the character is wider than the grid or wraps in a region of the first row alone |
| `Resizing.WrapSourceIsColumnWrap` | src/vt100/screen.rs:740-756 | so it does on one row and never on a well-formed grid, where the row it marks is that of the interpreter |
| `RowBuffers.RowBuffer.Clear` | src/vt100/row.rs:25-30 | the loop blanks every cell and the soft wrap |
| `RowBuffers.RowBuffer.ClearWide` | src/vt100/row.rs:86-96 | the other half of a wide character loses its contents and keeps its attributes |
| `RowBuffers.RowBuffer.Erase` | src/vt100/row.rs:55-62 | one erased column; the soft wrap goes with the last character |
| `RowBuffers.RowBuffer.EraseColumns` | src/vt100/grid.rs:483-499 | the loop over columns computes the closed form in which only the characters cut at the two ends lose a half |
| `RowBuffers.RowBuffer.DeleteCells` | src/vt100/grid.rs:525-533 | removing one cell at a time and padding computes the closed form of deleting a range |
| `RowBuffers.RowBuffer.InsertCells` | src/vt100/grid.rs:501-523 | inserting one cell at a time, moving the continuation mark each time, computes the closed form of opening one gap |
| `RowBuffers.RowBuffer.Draw` | src/vt100/screen.rs:831-951 | the sequence of cell updates computes the row with the character drawn and what it cut forgotten |
| `RowBuffers.EraseOneMore` | src/vt100/row.rs:55-62 | erasing the next column extends the closed form by one column, for every overlap with wide characters |
| `RowBuffers.CloseOneMore` | src/vt100/row.rs:49-53 | removing the next column extends the closed form by one column, for every overlap with wide characters |
| `GridBuffers.GridBuffer.ScrollRowsUp` | src/vt100/grid.rs:561-577 | inserting and removing one row at a time is one shift of the scroll region by the whole count |
| `GridBuffers.GridBuffer.ScrollRowsDown` | src/vt100/grid.rs:579-587 | removing and inserting one row at a time is one shift down with the last row unwrapped |
| `GridBuffers.GridBuffer.InsertRows` | src/vt100/grid.rs:544-551 | the loop is one shift of the rows from the cursor, or of the rows between region and cursor when below it |
| `GridBuffers.GridBuffer.DeleteRows` | src/vt100/grid.rs:553-559 | the loop is one shift up from the cursor, or down between region and cursor when below it |
| `GridBuffers.GridBuffer.ClearWholeRows` | src/vt100/grid.rs:455-477 | the rows of the range are cleared and no others |
| `GridBuffers.GridBuffer.ResizeRows` | src/vt100/grid.rs:78-81 | the loop over rows and the change of their number give each row cut or filled up, and blank new ones |
| `GridBuffers.GridBuffer.SetSize` | src/vt100/grid.rs:66-101 | resizing in place is the resizing function: rows, region, cursor and saved cursor |
| `GridBuffers.GridBuffer.EraseInDisplay` | src/vt100/grid.rs:455-477 | erasing forward, backward or everything around the cursor |
| `GridBuffers.GridBuffer.DownScrolling` | src/vt100/grid.rs:621-631 | moving down one line scrolls exactly at the end of the region and reports it |
| `GridBuffers.GridBuffer.UpScrolling` | src/vt100/grid.rs:639-647 | moving up one line scrolls at the top of the region or of the screen |
| `GridBuffers.GridBuffer.WrapColumn` | src/vt100/grid.rs:678-692 | a character that does not fit moves to the next line and the line it left is marked wrapped only if still directly above |
| `GridBuffers.GridBuffer.DrawText` | src/vt100/screen.rs:716-953 | drawing any scalar in place gives the text function's grid |
| `GridBuffers.GridBuffer.Execute` | src/vt100/perform.rs:34-196 | every grid command in place gives the interpreter's grid |
| `GridBuffers.UpOneMore` | src/vt100/grid.rs:561-577 | one insertion and removal, in either order, extends a shift up by one row |
| `GridBuffers.DownOneMore` | src/vt100/grid.rs:579-587 | one removal and insertion, in either order, extends a shift down by one row |
| `TerminalMachine.Terminal.Render` | src/vt100/screen.rs:1229-1356 | the parameter loop, with its early returns, computes the recursive SGR interpreter |
| `TerminalMachine.Terminal.Execute` | src/vt100/screen.rs:957-1362 | every command updates the terminal in place as the interpreter says |
| `TerminalMachine.Terminal.Interpret` | src/vt100/perform.rs:34-196 | interpreting a whole command sequence in place gives the run of the model and a well-formed screen |
| `TerminalMachine.WriteColumns` | src/vt100/row.rs:284-432 | the loop over the columns with its pending erase writes the commands of the column painter |
| `TerminalMachine.WriteRow` | src/vt100/row.rs:284-432 | a row with its redrawing for soft wraps writes the commands of the row painter |
| `TerminalMachine.WriteRows` | src/vt100/grid.rs:254-293 | the loop over two screens' rows writes the commands of the screen painter |
| `TerminalMachine.WriteAllRows` | src/vt100/grid.rs:217-252 | the loop of the full repaint writes the commands of the formatter |
| `Painting.MoveEffect` | src/vt100/term.rs:408-431 | the commands between two positions leave a terminal exactly at the second, for carriage return, forward and absolute moves alike |
| `Painting.DrawEffect` | src/vt100/row.rs:380-406 | printing a cell's scalars rebuilds exactly that cell, marks included, and moves the cursor past it |
| `RowPainting.DrawFlag` | src/vt100/screen.rs:831-951 | drawing the next cell keeps the soft-wrap flag exactly as predicted from the two rows alone |
| `RowPainting.RestTracks` | src/vt100/row.rs:331-432 | from any column on, with a pending erase or a wide character half done, the row comes out as wanted with exactly the predicted flag, and the tracked position and attributes are the terminal's real ones |
| `RowPainting.PaintColumnsTrack` | src/vt100/row.rs:280-432 | the same for a whole row not continued from above |
| `CarriedPainting.CarryInk` | src/vt100/grid.rs:678-692 | a cell of either width that does not fit on a drawn row appears at the start of the next one and marks the row above wrapped |
| `CarriedPainting.BlankFrom` | src/vt100/row.rs:343-406 | the loop from a changed blank: one erase for its whole run, then on |
| `WrappedRows.PlainLoop` | src/vt100/row.rs:331-432 | unless a first cell or an erase is carried over the wrapping flag changes nothing written |
| `WrappedRows.ErasedColumns` | src/vt100/row.rs:349-364 | an erase reached from past the end of the row above overwrites exactly the columns before it with spaces |
| `WrappedRows.ColumnsOn` | src/vt100/row.rs:331-432 | the columns of any row next to wrapped rows: its exact cells, its flag and the flag of the row above |
| `RowWraps.RedrawFirstOn` | src/vt100/row.rs:298-328 | redrawing an unchanged first cell only makes the row above wrapped |
| `RowWraps.StartWrapOn` | src/vt100/row.rs:434-472 | a row that starts being wrapped leaves the cursor past its end and nothing else changed |
| `RowWraps.StopWrapOn` | src/vt100/row.rs:434-472 | a row that stops being wrapped loses its flag and keeps its last character |
| `RowWraps.RowOn` | src/vt100/row.rs:280-473 | one row with all its special cases: its exact cells and flag, and the flag of the row above |
| `WrapFlags.ReachableFlagsFit` | src/vt100/grid.rs:544-692 | over every run of commands a wrapped row ends in a drawn character and the last row is never wrapped |
| `WrappedScreens.RowsOn` | src/vt100/grid.rs:254-293 | all rows of two screens: exactly what the terminal then shows |
| `WrappedScreens.PlaceWrapped` | src/vt100/grid.rs:295-453 | placing the cursor looks only at the ends of rows and changes nothing else |
| `WrappedScreens.PaintedIsTargetIff` | src/vt100/grid.rs:254-293 | the rows shown are the target's exactly when no carried erase overwrites anything but such spaces and no cut wide character makes a row forget its wrap |
| `WrappedScreens.ContentsRepaintedIff` | src/vt100/screen.rs:318-333 | for any two screens the contents diff always sets cursor, attributes and display modes, leaves input modes alone, and shows the target exactly when it is harmless in that sense |
| `WrappedScreens.UnwrappedIsHarmless` | src/vt100/screen.rs:318-333 | a diff to a screen without soft wraps is always harmless |
| `WrappedScreens.EveryPairRepaintedIff` | src/vt100/screen.rs:318-333 | the same exact condition for any two screens that command sequences lead to |
| `SoftWraps.WrappedScreenMisdrawn` | src/vt100/row.rs:408-417 | a concrete 2x2 screen on which the diff overwrites an unchanged character |
| `SoftWraps.WrapForgotten` | src/vt100/row.rs:55-62 | a concrete 2x2 screen on which the diff loses a soft wrap |
| `SoftWraps.BeforeIsReached` | src/vt100/screen.rs:716-953 | typing and moving the cursor leads to the first screen of the first example |
| `SoftWraps.AfterIsReached` | src/vt100/screen.rs:716-953 | typing leads to its second screen |
| `SoftWraps.WideBeforeIsReached` | src/vt100/screen.rs:716-953 | typing and moving the cursor leads to the first screen of the second example |
| `SoftWraps.WideAfterIsReached` | src/vt100/screen.rs:716-953 | typing and moving the cursor leads to its second screen |
| `SafeDiffs.RowPen` | src/vt100/row.rs:280-473 | painting a row leaves the tracked position past its end, in the style of its last character, when that is redrawn; where it was when the row is untouched; and inside the row otherwise |
| `SafeDiffs.SafeFromIff` | src/vt100/grid.rs:254-293 | following the painter and looking at the two screens alone give the same condition |
| `SafeDiffs.DiffIsRightIff` | src/vt100/screen.rs:318-333 | the diff shows the target exactly when each row is safe, a condition on the cells, flags and cursor of the two screens only |
| `SafeDiffs.UnwrappedIsSafe` | src/vt100/screen.rs:318-333 | a diff to a screen without soft wraps is always safe |
| `FullRepaints.FormatRowOn` | src/vt100/row.rs:137-279 | one row of a full repaint, whether or not it continues a wrapped row above, comes out as wanted and marks the row above |
| `FullRepaints.FormatRowEnds` | src/vt100/row.rs:137-279 | a row ending in a drawn character leaves the tracked position past its end, so the next row can wrap |
| `FullRepaints.FormatRowsOn` | src/vt100/grid.rs:217-252 | all rows of a full repaint: every cell and every soft wrap |
| `FullRepaints.FullContentsRepainted` | src/vt100/screen.rs:255-260 | a full repaint shows the target's contents from any terminal, wide characters and soft wraps included; input modes are untouched |
| `FullRepaints.FullRepainted` | src/vt100/screen.rs:224-229 | the same with input modes; mouse tracking and encoding are right exactly when the target sets them or the terminal had not |
| `FullRepaints.EveryScreenRepainted` | src/vt100/screen.rs:224-229 | a full repaint is right for every screen that commands lead to |
| `FrameRuns.StateRepaintedIff` | src/vt100/screen.rs:236-241 | the whole diff of any two screens is right exactly when safe; the input modes always are |
| `FrameRuns.UnwrappedRepainted` | src/vt100/screen.rs:236-241 | the whole diff to a screen without soft wraps is always right |
| `FrameRuns.UnchangedIsSilent` | src/vt100/screen.rs:236-241 | nothing is written where nothing changed: the diff of a screen to itself is empty |
| `FrameRuns.EveryFrameShown` | src/session/driver.rs:921-937 | over every run of outputs, full repaints and safe diffs in any order and at changing sizes, the terminal shows the last painted screen, and its mouse state if every full repaint could make that right |
| `FrameRuns.EveryFrameShownIff` | src/terminal/paint.rs:14-31 | over every run of outputs, each screen is shown after its output exactly when every diff between full repaints is safe; its mouse state too exactly when besides no full repaint had to reset one |
| `FrameRuns.MouseStaysOn` | src/vt100/screen.rs:224-229 | a concrete terminal that tracks the mouse keeps doing so after a full repaint of a screen that does not |
| `ScreenPainting.PlaceCursorEffect` | src/vt100/grid.rs:295-453 | the cursor ends where the target's is, also past the end of a drawn, a blank or an undrawn last column, and nothing else changes |
| `Frames.InputModesRepainted` | src/vt100/screen.rs:423-455 | the input-mode diff changes exactly the input modes to the target's |
| `PackedCells.PackedCell.AppendChar` | src/vt100/cell.rs:67-72 | the scalar's UTF-8 bytes follow the others, inside the buffer, and the length never runs into the flags |
| `PackedCells.PackedCell.Set` | src/vt100/cell.rs:43-51 | this packed cell stands for the drawn cell |
| `PackedCells.PackedCell.Append` | src/vt100/cell.rs:53-65 | this packed cell stands for the cell with the mark appended, or dropped when it might not fit |
| `PackedCells.PackedCell.Clear` | src/vt100/cell.rs:74-77 | this packed cell stands for a blank |
| `PackedCells.PackedCell.SetContinuation` | src/vt100/cell.rs:119-125 | only the continuation flag changes |
| `PackedCells.PackedCell.Equals` | src/vt100/cell.rs:17-28 | compares the length byte, the attributes and the used bytes |
| `PackedCells.PackedEquality` | src/vt100/cell.rs:17-28 | comparing packed cells is comparing the cells they stand for, since UTF-8 reads back in one way only |
| `Retention.ScanPicksNewestOrKnown` | src/synchronization.rs:202-211 | the loop over sent states picks the newest one if it has not timed out and otherwise what the receiver is known to have |
| `Retention.RetrySucceeds` | src/session/driver.rs:427-441 | after `NoNewState` one more local state always makes a plan |
| `Retention.CommitSendKeeps` | src/synchronization.rs:226-264 | at most 32 sent states, strictly increasing above the known state, send times non-decreasing; an evicted one lies strictly between known and latest |
| `Retention.CommitSendStamps` | src/synchronization.rs:226-264 | after a commit the state sent is the newest remembered, under the time of its plan; the others keep their times, and only the oldest of 32 may go |
| `Retention.PlanSays` | src/synchronization.rs:191-224 | planning from the fields alone: each error, and base, target, acknowledgement, throwaway and time of the plan |
| `Retention.AfterSending` | src/synchronization.rs:191-264 | right after a send there is nothing to send until it times out, then the same state from the one known; a newer state goes from the one just sent |
| `Retention.ObserveKeeps` | src/synchronization.rs:400-431 | an acknowledgement advances exactly when it is newer and was sent, and exactly the newer sent states remain |
| `Retention.CommitReceiveKeeps` | src/synchronization.rs:324-367 | received states stay strictly sorted, at most 32, at or above the floor, with the latest as maximum; an eviction is older than what it admits and never the latest; the retained set is described exactly |
| `SyncRuns.RunKeeps` | src/synchronization.rs:133-432 | over every run, with plans committed late or never, the queues stay ordered and bounded and every plan of a current generation is one the state would make now |
| `SyncRuns.ReachableIsRetained` | src/synchronization.rs:133-147 | the same from the initial state |
| `SyncRuns.MatchingPlanSeesUnchangedSender` | src/synchronization.rs:177-264 | a plan whose generation still matches sees the sender half it was made from, and commits exactly when generation and acknowledgement are current |
| `SyncRuns.CommitAtMostOnce` | src/synchronization.rs:226-264 | a committed plan is stale for ever after |
| `TwoPeers.PlanAboveFloor` | src/synchronization.rs:191-224 | an instruction planned now is never below the peer's throwaway floor |
| `TwoPeers.NeverRejected` | src/synchronization.rs:369-386 | an instruction of the peer always validates; only an exhausted generation can stop it |
| `TwoPeers.EveryRunIsSafe` | src/synchronization.rs:266-298 | the two-peer invariant holds over every run with loss, duplication and reordering |
| `TwoPeers.PeersStayAligned` | src/synchronization.rs:369-431 | in every reachable world and both directions: peer floor <= my known state <= peer's remote latest <= my local latest, and all instructions in flight validate |
| `GivenUp.GivesUpIff` | src/synchronization.rs:324-367 | a commit gives up a state exactly when, with the floor raised, the queue is full and it is the oldest in it apart from the floor; a state at or above the floor goes only that way |
| `GivenUp.LosesKnownIff` | src/synchronization.rs:339-354 | in every safe world a commit loses the state the sender knows its peer has exactly under that condition |
| `GivenUp.KnownIsHeldIff` | src/synchronization.rs:324-398 | over every run from the start the peer has the state the sender knows it has exactly when it has not given it up since taking it in |
| `Stalls.PlanIsGroundless` | src/synchronization.rs:191-224 | in a stuck world no new instruction can be applied by the peer |
| `Stalls.StuckForEver` | src/synchronization.rs:226-298 | whatever happens in a stuck world, it stays stuck, with the same state known to the sender and the same states at its peer |
| `Stalls.CanLearnIff` | src/synchronization.rs:191-431 | a sender can bring its peer something new whenever the peer has the state known or the one sent last, or its latest is remembered or is the newest there is; and when nothing is on its way any more, only then |
| `StallRun.StuckIsReached` | src/synchronization.rs:226-398 | a run from the start that ends in a stuck world: 32 states arrive, the first is acknowledged and then given up, 32 more are lost |
| `StallRun.LostForGood` | src/synchronization.rs:226-398 | after that run, whatever follows, the peer never gets past state 32 |
| `SynchronizationMachine.SynchronizationState.SentAt` | src/synchronization.rs:165-170 | finds the send time of a state, or there is none |
| `SynchronizationMachine.SynchronizationState.AdvanceLocal` | src/synchronization.rs:177-189 | numbers a new local state; errors change nothing |
| `SynchronizationMachine.SynchronizationState.PlanSend` | src/synchronization.rs:191-224 | the reverse loop computes the plan of the model |
| `SynchronizationMachine.SynchronizationState.CommitSend` | src/synchronization.rs:226-264 | records a send in place, restamping or evicting; errors change nothing |
| `SynchronizationMachine.SynchronizationState.ObserveAcknowledgement` | src/synchronization.rs:400-431 | filters the sent states in place; errors change nothing |
| `SynchronizationMachine.SynchronizationState.BeginReceive` | src/synchronization.rs:266-298 | validates, observes and classifies; errors change nothing |
| `SynchronizationMachine.SynchronizationState.BeginShutdownReceive` | src/synchronization.rs:300-318 | accepts only a shutdown based on a retained state; errors change nothing |
| `SynchronizationMachine.SynchronizationState.CommitReceive` | src/synchronization.rs:324-367 | raises the floor, evicts and inserts in place; errors change nothing |
| `ClientOperations.EncodeClientDifference` | src/instruction.rs:137-185 | the validating loop reports the first error of the operations or the total-length limit |
| `ClientOperations.SubrangeEncodes` | src/instruction.rs:137-185 | a log that passes all limits as a whole passes them in every sub-range |
| `ClientOperations.EncodeIff` | src/instruction.rs:137-185 | a difference is encoded, unchanged, exactly within 4,096 operations, the limits of each and 2 MiB; otherwise which error comes first |
| `ClientOperations.LengthsSay` | src/instruction.rs:177-184 | the encoded length of a change of size, an empty input and a key |
| `Instructions.SendableIff` | src/instruction.rs:112-121 | an instruction is encoded exactly when difference, header and framing fit into 2 MiB and its compressed form into 1 MiB; exactly which limit refuses it otherwise |
| `Instructions.SurelySendableIff` | src/instruction.rs:112-121 | with a compressor that may add a given number of bytes, an instruction surely passes exactly when length and addition fit into 1 MiB |
| `Instructions.AcceptedLogMayNotFit` | src/session/client_history.rs:28-43 | a concrete log of exactly 2 MiB is accepted although the encoder refuses every instruction with it |
| `Instructions.SomeLogStaysTooLarge` | src/instruction.rs:112-121 | whatever the lossless compressor, some accepted log of 24 full inputs is short enough but refused by the limit on its compressed form alone |
| `ClientHistories.DifferenceIsHistory` | src/session/client_history.rs:49-71 | a difference is exactly the operations between two checkpoints and never fails |
| `ClientHistories.AcknowledgeTracks` | src/session/client_history.rs:73-86 | acknowledging keeps the log the tail of the whole history, starting at the acknowledged state |
| `ClientHistories.ClientHistory.AppendOperation` | src/session/client_history.rs:28-43 | appends or, on any limit, leaves the log as it was |
| `ClientHistories.ClientHistory.AddCheckpoint` | src/session/client_history.rs:45-47 | marks the current end |
| `ClientHistories.ClientHistory.DifferenceBetween` | src/session/client_history.rs:49-71 | the operations between two checkpoints or the error |
| `ClientHistories.ClientHistory.AcknowledgeState` | src/session/client_history.rs:73-86 | drops acknowledged operations and older checkpoints |
| `ClientHistories.ClientHistory.DropCheckpoint` | src/session/client_history.rs:88-90 | forgets one checkpoint |
| `Delivery.PlannedDifference` | src/session/driver.rs:442-445 | the difference of every plan is there and is the history between its states |
| `Delivery.SendIsSound` | src/session/driver.rs:422-465 | a send, complete, deferred, cancelled or broken, keeps checkpoints for every state a later plan may use and emits only true differences |
| `Delivery.NormalIsSound` | src/session/driver.rs:649-698 | an incoming instruction keeps snapshots and received states in step and ends the session with no internal error |
| `Delivery.EveryRunIsSound` | src/session/driver.rs:261-358 | every reachable session is sound: each instruction it ever sent, also in the turn that ended it, carries the whole history between its two states |
| `Delivery.NeverMissesAState` | src/session/driver.rs:649-727 | missing client or terminal states, stale plans and draining past the log are unreachable; snapshots are exactly those of the received states |
| `Delivery.ExactlyOnce` | src/session/driver.rs:410-465 | for any run and any loss, repetition or reordering, every state a peer builds from the client's instructions, the last ones of a failing turn included, is an exact prefix of its operations, and what the peer is known to have plus the retained log is the whole history |
| `Delivery.HistoryIsCommands` | src/session/driver.rs:365-420 | the history is the accepted commands, in order |
| `Convergence.RemoteConvergence` | src/session/driver.rs:649-727 | if the server's instructions are true of its states, every retained snapshot is the server's state of that number under any delivery order, the latest one is shown, and the reserved number never enters either set |
| `Turns.CommandSays` | src/session/driver.rs:365-420 | a command is taken exactly when log and numbers allow it, and makes one new state; nothing received changes |
| `Turns.SendSays` | src/session/driver.rs:422-465 | exactly when an instruction goes out; its version, base, target, acknowledgement and throwaway from the driver's fields; exactly when the turn succeeds and what is remembered for each outcome |
| `Turns.AcknowledgementSays` | src/session/driver.rs:729-758 | the same for the shutdown acknowledgement, with a new state and the reserved number |
| `Turns.RequestSays` | src/session/driver.rs:858-875 | the shutdown request goes from the state known to the reserved one with all that is unacknowledged, and changes nothing |
| `Turns.ClassifySays` | src/synchronization.rs:273-293 | what is done about an instruction, from the queue of received states alone; it is applied exactly if its base is there, its target not, and there is room or something older |
| `Turns.BeginSays` | src/synchronization.rs:266-298 | an instruction begins to be received exactly when acceptable; only the sending half learns from it |
| `Turns.LearningSays` | src/synchronization.rs:400-431 | what is known after an acknowledgement and what is reported, from the sent states |
| `Turns.NormalSays` | src/session/driver.rs:649-701 | exactly when an instruction is handled; one that can be taken adds its target with the difference applied, raises latest and floor and drops exactly what it should; any other leaves received states and snapshots alone |
| `Turns.ShutdownSays` | src/session/driver.rs:707-727 | exactly when the server's shutdown is handled; the final snapshot is its difference applied to a received state |
| `Turns.DeliveredIsShown` | src/session/driver.rs:649-727 | an instruction that can be taken when it arrives: whatever came before and comes after, output starts from a state of the server at least as new |
| `Turns.FollowsServer` | src/session/driver.rs:649-727 | if every instruction from each state to the next arrives, the client ends with the server's state of that number |
| `Displays.IncomingLatest` | src/session/driver.rs:649-700 | an instruction changes the latest state only to its own target and only by being applied |
| `Displays.TerminalShowsTruth` | src/session/driver.rs:921-946 | over every run of a client the display is the server's latest state received, or the pending bytes drawn on one received; unless output is asked for it is what was painted last; and if the diffs are safe the terminal shows it |
| `Displays.KeyIsPending` | src/session/driver.rs:365-408 | a key typed becomes the newest pending entry under the client state it made and its time; any other command ends the prediction |
| `Displays.NewStateAsks` | src/session/driver.rs:676-726 | a newer state that can be taken, and the final one, ask for output |
| `Displays.OutputSays` | src/session/driver.rs:921-937 | output asked for paints what is displayed, in full after a repaint command, and then nothing is asked for |
| `Displays.PendingInOrder` | src/session/driver.rs:365-400 | over every run pending entries are in order of their client states |
| `SessionDrivers.SessionDriver.Connect` | src/session/driver.rs:186-259 | the first state is the size; a size out of range is the error |
| `SessionDrivers.SessionDriver.AdvanceClient` | src/session/driver.rs:410-420 | append, number and checkpoint in place |
| `SessionDrivers.SessionDriver.HandleCommand` | src/session/driver.rs:365-400 | input and resizing; empty input is ignored |
| `SessionDrivers.SessionDriver.SendPlanned` | src/session/driver.rs:442-465 | difference, transport and commit with its eviction |
| `SessionDrivers.SessionDriver.SendInstruction` | src/session/driver.rs:422-465 | planning with one retry, then sending |
| `SessionDrivers.SessionDriver.SendShutdownRequest` | src/session/driver.rs:858-875 | everything unacknowledged under the reserved target |
| `SessionDrivers.SessionDriver.SendShutdownAcknowledgement` | src/session/driver.rs:729-754 | a new state carrying the reserved acknowledgement |
| `SessionDrivers.SessionDriver.DiscardTerminalStates` | src/session/driver.rs:914-919 | snapshots go exactly as the received states did |
| `SessionDrivers.SessionDriver.ApplyRemote` | src/session/driver.rs:669-695 | a snapshot is built, committed and older ones discarded in place |
| `SessionDrivers.SessionDriver.HandleNormalInstruction` | src/session/driver.rs:649-698 | receive, acknowledge and apply in place |
| `SessionDrivers.SessionDriver.HandleRemoteShutdown` | src/session/driver.rs:707-727 | the final snapshot from a retained base |
| `Fragments.EncodeInto` | src/fragment.rs:295-322 | writes header and body into the buffer, leaving the rest and, on an error, everything alone |
| `Fragments.DecodeInvertsEncode` | src/fragment.rs:295-347 | decoding inverts encoding exactly when the reply is not the reserved value 65,535 |
| `Fragments.EncodeInvertsDecode` | src/fragment.rs:324-347 | every plaintext that decodes is the encoding of what it decodes to |
| `Fragments.LayoutSays` | src/fragment.rs:295-322 | byte by byte: timestamp, reply or the mark, identifier, number with the end in the top bit, body |
| `Fragments.RefusalsSay` | src/fragment.rs:295-347 | exactly what encoding and decoding refuse, and for what |
| `Fragments.Split` | src/session/driver.rs:475-493 | the sending loop yields one fragment per 1,400-byte chunk, only the last marked final |
| `Fragments.ChunksCover` | src/session/driver.rs:475-493 | the chunks make up the payload; up to 1 MiB there are at most 749 |
| `Reassembly.FragmentReassembler.PushFragment` | src/fragment.rs:154-231 | the slot, map and clock updated in place give the model's outcome and state |
| `Reassembly.FragmentReassembler.Assemble` | src/fragment.rs:125-131 | the loop joins the bodies in number order |
| `Reassembly.CompleteIff` | src/fragment.rs:117-123 | the slot is complete exactly when all pieces are there, and then assembles to the payload |
| `Conflicts.ConflictIff` | src/fragment.rs:154-231 | fragments conflict exactly when no message has them all; a duplicate is one that is the same |
| `Conflicts.PushStaysSane` | src/fragment.rs:154-231 | the slot always holds fragments of one message |
| `Conflicts.PushSays` | src/fragment.rs:154-231 | pushing from the slot alone: which error comes first, which one empties the slot, and what is stored otherwise |
| `Reassembly.DeliveryStep` | src/fragment.rs:154-231 | one delivery reports duplicate, pending, complete or another message as it should, and keeps the slot exact |
| `Reassembly.AnyOrderReassembles` | src/fragment.rs:154-231 | any order, repetitions and single-fragment messages in between, within the lifetime, never give an error |
| `Reassembly.FragmentRoundTrip` | src/fragment.rs:154-231 | the payload comes out exactly at the arrival that completes the set of pieces |
| `Reassembly.SentPiecesCarry` | src/session/driver.rs:475-493 | what the sender writes decodes to the pieces of the message |
| `RoundTripTime.RttAccuracy` | src/timing.rs:59-111 | for every sequence of samples up to 60,000 ms the estimator never fails, its smoothed time is at most 7/8 ms below and never above the exact one of section 2 of RFC 6298, its timeout is within 6 ms of the exact clamped one and in 50..5,000 |
| `RoundTripTime.TimeoutSays` | src/timing.rs:96-112 | the timeout is the least whole number of milliseconds covering smoothed time and four variations, within 50 to 5,000 |
| `RoundTripTime.ObserveSays` | src/timing.rs:59-94 | a sample moves the smoothed time by an eighth and the variation by a quarter, rounded down to eighths; what is refused |
| `RoundTripTime.RttEstimator.ObserveSample` | src/timing.rs:59-94 | the checked integer update in place |
| `Timestamps.OutgoingDecodes` | src/timing.rs:155-172 | an outgoing reply is never the no-reply mark, so every fragment header built from outgoing times decodes to itself |
| `Timestamps.EchoIsExact` | src/timing.rs:155-213 | an echoed timestamp yields elapsed time less holding time exactly when that is at most 60,000 ms, for any clocks and wraps; when nothing is echoed is stated exactly |
| `Timestamps.ReceivedSays` | src/timing.rs:174-200 | only a datagram newer than all before counts; what it leaves for the echo and which sample it gives |
| `Timestamps.OutgoingSays` | src/timing.rs:155-172 | the time, and the last timestamp moved on by the time it was held if that was at most 1,000 ms |
| `Timestamps.DatagramTiming.Stamp` | src/timing.rs:155-172 | the outgoing timestamps in place |
| `Timestamps.DatagramTiming.ObserveReceived` | src/timing.rs:174-200 | reordered packets are ignored, samples taken with wrapping subtraction |
| `Scheduler.PollIsExact` | src/timing.rs:299-363 | Send is answered exactly from the later of the earliest deadline and the deferral, with exactly the reasons that are due; a wake is later than now and not after that instant |
| `Scheduler.PollSays` | src/timing.rs:299-363 | from the notes alone: when each of the four reasons holds, and that a poll sends exactly with a reason and no deferral, giving exactly the reasons there are |
| `Scheduler.FirstNoteCounts` | src/timing.rs:279-297 | of several changes the first counts until a send, and so for acknowledgements |
| `Scheduler.AfterSend` | src/timing.rs:365-376 | right after a send there is no reason for the next but a timed-out state or 3,000 ms; the plan is stale |
| `Scheduler.NothingWhileDeferred` | src/timing.rs:378-383 | exactly when a deferral is taken, and nothing is sent before its end |
| `Scheduler.NothingBeforeWake` | src/timing.rs:299-363 | before a pending wake the answer does not change |
| `Scheduler.TwoWakesReachSend` | src/timing.rs:299-363 | at most two wakes reach the Send, exactly at its time |
| `Scheduler.SendScheduler.PollNow` | src/timing.rs:299-363 | collecting reasons in place gives the model's answer |
| `Scheduler.SendScheduler.LocalChange` | src/timing.rs:279-287 | the first change is noted under a new generation, later ones keep its time; time must not go back |
| `Scheduler.SendScheduler.AcknowledgementNeeded` | src/timing.rs:289-297 | the same for an acknowledgement that is due |
| `Scheduler.SendScheduler.Commit` | src/timing.rs:365-376 | a current plan clears both notes and the deferral; a stale one changes nothing |
| `Scheduler.SendScheduler.Defer` | src/timing.rs:378-383 | sending is held back until the deferral ends |
| `Reachability.StatusSays` | src/session/reachability.rs:125-146 | which status holds at which distance from contact and reply |
| `Reachability.DeadlinesSay` | src/session/reachability.rs:105-123 | the next deadline of each status |
| `Reachability.ReachabilityTracker.Refresh` | src/session/reachability.rs:89-99 | reports a status exactly when it changed |
| `Reachability.ReachabilityTracker.NoteContact` | src/session/reachability.rs:81-83 | only the latest contact changes |
| `Reachability.ReachabilityTracker.NoteReply` | src/session/reachability.rs:85-87 | replies never go back in time |
| `Wake.TopOfLoopSettles` | src/session/driver.rs:264-289 | the top of the loop settles reachability, reassembly, prediction and scheduler for its own instant |
| `Wake.PredictionIsExact` | src/prediction.rs:149-219 | the prediction is expired or newly displayed at its deadline and not before; until then the policy notes at most a glitch of a displayed one, exactly when stated |
| `Wake.ReachabilityIsExact` | src/session/reachability.rs:101-153 | the status changes or the attachment times out at its deadline and not before |
| `Wake.WakeIsTheFirstChange` | src/session/driver.rs:284-311 | the wake time is later than now and is exactly the first instant at which something the loop acts on in scheduler, prediction, reachability or receiving changes |
| `Wake.SilentChanges` | src/session/driver.rs:264-311 | exactly what a turn of the loop before the wake would change: two clocks, an incomplete instruction whose time is over, a glitch of a displayed prediction on a slow link |
| `Wake.GlitchNotedSilently` | src/prediction.rs:193-219 | a concrete settled loop that wakes at 3,000 though its prediction changes at 250 |
| `Wake.SlotDroppedSilently` | src/fragment.rs:233-277 | a concrete settled loop, holding the one fragment pushed at 0, that wakes at 12,000 though the incomplete instruction goes at 10,000 |
| `Wake.ObservedTwice` | src/fragment.rs:233-277 | expiring at one time and again later is expiring later, also for the next fragment |
| `Wake.SleepingLosesNothing` | src/session/driver.rs:261-358 | had the loop turned at any instant before the wake, that turn would do nothing and every later run of turns, fragments, input, outputs, notes and measurements would show exactly the same |
| `Replay.AcceptRefinesSet` | src/packet.rs:184-212 | the 64-bit mask answers as a plain set of accepted sequences would, and the two stay in step |
| `Replay.NextVerdict` | src/packet.rs:152-162 | after any run, forged packets included, a packet is accepted exactly when never accepted before and less than 64 below the highest accepted |
| `Replay.NeverTwice` | src/packet.rs:184-212 | no sequence is accepted twice |
| `Replay.ReplayWindow.AcceptSequence` | src/packet.rs:184-212 | the mask updated in place |
| `Replay.SequencesAreFresh` | src/packet.rs:215-227 | sequences are used once each, in order, until exhausted |
| `Bits.ShiftMovesDigits` | src/packet.rs:191-200 | a left shift of the mask moves every bit and fills with zeros |
| `Packets.NonceOf` | src/packet.rs:229-237 | the loop puts the header after four zero bytes |
| `Packets.SealedOpens` | src/packet.rs:53-119 | a sealed datagram opens to its sequence and plaintext in its own direction and is turned away in the other |
| `Packets.SealIff` | src/packet.rs:53-84 | exactly what is sealed, and which refusal comes first |
| `Packets.NoncesDiffer` | src/packet.rs:72-79 | packets share a nonce exactly when direction and sequence agree |
| `Packets.DeliveredOnce` | src/packet.rs:152-162 | a sealed packet delivers its plaintext exactly if the window allows it, and no later copy does, whatever arrives in between |
| `Prediction.LongestMatchIsLongest` | src/prediction.rs:245-264 | the search finds m exactly when m is the longest prefix that looks like the authoritative terminal |
| `Prediction.AuthorityKeepsSound` | src/prediction.rs:98-139 | after an authoritative update the projection is still the fold of the pending bytes; survivors had a longest match covering every acknowledged entry; confidence is gained only from a matched, acknowledged entry |
| `Prediction.InputKeepsSound` | src/prediction.rs:59-96 | typing extends the fold by one byte or clears everything |
| `Typing.InputSays` | src/prediction.rs:59-96 | a single printable byte is drawn on what is predicted so far and pending as the newest entry with its client state, time and byte; any other input, or one more than 32, forgets |
| `Typing.AuthoritySays` | src/prediction.rs:98-139 | with no match, or an echoed entry unmatched, all is forgotten; without an echo nothing changes; otherwise exactly the longest match goes and the rest is drawn again |
| `Typing.ExpirySays` | src/prediction.rs:171-191 | pending predictions go at 10,000 ms after the oldest was typed and not before |
| `Typing.PolicySays` | src/prediction.rs:193-219 | when the link counts as slow and as fast again, and when a pending entry is a glitch |
| `Typing.DisplayedIff` | src/prediction.rs:141-147 | exactly when a prediction is displayed, and what |
| `Typing.PendingIsTyped` | src/prediction.rs:59-139 | over every run what is pending is the last keys typed, in order, with client state, time and byte |
| `Typing.UnconfirmedIsHidden` | src/prediction.rs:221-229 | nothing is displayed before the server confirmed a prediction |
| `Prediction.PolicyNeverRetracts` | src/prediction.rs:193-219 | a policy update never takes a displayed projection away and reports exactly a new display |
| `Displays.QuietLooksTheSame` | src/prediction.rs:59-219 | an event that does not ask for output leaves the display on every snapshot as it was |
| `Prediction.DisplayIsFold` | src/prediction.rs:141-147 | over every run what is displayed is the authoritative terminal or the pending bytes drawn on their base |
| `Prediction.SilentGlitchIff` | src/prediction.rs:193-219 | before its deadline a settled prediction changes exactly by a glitch noted while it is displayed on a slow link |
| `Prediction.StepKeepsAlike` | src/prediction.rs:59-250 | two predictions that differ only in such a glitch fail together, report the same and stay so under every event |
| `Prediction.RunKeepsAlike` | src/prediction.rs:59-250 | no run tells two such predictions apart: reports, failures, displays and deadlines agree |
| `Prediction.LocalPrediction.Input` | src/prediction.rs:59-96 | the queue, base and projection updated in place |
| `Prediction.LocalPrediction.LongestMatchingPrefix` | src/prediction.rs:245-264 | the loop computes the longest match |
| `Prediction.LocalPrediction.CountAcknowledged` | src/prediction.rs:110-115 | the leading acknowledged entries |
| `Prediction.LocalPrediction.Replay` | src/prediction.rs:131-134 | the loop folds what is left over the authoritative terminal |
| `Prediction.LocalPrediction.Authoritative` | src/prediction.rs:98-139 | drains, replays or clears in place |
| `Prediction.LocalPrediction.ExpireAt` | src/prediction.rs:182-191 | clears at the expiry deadline |
| `Prediction.LocalPrediction.Policy` | src/prediction.rs:193-219 | the adaptive flags in place |
| `Prediction.LocalPrediction.Clear` | src/prediction.rs:231-239 | drops the epoch and says whether it was displayed |

## Left out

- FrameRuns.EveryFrameShown: the terminal has the size of the screen painted on it; an output for a size the terminal does not have is not covered.
- Displays.TerminalShowsTruth: on values; the driver's output flags and painted state are not updated in place, and an output too large to send does not occur.
- Delivery.ExactlyOnce: state numbers below the reserved largest 64-bit number.
- Screens of one row or one column, and those that resizing leaves ill-formed: only when they fail is proved.
- Scrollback, the alternate screen, titles, clipboard and character width tables.
- The byte form of commands, their parsing, the reset prefix and the size limit of a painted chunk.
- The cipher, the compressor and the bytes of encoded messages; cipher and compressor are parameters that can be undone, and only encoded lengths and header bytes appear.
- Sockets, channels, cancellation, clocks and the polling of futures; each handler is one step and the time is a parameter.
- The four-second deadline of closing a session locally, and the scheduler and reachability calls inside the driver's handlers, which are proved on their own.
- Liveness under loss: that what can still arrive does arrive.
- Bootstrap parsing, error mapping, the public facade and zeroization.
