/** A whole client: synchronization, prediction and painting together, and what the
    terminal in front of the user shows. */
module Displays {
  import opened Wrappers
  import opened Bytes
  import ClientHistories
  import opened ClientOperations
  import opened Synchronization
  import opened Handlers
  import opened Delivery
  import opened Convergence
  import FrameRuns
  import Painting
  import Prediction
  import Retention
  import Screens
  import SyncRuns
  import Turns
  import Typing

  /** How typed bytes are drawn on a snapshot, how a difference is applied to one, and
      the screen it holds. */
  datatype Setting<!S, !D> = Setting(
    echo: Prediction.Terminals<S>, apply: (S, D) -> Option<S>, screen: S -> Screens.Screen)

  /** The driver's fields that decide on output, with every output so far. */
  datatype Client<+S> = Client(
    session: Session<S>,
    prediction: Prediction.Prediction<S>,
    painted: Option<S>,
    requested: bool,
    forced: bool,
    frames: seq<FrameRuns.Frame>)

  datatype Happening<+D> =
    | Handled(event: Event<D>, now: nat)
    | Repaint
    | Expiry(now: nat)
    | Policy(now: nat, frameInterval: Option<nat>)
    | Output(resized: Option<Screens.Screen>)

  /** What handling an event does to the prediction, and whether it asks for output:
      typing is predicted, a newer snapshot compared, and the final one ends it. */
  function Foreseen<S(==), D>(p: Prediction.Prediction<S>, x: Setting<S, D>, before: Driver<S>, after: Driver<S>,
                              event: Event<D>, now: nat)
    : Option<(Prediction.Prediction<S>, bool)>
    requires Prediction.Sound(p, x.echo)
  {
    var latest := after.sync.remoteLatest;
    match event
    case Command(op) =>
      if op == Input([]) then Some((p, false))
      else if latest !in after.terminals then None
      else
        Prediction.ObserveInput(p, x.echo, after.sync.localLatest, if op.Input? then op.bytes else [],
                                after.terminals[latest], now)
    case Incoming(m, _) =>
      if m.target == SHUTDOWN_STATE then Some((Prediction.Cleared(p), true))
      else if !Classify(before.sync, m).Apply? || m.target != latest then Some((p, false))
      else if latest !in after.terminals then None
      else
        (match Prediction.ObserveAuthoritative(p, x.echo, after.terminals[latest])
         case None => None
         case Some(next) => Some((next, true)))
    case _ => Some((p, false))
  }

  /** `emit_output`: what is displayed is painted, in full if that was demanded. */
  function Emitted<S(==), D>(c: Client<S>, x: Setting<S, D>, resized: Option<Screens.Screen>): Option<Client<S>> {
    match LatestTerminal(c.session.driver)
    case Err(_) => None
    case Ok(authoritative) =>
      var current := Prediction.Display(c.prediction, authoritative);
      Some(c.(painted := Some(current), requested := false, forced := false,
              frames := c.frames + [FrameRuns.Frame(x.screen(current), c.forced, resized)]))
  }

  /** One step of the driver; `None` when it ends the session.  Output is written only
      while it is asked for. */
  function Happen<S(==), D>(c: Client<S>, x: Setting<S, D>, h: Happening<D>): Option<Client<S>>
    requires Prediction.Sound(c.prediction, x.echo)
  {
    match h
    case Handled(event, now) =>
      if React(c.session.driver, event, x.apply).next.Err? then None
      else
        var session := Progressed(c.session, event, x.apply);
        (match Foreseen(c.prediction, x, c.session.driver, session.driver, event, now)
         case None => None
         case Some((prediction, asked)) =>
           Some(c.(session := session, prediction := prediction, requested := c.requested || asked)))
    case Repaint => Some(c.(prediction := Prediction.Cleared(c.prediction), requested := true, forced := true))
    case Expiry(now) =>
      var (prediction, asked) := Prediction.Expire(c.prediction, now);
      Some(c.(prediction := prediction, requested := c.requested || asked))
    case Policy(now, frameInterval) =>
      var (prediction, asked) := Prediction.UpdatePolicy(c.prediction, now, frameInterval);
      Some(c.(prediction := prediction, requested := c.requested || asked))
    case Output(resized) => if c.requested then Emitted(c, x, resized) else Some(c)
  }

  lemma ForeseenIsSound<S, D>(p: Prediction.Prediction<S>, x: Setting<S, D>, before: Driver<S>, after: Driver<S>,
                              event: Event<D>, now: nat)
    requires Prediction.Sound(p, x.echo) && Foreseen(p, x, before, after, event, now).Some?
    ensures Prediction.Sound(Foreseen(p, x, before, after, event, now).value.0, x.echo)
  {
    hide Prediction.ObserveInput, Prediction.ObserveAuthoritative, Prediction.Fold, Classify;
    var latest := after.sync.remoteLatest;
    if latest in after.terminals {
      var authoritative := after.terminals[latest];
      if event.Command? && event.op != Input([]) {
        Prediction.InputKeepsSound(p, x.echo, after.sync.localLatest, if event.op.Input? then event.op.bytes else [],
                                   authoritative, now);
      } else if Prediction.ObserveAuthoritative(p, x.echo, authoritative).Some? {
        Prediction.AuthorityKeepsSound(p, x.echo, authoritative);
      }
    }
  }

  lemma HappenKeepsPrediction<S, D>(c: Client<S>, x: Setting<S, D>, h: Happening<D>)
    requires Prediction.Sound(c.prediction, x.echo) && Happen(c, x, h).Some?
    ensures Prediction.Sound(Happen(c, x, h).value.prediction, x.echo)
  {
    hide Foreseen, React, Prediction.Fold;
    match h
    case Handled(event, now) =>
      ForeseenIsSound(c.prediction, x, c.session.driver, Progressed(c.session, event, x.apply).driver, event, now);
    case Policy(now, frameInterval) => Prediction.PolicyNeverRetracts(c.prediction, x.echo, now, frameInterval);
    case _ =>
  }

  /** The client after a run of happenings, or at the one that ended the session. */
  function RunClient<S(==), D>(c: Client<S>, x: Setting<S, D>, hs: seq<Happening<D>>): Client<S>
    requires Prediction.Sound(c.prediction, x.echo)
    decreases |hs|
  {
    if hs == [] || Happen(c, x, hs[0]).None? then c
    else
      HappenKeepsPrediction(c, x, hs[0]);
      RunClient(Happen(c, x, hs[0]).value, x, hs[1..])
  }

  function Launched<S>(d: Driver<S>, columns: nat, rows: nat, mode: Prediction.Mode): Client<S> {
    Client(Opening(d, columns, rows), Prediction.Fresh(mode), None, false, false, [])
  }

  // --------------------------------------------------------------------- invariant

  /** The number of the snapshot that output starts from. */
  function Latest<S>(d: Driver<S>): nat {
    if d.final.Some? then SHUTDOWN_STATE else d.sync.remoteLatest
  }

  function Displayed<S>(c: Client<S>, truth: nat -> S): S {
    Prediction.Display(c.prediction, truth(Latest(c.session.driver)))
  }

  /** Pending bytes were predicted from a state of the server. */
  predicate Based<S(==)>(p: Prediction.Prediction<S>, truth: nat -> S, latest: nat) {
    p.pending != [] ==> exists n :: 0 <= n <= latest && p.base == Some(truth(n))
  }

  /** Unless output is asked for, what was painted last, or the blank terminal before
      that, is what is displayed. */
  predicate UpToDate<S(==), D>(c: Client<S>, x: Setting<S, D>, truth: nat -> S, initial: S) {
    && (c.painted.Some? <==> c.frames != [])
    && (c.painted.Some? ==> c.frames[|c.frames| - 1].screen == x.screen(c.painted.value))
    && (!c.requested ==> Displayed(c, truth) == if c.painted.Some? then c.painted.value else initial)
  }

  ghost predicate Right<S, D>(c: Client<S>, x: Setting<S, D>, truth: nat -> S, initial: S) {
    && Sound(c.session) && Converged(c.session.driver, truth)
    && Prediction.Sound(c.prediction, x.echo)
    && Based(c.prediction, truth, c.session.driver.sync.remoteLatest)
    && UpToDate(c, x, truth, initial)
  }

  // ------------------------------------------------- what changes without being asked

  /** A prediction that does not ask for output looks as before on every snapshot. */
  lemma QuietLooksTheSame<T>(p: Prediction.Prediction<T>, t: Prediction.Terminals<T>, event: Prediction.Event<T>,
                             authoritative: T)
    requires Prediction.Sound(p, t) && Prediction.Step(p, t, event).Some?
    requires !event.Authority? && !event.Reset? && !Prediction.Refreshes(p, t, event)
    ensures Prediction.Display(Prediction.Step(p, t, event).value, authoritative) ==
      Prediction.Display(p, authoritative)
  {
    hide Prediction.Fold, Prediction.Printable, Prediction.SaturatingAdd;
  }

  lemma InputIsBased<T>(p: Prediction.Prediction<T>, t: Prediction.Terminals<T>, clientState: nat,
                        bytes: seq<Byte>, truth: nat -> T, latest: nat, now: nat)
    requires Prediction.Sound(p, t) && Based(p, truth, latest)
    requires Prediction.ObserveInput(p, t, clientState, bytes, truth(latest), now).Some?
    ensures Based(Prediction.ObserveInput(p, t, clientState, bytes, truth(latest), now).value.0, truth, latest)
  {
    hide Prediction.Fold, Prediction.Printable;
  }

  lemma AuthorityIsBased<T>(p: Prediction.Prediction<T>, t: Prediction.Terminals<T>, truth: nat -> T, before: nat,
                            latest: nat)
    requires Prediction.Sound(p, t) && Based(p, truth, before) && before <= latest
    requires Prediction.ObserveAuthoritative(p, t, truth(latest)).Some?
    ensures Based(Prediction.ObserveAuthoritative(p, t, truth(latest)).value, truth, latest)
  {
    hide Prediction.Fold, Prediction.LongestMatch;
  }

  /** An instruction changes the latest state only to its own target, by applying it. */
  lemma IncomingLatest<S, D>(d: Driver<S>, m: Instruction<D>, closing: bool, apply: (S, D) -> Option<S>)
    requires HandleInstruction(d, m, closing, apply).Ok?
    ensures
      var next := HandleInstruction(d, m, closing, apply).value;
      if m.target == SHUTDOWN_STATE then next.sync.remoteLatest == d.sync.remoteLatest
      else
        && next.final == d.final
        && (next.sync.remoteLatest == d.sync.remoteLatest ||
            (Classify(d.sync, m).Apply? && next.sync.remoteLatest == m.target > d.sync.remoteLatest))
  {
    hide ClientHistories.Acknowledge, SentAbove, HasSent, CanRetain, MakeRoom, Inserted, AtLeast, Validate,
      DiscardTerminals;
    if m.target != SHUTDOWN_STATE {
      var ordinary := if closing && m.acknowledged == SHUTDOWN_STATE then m.(acknowledged := d.sync.known) else m;
      SyncRuns.CanRetainReads(d.sync, BeginReceive(d.sync, ordinary).value.0, m.target);
    }
  }

  // -------------------------------------------------------------------- every step

  lemma LatestIsTrue<S, D>(c: Client<S>, x: Setting<S, D>, truth: nat -> S, initial: S)
    requires Right(c, x, truth, initial)
    ensures
      var d := c.session.driver;
      && d.sync.remoteLatest in d.terminals && d.terminals[d.sync.remoteLatest] == truth(d.sync.remoteLatest)
      && LatestTerminal(d) == Ok(truth(Latest(d)))
  {
    hide UpToDate, Based, Covered, Retention.Retained, Prediction.Sound;
    LatestIsKept(c.session.driver, c.session.ledger);
  }

  lemma SessionStaysRight<S, D>(s: Session<S>, event: Event<D>, x: Setting<S, D>, truth: nat -> S)
    requires Sound(s) && Converged(s.driver, truth) && TruthfulEvent(event, truth, x.apply)
    requires React(s.driver, event, x.apply).next.Ok?
    ensures
      var next := Progressed(s, event, x.apply);
      && Sound(next) && Converged(next.driver, truth)
      && next.driver.sync.remoteLatest in next.driver.terminals
      && next.driver.terminals[next.driver.sync.remoteLatest] == truth(next.driver.sync.remoteLatest)
  {
    hide React, Covered, Retention.Retained, Faithful, TruthfulEvent;
    StepIsSound(s, event, x.apply);
    StepConverges(s, event, truth, x.apply);
    var next := Progressed(s, event, x.apply);
    LatestIsKept(next.driver, next.ledger);
  }

  /** Nothing displayed changes without being asked for. */
  lemma ForeseenIsRight<S, D>(p: Prediction.Prediction<S>, x: Setting<S, D>, before: Driver<S>, after: Driver<S>,
                              event: Event<D>, now: nat, truth: nat -> S, a: S)
    requires Prediction.Sound(p, x.echo) && Based(p, truth, before.sync.remoteLatest)
    requires Foreseen(p, x, before, after, event, now).Some?
    requires after.sync.remoteLatest in after.terminals
    requires after.terminals[after.sync.remoteLatest] == truth(after.sync.remoteLatest)
    requires React(before, event, x.apply).next == Ok(after)
    ensures
      var (next, asked) := Foreseen(p, x, before, after, event, now).value;
      && Based(next, truth, after.sync.remoteLatest)
      && (!asked ==> Prediction.Display(next, a) == Prediction.Display(p, a))
      && (!asked ==> Latest(after) == Latest(before))
  {
    hide HandleCommand, HandleInstruction, SendInstruction, SendShutdownRequest, SendShutdownAcknowledgement,
      Prediction.Display, Prediction.ObserveInput, Prediction.ObserveAuthoritative, Classify, Prediction.Sound;
    if event.Incoming? {
      IncomingLatest(before, event.m, event.closing, x.apply);
      ArrivalIsRight(p, x, before, after, event.m, event.closing, now, truth);
    } else {
      Turns.SendingKeepsLatest(before, event, x.apply);
      SendingKeepsTerminals(before, event, x.apply);
      if event.Command? && event.op != Input([]) {
        CommandIsRight(p, x, before, after, event.op, now, truth, a);
      }
    }
  }

  lemma CommandIsRight<S, D>(p: Prediction.Prediction<S>, x: Setting<S, D>, before: Driver<S>, after: Driver<S>,
                             op: Operation, now: nat, truth: nat -> S, a: S)
    requires Prediction.Sound(p, x.echo) && op != Input([])
    requires after.sync.remoteLatest in after.terminals && Based(p, truth, after.sync.remoteLatest)
    requires after.terminals[after.sync.remoteLatest] == truth(after.sync.remoteLatest)
    requires Foreseen(p, x, before, after, Event<D>.Command(op), now).Some?
    ensures
      var (next, asked) := Foreseen(p, x, before, after, Event<D>.Command(op), now).value;
      && Based(next, truth, after.sync.remoteLatest)
      && (!asked ==> Prediction.Display(next, a) == Prediction.Display(p, a))
  {
    hide Prediction.Display, Prediction.ObserveInput, Based, Prediction.Sound;
    var latest, bytes := after.sync.remoteLatest, if op.Input? then op.bytes else [];
    InputIsBased(p, x.echo, after.sync.localLatest, bytes, truth, latest, now);
    var (next, asked) := Foreseen(p, x, before, after, Event<D>.Command(op), now).value;
    if !asked {
      QuietLooksTheSame(p, x.echo, Prediction.Typed(after.sync.localLatest, bytes, truth(latest), now), a);
    }
  }

  lemma ArrivalIsRight<S, D>(p: Prediction.Prediction<S>, x: Setting<S, D>, before: Driver<S>, after: Driver<S>,
                             m: Instruction<D>, closing: bool, now: nat, truth: nat -> S)
    requires Prediction.Sound(p, x.echo) && Based(p, truth, before.sync.remoteLatest)
    requires before.sync.remoteLatest <= after.sync.remoteLatest
    requires after.sync.remoteLatest in after.terminals
    requires after.terminals[after.sync.remoteLatest] == truth(after.sync.remoteLatest)
    requires Foreseen(p, x, before, after, Incoming(m, closing), now).Some?
    ensures
      var (next, asked) := Foreseen(p, x, before, after, Incoming(m, closing), now).value;
      Based(next, truth, after.sync.remoteLatest) && (!asked ==> next == p)
  {
    hide Prediction.ObserveAuthoritative, Prediction.Sound, Classify;
    var latest := after.sync.remoteLatest;
    if Prediction.ObserveAuthoritative(p, x.echo, truth(latest)).Some? {
      AuthorityIsBased(p, x.echo, truth, before.sync.remoteLatest, latest);
    }
  }

  lemma HandledStaysRight<S, D>(c: Client<S>, x: Setting<S, D>, event: Event<D>, now: nat, truth: nat -> S, initial: S)
    requires Right(c, x, truth, initial) && TruthfulEvent(event, truth, x.apply)
    requires Happen(c, x, Handled(event, now)).Some?
    ensures Right(Happen(c, x, Handled(event, now)).value, x, truth, initial)
  {
    hide Sound, Converged, TruthfulEvent, React, Foreseen, Based, Prediction.Sound, Prediction.Display;
    var next := Happen(c, x, Handled(event, now)).value;
    HappenKeepsPrediction(c, x, Handled(event, now));
    SessionStaysRight(c.session, event, x, truth);
    ForeseenIsRight(c.prediction, x, c.session.driver, next.session.driver, event, now, truth,
                    truth(Latest(c.session.driver)));
  }

  lemma TimeStaysRight<S, D>(c: Client<S>, x: Setting<S, D>, h: Happening<D>, truth: nat -> S, initial: S)
    requires Right(c, x, truth, initial) && (h.Expiry? || h.Policy? || h.Repaint?)
    ensures Right(Happen(c, x, h).value, x, truth, initial)
  {
    hide Sound, Converged, Prediction.Display, Prediction.Fold, Prediction.SaturatingAdd, Prediction.Displaying;
    HappenKeepsPrediction(c, x, h);
    var a := truth(Latest(c.session.driver));
    if h.Expiry? && !Prediction.Expire(c.prediction, h.now).1 {
      QuietLooksTheSame(c.prediction, x.echo, Prediction.Tick(h.now), a);
    }
    if h.Policy? && !Prediction.UpdatePolicy(c.prediction, h.now, h.frameInterval).1 {
      QuietLooksTheSame(c.prediction, x.echo, Prediction.Event.Policy(h.now, h.frameInterval), a);
    }
  }

  lemma HappenStaysRight<S, D>(c: Client<S>, x: Setting<S, D>, h: Happening<D>, truth: nat -> S, initial: S)
    requires Right(c, x, truth, initial) && (h.Handled? ==> TruthfulEvent(h.event, truth, x.apply))
    requires Happen(c, x, h).Some?
    ensures Right(Happen(c, x, h).value, x, truth, initial)
  {
    match h
    case Handled(event, now) =>
      hide *;
      HandledStaysRight(c, x, event, now, truth, initial);
    case Output(resized) =>
      hide Sound, Converged, Prediction.Sound, Prediction.Display, Based;
      LatestIsTrue(c, x, truth, initial);
    case _ =>
      hide Right, Happen;
      TimeStaysRight(c, x, h, truth, initial);
  }

  ghost predicate TruthfulRun<S, D>(hs: seq<Happening<D>>, truth: nat -> S, apply: (S, D) -> Option<S>) {
    forall h :: h in hs && h.Handled? ==> TruthfulEvent(h.event, truth, apply)
  }

  lemma {:induction false} RunStaysRight<S, D>(c: Client<S>, x: Setting<S, D>, hs: seq<Happening<D>>, truth: nat -> S,
                                               initial: S)
    requires Right(c, x, truth, initial) && TruthfulRun(hs, truth, x.apply)
    ensures Right(RunClient(c, x, hs), x, truth, initial)
    decreases |hs|
  {
    hide Sound, Converged, Prediction.Sound, Based, UpToDate, Happen, TruthfulEvent;
    if hs != [] && Happen(c, x, hs[0]).Some? {
      HappenStaysRight(c, x, hs[0], truth, initial);
      RunStaysRight(Happen(c, x, hs[0]).value, x, hs[1..], truth, initial);
    }
  }

  lemma LaunchIsRight<S, D>(initial: S, columns: nat, rows: nat, mode: Prediction.Mode, x: Setting<S, D>,
                            truth: nat -> S)
    requires Connect(initial, columns, rows).Ok? && truth(0) == initial
    ensures Right(Launched(Connect(initial, columns, rows).value, columns, rows, mode), x, truth, initial)
  {
    hide Sound, Converged, ClientHistories.Append;
    OpeningIsSound(initial, columns, rows);
    OpeningConverges(initial, columns, rows, truth);
  }

  // ----------------------------------------------------------------- main result

  /** The server's state, or the bytes typed since drawn on an earlier one. */
  predicate TrueDisplay<S(==)>(s: S, p: Prediction.Prediction<S>, echo: Prediction.Terminals<S>, truth: nat -> S,
                               latest: nat, current: nat)
  {
    if Prediction.Displaying(p) then
      exists n :: 0 <= n <= latest && Prediction.Fold(echo, truth(n), p.pending) == Some(s)
    else s == truth(current)
  }

  /** If the server's instructions are true of its states, then whatever arrives, is
      typed or times out, in any order: the display is the server's latest state of
      those received, or the pending bytes drawn on one of them; unless output is
      asked for, it is what was painted last; and when besides the diffs are safe, the
      terminal shows it. */
  lemma TerminalShowsTruth<S, D>(initial: S, columns: nat, rows: nat, mode: Prediction.Mode, x: Setting<S, D>,
                                 hs: seq<Happening<D>>, truth: nat -> S, t: Screens.Screen)
    requires Connect(initial, columns, rows).Ok? && truth(0) == initial && TruthfulRun(hs, truth, x.apply)
    ensures
      var start := Launched(Connect(initial, columns, rows).value, columns, rows, mode);
      && Prediction.Sound(start.prediction, x.echo)
      && var c := RunClient(start, x, hs);
         var (d, shown) := (c.session.driver, Displayed(c, truth));
         && TrueDisplay(shown, c.prediction, x.echo, truth, d.sync.remoteLatest, Latest(d))
         && (!c.requested ==> shown == if c.painted.Some? then c.painted.value else initial)
         && (!c.requested && c.painted.Some? && Painting.Surface(t) && FrameRuns.Paintable(t, c.frames)
             && FrameRuns.SafeRun(t, c.frames) ==>
               FrameRuns.Shows(FrameRuns.Terminal(t, c.frames), x.screen(shown)))
  {
    hide Connect, RunClient, Sound, Converged, Prediction.Fold, TruthfulRun, Screens.WellFormed, FrameRuns.Paintable,
      FrameRuns.SafeRun, FrameRuns.Terminal;
    var start := Launched(Connect(initial, columns, rows).value, columns, rows, mode);
    LaunchIsRight(initial, columns, rows, mode, x, truth);
    RunStaysRight(start, x, hs, truth, initial);
    var c := RunClient(start, x, hs);
    if c.frames != [] && Painting.Surface(t) && FrameRuns.Paintable(t, c.frames) && FrameRuns.SafeRun(t, c.frames) {
      FrameRuns.EveryFrameShown(t, c.frames);
    }
  }

  // ------------------------------------------------------------- and it does show it

  /** A key typed becomes the newest pending entry, under the client state it made and
      the time it came; any other command ends the prediction. */
  lemma KeyIsPending<S, D>(c: Client<S>, x: Setting<S, D>, op: Operation, now: nat, truth: nat -> S, initial: S)
    requires Right(c, x, truth, initial) && Happen(c, x, Handled(Command(op), now)).Some?
    ensures
      var (p, next) := (c.prediction, Happen(c, x, Handled(Command(op), now)).value);
      var state := c.session.driver.sync.localLatest + 1;
      if op == Input([]) then next == c
      else
        && next.session.driver.sync.localLatest == state
        && (p.mode == Prediction.Never ==> next.prediction == p)
        && (p.mode != Prediction.Never && op.Input? && Typing.IsKey(op.bytes) && |p.pending| < 32 ==>
              next.prediction.pending == p.pending + [Prediction.Entry(state, now, op.bytes[0])])
        && (p.mode != Prediction.Never && !(op.Input? && Typing.IsKey(op.bytes) && |p.pending| < 32) ==>
              Typing.Forgotten(p, next.prediction))
  {
    hide Prediction.ObserveInput, Prediction.Fold, HandleCommand, SoundDriver, Converged, UpToDate, Based,
      Prediction.Displaying;
    var d := c.session.driver;
    if op == Input([]) {
      EmptyInputIgnored(d);
      EmptyIsIgnored(c, x, now);
    } else {
      Turns.CommandSays(d, c.session.ledger, op);
      LatestIsTrue(c, x, truth, initial);
      Typing.InputSays(c.prediction, x.echo, d.sync.localLatest + 1, if op.Input? then op.bytes else [],
                       truth(d.sync.remoteLatest), now);
    }
  }

  lemma EmptyIsIgnored<S, D>(c: Client<S>, x: Setting<S, D>, now: nat)
    requires Prediction.Sound(c.prediction, x.echo)
    requires HandleCommand(c.session.driver, Input([])) == Ok(c.session.driver)
    ensures Happen(c, x, Handled(Event<D>.Command(Input([])), now)) == Some(c)
  {
    hide HandleCommand;
    assert c.session.emitted + {} == c.session.emitted;
  }

  /** A newer state that can be taken when it arrives asks for output. */
  lemma NewStateAsks<S, D>(c: Client<S>, x: Setting<S, D>, m: Instruction<D>, closing: bool, now: nat, truth: nat -> S,
                           initial: S)
    requires Right(c, x, truth, initial) && Happen(c, x, Handled(Incoming(m, closing), now)).Some?
    requires m.target == SHUTDOWN_STATE ||
             (Turns.Takes(c.session.driver.sync, m) && m.target > c.session.driver.sync.remoteLatest)
    ensures
      var next := Happen(c, x, Handled(Incoming(m, closing), now)).value;
      && next.requested
      && (m.target != SHUTDOWN_STATE ==> next.session.driver.sync.remoteLatest == m.target)
      && (m.target == SHUTDOWN_STATE ==>
            next.session.driver.final.Some? && Typing.Forgotten(c.prediction, next.prediction))
  {
    hide Prediction.ObserveAuthoritative, Prediction.Fold, HandleNormalInstruction, HandleRemoteShutdown, SoundDriver,
      Converged, UpToDate, Based, Turns.Takes, Turns.Learns, Classify, HasSent;
    var d := c.session.driver;
    if m.target == SHUTDOWN_STATE {
      Turns.ShutdownSays(d, c.session.ledger, m, x.apply);
    } else {
      var ordinary := Turns.Ordinary(d.sync, m, closing);
      SoundDriverIsRetained(d, c.session.ledger);
      Turns.NormalSays(d, c.session.ledger, ordinary, x.apply);
      Turns.ClassifySays(d.sync, m);
      OrdinaryIsTaken(d.sync, m, closing);
    }
  }

  lemma OrdinaryIsTaken<D>(s: Sync, m: Instruction<D>, closing: bool)
    ensures Turns.Takes(s, Turns.Ordinary(s, m, closing)) == Turns.Takes(s, m)
  {
  }

  /** Output that is asked for paints what is displayed, in full after a repaint command,
      and nothing is asked for any more. */
  lemma OutputSays<S, D>(c: Client<S>, x: Setting<S, D>, resized: Option<Screens.Screen>, truth: nat -> S, initial: S)
    requires Right(c, x, truth, initial)
    ensures Happen(c, x, Happening<D>.Output(resized)) ==
      Some(if !c.requested then c
           else c.(painted := Some(Displayed(c, truth)), requested := false, forced := false,
                   frames := c.frames + [FrameRuns.Frame(x.screen(Displayed(c, truth)), c.forced, resized)]))
    ensures
      var next := Happen(c, x, Happening<D>.Repaint).value;
      next.requested && next.forced && Typing.Forgotten(c.prediction, next.prediction)
  {
    hide Sound, Converged, UpToDate, Based, Prediction.Sound, Prediction.Display;
    LatestIsTrue(c, x, truth, initial);
  }

  // ------------------------------------------------- client states of what is pending

  /** Pending entries are in order of the client states they were typed as. */
  predicate Numbered<S>(p: Prediction.Prediction<S>, latest: nat) {
    Typing.StatesAscend(p.pending) && forall i :: 0 <= i < |p.pending| ==> p.pending[i].clientState <= latest
  }

  lemma LocalLatestGrows<S, D>(d: Driver<S>, event: Event<D>, apply: (S, D) -> Option<S>)
    requires React(d, event, apply).next.Ok?
    ensures
      var next := React(d, event, apply).next.value;
      && next.sync.localLatest >= d.sync.localLatest
      && (event.Command? && event.op != Input([]) ==> next.sync.localLatest == d.sync.localLatest + 1)
  {
    hide PlanSend, RecordSent, ClientHistories.Append, ClientHistories.Difference, ClientHistories.Acknowledge,
      SentAbove, HasSent, CanRetain, MakeRoom, Inserted, AtLeast, DiscardTerminals;
  }

  /** Prediction keeps the last of what was pending, and may add one entry typed as the
      newest state. */
  lemma ForeseenKeepsOrder<S, D>(p: Prediction.Prediction<S>, x: Setting<S, D>, before: Driver<S>, after: Driver<S>,
                                 event: Event<D>, now: nat)
    requires Prediction.Sound(p, x.echo) && Foreseen(p, x, before, after, event, now).Some?
    requires Numbered(p, before.sync.localLatest) && before.sync.localLatest <= after.sync.localLatest
    ensures Numbered(Foreseen(p, x, before, after, event, now).value.0, after.sync.localLatest)
  {
    hide Prediction.Fold, Prediction.LongestMatch, Classify;
    var next := Foreseen(p, x, before, after, event, now).value.0;
    if event.Command? && event.op != Input([]) {
      Typing.InputSays(p, x.echo, after.sync.localLatest, if event.op.Input? then event.op.bytes else [],
                       after.terminals[after.sync.remoteLatest], now);
    } else {
      assert next.pending == [] || exists m :: 0 <= m <= |p.pending| && next.pending == p.pending[m..] by {
        assert p.pending == p.pending[0..];
      }
    }
  }

  lemma HappenKeepsOrder<S, D>(c: Client<S>, x: Setting<S, D>, h: Happening<D>)
    requires Prediction.Sound(c.prediction, x.echo) && Happen(c, x, h).Some?
    requires Numbered(c.prediction, c.session.driver.sync.localLatest)
    ensures
      var next := Happen(c, x, h).value;
      Numbered(next.prediction, next.session.driver.sync.localLatest)
  {
    hide Foreseen, React, Prediction.Fold;
    if h.Handled? {
      LocalLatestGrows(c.session.driver, h.event, x.apply);
      ForeseenKeepsOrder(c.prediction, x, c.session.driver, Progressed(c.session, h.event, x.apply).driver, h.event,
                         h.now);
    }
  }

  /** Over every run pending entries are in order of client states, so that an echo
      covers the first of them. */
  lemma {:induction false} PendingInOrder<S, D>(c: Client<S>, x: Setting<S, D>, hs: seq<Happening<D>>)
    requires Prediction.Sound(c.prediction, x.echo) && Numbered(c.prediction, c.session.driver.sync.localLatest)
    ensures
      var last := RunClient(c, x, hs);
      Numbered(last.prediction, last.session.driver.sync.localLatest)
    decreases |hs|
  {
    hide Happen, Prediction.Sound;
    if hs != [] && Happen(c, x, hs[0]).Some? {
      HappenKeepsPrediction(c, x, hs[0]);
      HappenKeepsOrder(c, x, hs[0]);
      PendingInOrder(Happen(c, x, hs[0]).value, x, hs[1..]);
    }
  }
}
