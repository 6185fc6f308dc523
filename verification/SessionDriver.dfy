/** The session driver with its parts updated in place (`src/session/driver.rs`);
    each handler is proved against its value form in `Handlers`. */
module SessionDrivers {
  import opened Wrappers
  import opened ClientOperations
  import opened ClientHistories
  import opened Synchronization
  import opened SynchronizationMachine
  import opened Retention
  import opened Handlers

  class SessionDriver<S> {
    const synchronization: SynchronizationState
    const clientHistory: ClientHistory
    var terminalStates: map<nat, S>
    var finalTerminal: Option<S>

    function View(): Driver<S>
      reads this, synchronization, clientHistory
    {
      Driver(synchronization.View(), clientHistory.View(), terminalStates, finalTerminal)
    }

    constructor (initial: S)
      ensures View() == Driver(INITIAL, EMPTY_HISTORY, map[0 := initial], None)
      ensures fresh(synchronization) && fresh(clientHistory)
    {
      var sync := new SynchronizationState();
      var history := new ClientHistory();
      synchronization, clientHistory := sync, history;
      terminalStates, finalTerminal := map[0 := initial], None;
    }

    /** Starting from the first terminal, with the size as the first operation. */
    static method Connect(initial: S, columns: nat, rows: nat) returns (r: Result<SessionDriver<S>, DriverError>)
      ensures
        match Handlers.Connect(initial, columns, rows)
        case Err(e) => r == Err(e)
        case Ok(next) => r.Ok? && fresh(r.value) && r.value.View() == next
    {
      hide Handlers.AdvanceClient;
      var driver := new SessionDriver(initial);
      var advanced := driver.AdvanceClient(Resize(columns, rows));
      if advanced.Err? {
        return Err(advanced.error);
      }
      return Ok(driver);
    }

    /** A new local state with its checkpoint. */
    method NewState() returns (r: Result<nat, DriverError>)
      modifies synchronization, clientHistory
      ensures
        match Handlers.NewState(old(View()))
        case Err(e) => r == Err(e) && View() == old(View())
        case Ok(next) => r == Ok(next.sync.localLatest) && View() == next
    {
      var advanced := synchronization.AdvanceLocal();
      match advanced
      case Err(e) => return Err(SyncFailed(e));
      case Ok(state) =>
        clientHistory.AddCheckpoint(state);
        return Ok(state);
    }

    method AdvanceClient(op: Operation) returns (r: Result<nat, DriverError>)
      modifies synchronization, clientHistory
      ensures
        match Handlers.AdvanceClient(old(View()), op)
        case Err(e) => r == Err(e)
        case Ok(next) => r == Ok(next.sync.localLatest) && View() == next
    {
      hide Append, Synchronization.AdvanceLocal;
      var appended := clientHistory.AppendOperation(op);
      if appended.Err? {
        return Err(HistoryFailed(appended.error));
      }
      r := NewState();
    }

    method HandleCommand(op: Operation) returns (r: Result<(), DriverError>)
      modifies synchronization, clientHistory
      ensures
        match Handlers.HandleCommand(old(View()), op)
        case Err(e) => r == Err(e)
        case Ok(next) => r == Ok(()) && View() == next
    {
      hide Handlers.AdvanceClient;
      if op == Input([]) {
        return Ok(());
      }
      var advanced := AdvanceClient(op);
      if advanced.Err? {
        return Err(advanced.error);
      }
      if synchronization.remoteLatest !in terminalStates {
        return Err(MissingTerminalState);
      }
      return Ok(());
    }

    /** The difference, the transport and, if everything went out, the commit. */
    method SendPlanned(plan: SendPlan, acknowledged: nat, outcome: Outcome)
      returns (r: Result<(), DriverError>, emitted: Option<Outgoing>)
      requires Ordered(synchronization.sentStates)
      modifies synchronization, clientHistory
      ensures
        var turn := Handlers.SendPlanned(old(View()), plan, acknowledged, outcome);
        && emitted == turn.emitted
        && match turn.next
           case Err(e) => r == Err(e)
           case Ok(next) => r == Ok(()) && View() == next
    {
      hide Difference, Synchronization.CommitSend;
      var difference := clientHistory.DifferenceBetween(plan.base, plan.target);
      if difference.Err? {
        return Err(HistoryFailed(difference.error)), None;
      }
      emitted := Some(plan.ToInstruction(difference.value).(acknowledged := acknowledged));
      match outcome {
        case Cancelled => return Ok(()), emitted;
        case Deferred => return Ok(()), emitted;
        case Broken => return Err(TransportFailed), emitted;
        case Sent =>
      }
      var committed := synchronization.CommitSend(plan);
      match committed
      case Err(e) => return Err(SyncFailed(e)), emitted;
      case Ok(evicted) =>
        if evicted.Some? {
          clientHistory.DropCheckpoint(evicted.value);
        }
        return Ok(()), emitted;
    }

    method SendInstruction(now: nat, rto: nat, outcome: Outcome)
      returns (r: Result<(), DriverError>, emitted: Option<Outgoing>)
      requires Ordered(synchronization.sentStates)
      modifies synchronization, clientHistory
      ensures
        var turn := Handlers.SendInstruction(old(View()), now, rto, outcome);
        && emitted == turn.emitted
        && match turn.next
           case Err(e) => r == Err(e)
           case Ok(next) => r == Ok(()) && View() == next
    {
      hide Handlers.SendPlanned, Synchronization.PlanSend, Ordered;
      var planned := synchronization.PlanSend(now, rto);
      if planned == Err(NoNewState) {
        var advanced := NewState();
        if advanced.Err? {
          return Err(advanced.error), None;
        }
        planned := synchronization.PlanSend(now, rto);
      }
      match planned
      case Err(e) => return Err(SyncFailed(e)), None;
      case Ok(plan) => r, emitted := SendPlanned(plan, plan.acknowledged, outcome);
    }

    method SendShutdownAcknowledgement(now: nat, rto: nat, outcome: Outcome)
      returns (r: Result<(), DriverError>, emitted: Option<Outgoing>)
      requires Ordered(synchronization.sentStates)
      modifies synchronization, clientHistory
      ensures
        var turn := Handlers.SendShutdownAcknowledgement(old(View()), now, rto, outcome);
        && emitted == turn.emitted
        && match turn.next
           case Err(e) => r == Err(e)
           case Ok(next) => r == Ok(()) && View() == next
    {
      hide Handlers.SendPlanned, Synchronization.PlanSend, Ordered;
      var advanced := NewState();
      if advanced.Err? {
        return Err(advanced.error), None;
      }
      var planned := synchronization.PlanSend(now, rto);
      match planned
      case Err(e) => return Err(SyncFailed(e)), None;
      case Ok(plan) => r, emitted := SendPlanned(plan, SHUTDOWN_STATE, outcome);
    }

    method SendShutdownRequest(outcome: Outcome) returns (r: Result<(), DriverError>, emitted: Option<Outgoing>)
      ensures
        var turn := Handlers.SendShutdownRequest(View(), outcome);
        && emitted == turn.emitted
        && r == match turn.next case Err(e) => Err(e) case Ok(_) => Ok(())
    {
      hide Difference;
      var known := synchronization.knownReceiverState;
      var difference := clientHistory.DifferenceBetween(known, synchronization.localLatest);
      if difference.Err? {
        return Err(HistoryFailed(difference.error)), None;
      }
      emitted := Some(Instruction(PROTOCOL_VERSION, known, SHUTDOWN_STATE, synchronization.remoteLatest, known,
                                  difference.value));
      return if outcome == Broken then Err(TransportFailed) else Ok(()), emitted;
    }

    // -------------------------------------------------------------- receiving

    method DiscardTerminalStates(commit: ReceiveCommit)
      modifies this`terminalStates
      ensures terminalStates == DiscardTerminals(old(terminalStates), commit)
    {
      terminalStates := map n | n in terminalStates && n >= commit.discardBefore :: terminalStates[n];
      if commit.evicted.Some? {
        terminalStates := terminalStates - {commit.evicted.value};
      }
    }

    method ApplyRemote<D>(plan: ApplyPlan, difference: D, apply: (S, D) -> Option<S>)
      returns (r: Result<(), DriverError>)
      modifies this, synchronization
      ensures
        match Handlers.ApplyRemote(old(View()), plan, difference, apply)
        case Err(e) => r == Err(e)
        case Ok(next) => r == Ok(()) && View() == next
    {
      hide Synchronization.CommitReceive, DiscardTerminals;
      if plan.base !in terminalStates {
        return Err(MissingTerminalState);
      }
      var next := apply(terminalStates[plan.base], difference);
      if next.None? {
        return Err(TerminalFailed);
      }
      var committed := synchronization.CommitReceive(plan);
      if committed.Err? {
        return Err(SyncFailed(committed.error));
      }
      terminalStates := terminalStates[plan.target := next.value];
      DiscardTerminalStates(committed.value);
      if plan.target == synchronization.remoteLatest && plan.target !in terminalStates {
        return Err(MissingTerminalState);
      }
      return Ok(());
    }

    method HandleNormalInstruction<D>(m: Instruction<D>, apply: (S, D) -> Option<S>)
      returns (r: Result<(), DriverError>)
      modifies this, synchronization, clientHistory
      ensures
        match Handlers.HandleNormalInstruction(old(View()), m, apply)
        case Err(e) => r == Err(e)
        case Ok(next) => r == Ok(()) && View() == next
    {
      hide Synchronization.BeginReceive, Acknowledge, Handlers.ApplyRemote;
      var begun := synchronization.BeginReceive(m);
      if begun.Err? {
        return Err(SyncFailed(begun.error));
      }
      var acknowledged := clientHistory.AcknowledgeState(synchronization.knownReceiverState);
      if acknowledged.Err? {
        return Err(HistoryFailed(acknowledged.error));
      }
      var (_, disposition) := begun.value;
      if disposition.Apply? {
        r := ApplyRemote(disposition.plan, m.difference, apply);
      } else {
        r := Ok(());
      }
    }

    method HandleRemoteShutdown<D>(m: Instruction<D>, apply: (S, D) -> Option<S>) returns (r: Result<(), DriverError>)
      modifies this, synchronization, clientHistory
      ensures
        match Handlers.HandleRemoteShutdown(old(View()), m, apply)
        case Err(e) => r == Err(e)
        case Ok(next) => r == Ok(()) && View() == next
    {
      hide BeginShutdown, Acknowledge;
      var shutdown := m;
      if shutdown.acknowledged == SHUTDOWN_STATE {
        shutdown := shutdown.(acknowledged := synchronization.knownReceiverState);
      }
      var begun := synchronization.BeginShutdownReceive(shutdown);
      if begun.Err? {
        return Err(SyncFailed(begun.error));
      }
      var acknowledged := clientHistory.AcknowledgeState(synchronization.knownReceiverState);
      if acknowledged.Err? {
        return Err(HistoryFailed(acknowledged.error));
      }
      if begun.value !in terminalStates {
        return Err(MissingTerminalState);
      }
      var last := apply(terminalStates[begun.value], m.difference);
      if last.None? {
        return Err(TerminalFailed);
      }
      finalTerminal := last;
      return Ok(());
    }
  }
}
