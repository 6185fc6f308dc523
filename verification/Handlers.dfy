/** The handlers that couple synchronization, client history and terminal
    snapshots (`src/session/driver.rs`), as functions on values.  Sockets,
    clocks and channels are parameters; each handler is one step. */
module Handlers {
  import opened Wrappers
  import opened ClientOperations
  import opened ClientHistories
  import opened Synchronization

  datatype DriverError =
    | HistoryFailed(history: HistoryError)
    | SyncFailed(sync: SyncError)
    | MissingTerminalState
    | TerminalFailed
    | TransportFailed

  /** What the transport made of an instruction; on a failure in mid-send some of
      its datagrams may still have left. */
  datatype Outcome = Sent | Cancelled | Deferred | Broken

  type Outgoing = Instruction<seq<Operation>>

  /** `S` is a terminal snapshot. */
  datatype Driver<+S> = Driver(sync: Sync, history: History, terminals: map<nat, S>, final: Option<S>)

  /** `advance_local` followed by `checkpoint`. */
  function NewState<S>(d: Driver<S>): Result<Driver<S>, DriverError> {
    match AdvanceLocal(d.sync)
    case Err(e) => Err(SyncFailed(e))
    case Ok(sync) => Ok(d.(sync := sync, history := Checkpoint(d.history, sync.localLatest)))
  }

  function AdvanceClient<S>(d: Driver<S>, op: Operation): Result<Driver<S>, DriverError> {
    match Append(d.history, op)
    case Err(e) => Err(HistoryFailed(e))
    case Ok(history) => NewState(d.(history := history))
  }

  function Connect<S>(initial: S, columns: nat, rows: nat): Result<Driver<S>, DriverError> {
    AdvanceClient(Driver(INITIAL, EMPTY_HISTORY, map[0 := initial], None), Resize(columns, rows))
  }

  /** `handle_command` for input and resizing: an empty input is ignored, and the
      latest snapshot must be there for the prediction. */
  function HandleCommand<S>(d: Driver<S>, op: Operation): Result<Driver<S>, DriverError> {
    if op == Input([]) then Ok(d)
    else
      match AdvanceClient(d, op)
      case Err(e) => Err(e)
      case Ok(next) => if next.sync.remoteLatest in next.terminals then Ok(next) else Err(MissingTerminalState)
  }

  /** A plan, after one more state when there was nothing new to send. */
  function PlanOrAdvance<S>(d: Driver<S>, now: nat, rto: nat): Result<(Driver<S>, SendPlan), DriverError> {
    match PlanSend(d.sync, now, rto)
    case Ok(plan) => Ok((d, plan))
    case Err(NoNewState) =>
      (match NewState(d)
       case Err(e) => Err(e)
       case Ok(next) =>
         match PlanSend(next.sync, now, rto)
         case Err(e) => Err(SyncFailed(e))
         case Ok(plan) => Ok((next, plan)))
    case Err(e) => Err(SyncFailed(e))
  }

  /** One sending step: how the driver ends up and what may be on the network. */
  datatype Turn<+S> = Turn(next: Result<Driver<S>, DriverError>, emitted: Option<Outgoing>)

  function CommitPlan<S>(d: Driver<S>, plan: SendPlan): Result<Driver<S>, DriverError> {
    match CommitSend(d.sync, plan)
    case Err(e) => Err(SyncFailed(e))
    case Ok((sync, evicted)) =>
      Ok(d.(sync := sync,
            history := if evicted.Some? then RemoveCheckpoint(d.history, evicted.value) else d.history))
  }

  /** The planned instruction goes out; only a complete send is recorded. */
  function SendPlanned<S>(d: Driver<S>, plan: SendPlan, acknowledged: nat, outcome: Outcome): Turn<S> {
    match Difference(d.history, plan.base, plan.target)
    case Err(e) => Turn(Err(HistoryFailed(e)), None)
    case Ok(difference) =>
      var m := plan.ToInstruction(difference).(acknowledged := acknowledged);
      Turn(match outcome
           case Sent => CommitPlan(d, plan)
           case Cancelled => Ok(d)
           case Deferred => Ok(d)
           case Broken => Err(TransportFailed),
           Some(m))
  }

  function SendInstruction<S>(d: Driver<S>, now: nat, rto: nat, outcome: Outcome): Turn<S> {
    match PlanOrAdvance(d, now, rto)
    case Err(e) => Turn(Err(e), None)
    case Ok((next, plan)) => SendPlanned(next, plan, plan.acknowledged, outcome)
  }

  /** `send_shutdown_request`: the reserved target carries everything unacknowledged. */
  function SendShutdownRequest<S>(d: Driver<S>, outcome: Outcome): Turn<S> {
    match Difference(d.history, d.sync.known, d.sync.localLatest)
    case Err(e) => Turn(Err(HistoryFailed(e)), None)
    case Ok(difference) =>
      Turn(if outcome == Broken then Err(TransportFailed) else Ok(d),
           Some(Instruction(PROTOCOL_VERSION, d.sync.known, SHUTDOWN_STATE, d.sync.remoteLatest, d.sync.known,
                            difference)))
  }

  function SendShutdownAcknowledgement<S>(d: Driver<S>, now: nat, rto: nat, outcome: Outcome): Turn<S> {
    match NewState(d)
    case Err(e) => Turn(Err(e), None)
    case Ok(next) =>
      match PlanSend(next.sync, now, rto)
      case Err(e) => Turn(Err(SyncFailed(e)), None)
      case Ok(plan) => SendPlanned(next, plan, SHUTDOWN_STATE, outcome)
  }

  // ----------------------------------------------------------------- receiving

  /** Discarding snapshots exactly as the received states were. */
  function DiscardTerminals<S>(terminals: map<nat, S>, commit: ReceiveCommit): map<nat, S> {
    map n | n in terminals && n >= commit.discardBefore && Some(n) != commit.evicted :: terminals[n]
  }

  /** `apply` decodes a difference and applies it to a snapshot, or fails. */
  function ApplyRemote<S, D>(d: Driver<S>, plan: ApplyPlan, difference: D, apply: (S, D) -> Option<S>)
    : Result<Driver<S>, DriverError>
  {
    if plan.base !in d.terminals then Err(MissingTerminalState)
    else
      match apply(d.terminals[plan.base], difference)
      case None => Err(TerminalFailed)
      case Some(next) =>
        match CommitReceive(d.sync, plan)
        case Err(e) => Err(SyncFailed(e))
        case Ok((sync, commit)) =>
          var terminals := DiscardTerminals(d.terminals[plan.target := next], commit);
          if plan.target == sync.remoteLatest && plan.target !in terminals then Err(MissingTerminalState)
          else Ok(d.(sync := sync, terminals := terminals))
  }

  function AcknowledgeKnown<S>(d: Driver<S>): Result<Driver<S>, DriverError> {
    match Acknowledge(d.history, d.sync.known)
    case Err(e) => Err(HistoryFailed(e))
    case Ok(history) => Ok(d.(history := history))
  }

  function HandleNormalInstruction<S, D>(d: Driver<S>, m: Instruction<D>, apply: (S, D) -> Option<S>)
    : Result<Driver<S>, DriverError>
  {
    match BeginReceive(d.sync, m)
    case Err(e) => Err(SyncFailed(e))
    case Ok((sync, _, disposition)) =>
      match AcknowledgeKnown(d.(sync := sync))
      case Err(e) => Err(e)
      case Ok(next) =>
        if disposition.Apply? then ApplyRemote(next, disposition.plan, m.difference, apply) else Ok(next)
  }

  function HandleRemoteShutdown<S, D>(d: Driver<S>, m: Instruction<D>, apply: (S, D) -> Option<S>)
    : Result<Driver<S>, DriverError>
  {
    var shutdown := if m.acknowledged == SHUTDOWN_STATE then m.(acknowledged := d.sync.known) else m;
    match BeginShutdown(d.sync, shutdown)
    case Err(e) => Err(SyncFailed(e))
    case Ok((sync, base)) =>
      match AcknowledgeKnown(d.(sync := sync))
      case Err(e) => Err(e)
      case Ok(next) =>
        if base !in next.terminals then Err(MissingTerminalState)
        else
          match apply(next.terminals[base], m.difference)
          case None => Err(TerminalFailed)
          case Some(final) => Ok(next.(final := Some(final)))
  }

  /** A complete instruction from the server, while running (`handle_datagram`)
      or while closing (`run_local_shutdown`), where the reserved
      acknowledgement stands for what is known already. */
  function HandleInstruction<S, D>(d: Driver<S>, m: Instruction<D>, closing: bool, apply: (S, D) -> Option<S>)
    : Result<Driver<S>, DriverError>
  {
    if m.target == SHUTDOWN_STATE then HandleRemoteShutdown(d, m, apply)
    else
      var ordinary := if closing && m.acknowledged == SHUTDOWN_STATE then m.(acknowledged := d.sync.known) else m;
      HandleNormalInstruction(d, ordinary, apply)
  }

  /** `latest_terminal_state`, which every output starts from. */
  function LatestTerminal<S>(d: Driver<S>): Result<S, DriverError> {
    if d.final.Some? then Ok(d.final.value)
    else if d.sync.remoteLatest in d.terminals then Ok(d.terminals[d.sync.remoteLatest])
    else Err(MissingTerminalState)
  }
}
