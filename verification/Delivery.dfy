/** Whole runs of a client session: no operation is lost or applied twice, and
    the "missing state" errors cannot happen. */
module Delivery {
  import opened Wrappers
  import opened ClientOperations
  import opened ClientHistories
  import opened Synchronization
  import opened Retention
  import opened Handlers

  datatype Event<+D> =
    | Command(op: Operation)
    | Send(now: nat, rto: nat, outcome: Outcome)
    | RequestShutdown(outcome: Outcome)
    | AcknowledgeShutdown(now: nat, rto: nat, outcome: Outcome)
    | Incoming(m: Instruction<D>, closing: bool)

  /** One event: the driver's next state or the error that ends the session, and
      what may have reached the network. */
  function React<S, D>(d: Driver<S>, event: Event<D>, apply: (S, D) -> Option<S>): Turn<S> {
    match event
    case Command(op) => Turn(HandleCommand(d, op), None)
    case Send(now, rto, outcome) => SendInstruction(d, now, rto, outcome)
    case RequestShutdown(outcome) => SendShutdownRequest(d, outcome)
    case AcknowledgeShutdown(now, rto, outcome) => SendShutdownAcknowledgement(d, now, rto, outcome)
    case Incoming(m, closing) => Turn(HandleInstruction(d, m, closing, apply), None)
  }

  /** A session with its complete past. */
  datatype Session<+S> = Session(driver: Driver<S>, ledger: Ledger, emitted: set<Outgoing>)

  /** The ledger gains accepted operations and a mark for every new state. */
  function Recorded<D>(l: Ledger, event: Event<D>, before: nat, after: nat): Ledger {
    var all := if event.Command? && event.op != Input([]) then l.all + [event.op] else l.all;
    Ledger(all, if after == before then l.marks else l.marks + [|all|])
  }

  function Progressed<S, D>(s: Session<S>, event: Event<D>, apply: (S, D) -> Option<S>): Session<S>
    requires React(s.driver, event, apply).next.Ok?
  {
    var turn := React(s.driver, event, apply);
    Session(turn.next.value,
            Recorded(s.ledger, event, s.driver.sync.localLatest, turn.next.value.sync.localLatest),
            s.emitted + (if turn.emitted.Some? then {turn.emitted.value} else {}))
  }

  /** Events handled one after another until the session ends with an error. */
  function RunSession<S, D>(s: Session<S>, events: seq<Event<D>>, apply: (S, D) -> Option<S>): Session<S>
    decreases |events|
  {
    if events == [] || React(s.driver, events[0], apply).next.Err? then s
    else RunSession(Progressed(s, events[0], apply), events[1..], apply)
  }

  /** What the turn that ended the session may still have sent. */
  function Parting<S, D>(s: Session<S>, events: seq<Event<D>>, apply: (S, D) -> Option<S>): Option<Outgoing>
    decreases |events|
  {
    if events == [] then None
    else if React(s.driver, events[0], apply).next.Err? then React(s.driver, events[0], apply).emitted
    else Parting(Progressed(s, events[0], apply), events[1..], apply)
  }

  // ---------------------------------------------------------------- invariant

  /** The history holds a checkpoint for every state a plan can start from or
      end at, and its log starts at what the peer is known to have. */
  ghost predicate Covered(sync: Sync, h: History, l: Ledger) {
    && Tracks(h, l)
    && |l.marks| == sync.localLatest + 1
    && l.marks[0] == 0 && l.marks[sync.localLatest] == |l.all|
    && sync.known in h.checkpoints && sync.localLatest in h.checkpoints
    && (forall n: nat :: HasSent(sync.sent, n) ==> n in h.checkpoints)
    && sync.known < |l.marks| && h.offset == l.marks[sync.known]
  }

  ghost predicate SameKeys<S>(received: seq<nat>, terminals: map<nat, S>) {
    forall n: nat :: n in terminals <==> n in received
  }

  ghost predicate SoundDriver<S>(d: Driver<S>, l: Ledger) {
    Retained(d.sync) && Covered(d.sync, d.history, l) && SameKeys(d.sync.received, d.terminals)
  }

  /** The instruction carries the whole history between its two states. */
  predicate Faithful(l: Ledger, m: Outgoing) {
    && m.base < |l.marks| && l.marks[m.base] <= |l.all|
    && if m.target == SHUTDOWN_STATE then
         exists end :: l.marks[m.base] <= end <= |l.all| && m.difference == l.all[l.marks[m.base]..end]
       else
         && m.target < |l.marks| && l.marks[m.base] <= l.marks[m.target] <= |l.all|
         && m.difference == l.all[l.marks[m.base]..l.marks[m.target]]
  }

  ghost predicate Sound<S>(s: Session<S>) {
    SoundDriver(s.driver, s.ledger) && forall m :: m in s.emitted ==> Faithful(s.ledger, m)
  }

  /** An error no session may end with. */
  predicate Internal(e: DriverError) {
    || e == MissingTerminalState
    || e == HistoryFailed(MissingClientState)
    || e == HistoryFailed(DrainPastEnd)
    || e == SyncFailed(StalePlan)
  }

  // ------------------------------------------------------------------ new states

  function Marked(l: Ledger): Ledger {
    l.(marks := l.marks + [|l.all|])
  }

  /** The ledger once the state that `m` carries is numbered. */
  function Reached(l: Ledger, m: Outgoing): Ledger {
    if m.target == |l.marks| then Marked(l) else l
  }

  lemma NewStateIsSound<S>(d: Driver<S>, l: Ledger)
    requires Retained(d.sync) && SameKeys(d.sync.received, d.terminals) && NewState(d).Ok?
    requires Tracks(d.history, l) && |l.marks| == d.sync.localLatest + 1 && l.marks[0] == 0
    requires d.sync.known in d.history.checkpoints && d.sync.known < |l.marks|
    requires d.history.offset == l.marks[d.sync.known]
    requires forall n: nat :: HasSent(d.sync.sent, n) ==> n in d.history.checkpoints
    ensures SoundDriver(NewState(d).value, Marked(l))
  {
    hide Tracks, SameKeys, HasSent;
    AdvanceKeeps(d.sync);
    CheckpointTracks(d.history, l);
  }

  lemma CommandIsSound<S>(d: Driver<S>, l: Ledger, op: Operation)
    requires SoundDriver(d, l) && op != Input([])
    ensures HandleCommand(d, op).Err? ==> !Internal(HandleCommand(d, op).error)
    ensures HandleCommand(d, op).Ok? ==>
      SoundDriver(HandleCommand(d, op).value, Ledger(l.all + [op], l.marks + [|l.all| + 1]))
      && HandleCommand(d, op).value.sync.localLatest == d.sync.localLatest + 1
  {
    hide Tracks, Retained, HasSent, Encode;
    var appended := Append(d.history, op);
    LatestIsKept(d, l);
    if appended.Ok? {
      AppendTracks(d.history, l, op);
      var with := d.(history := appended.value);
      var l' := l.(all := l.all + [op]);
      if NewState(with).Ok? { NewStateIsSound(with, l'); }
    }
  }

  lemma LatestIsKept<S>(d: Driver<S>, l: Ledger)
    requires SoundDriver(d, l)
    ensures d.sync.remoteLatest in d.terminals
  {
    assert d.sync.received[|d.sync.received| - 1] in d.sync.received;
  }

  // -------------------------------------------------------------------- sending

  /** A plan's difference is there and is the history it should be. */
  lemma PlannedDifference<S>(d: Driver<S>, l: Ledger, plan: SendPlan)
    requires SoundDriver(d, l) && PlannedFrom(d.sync, plan)
    ensures plan.base < |l.marks| && plan.target < |l.marks| && l.marks[plan.base] <= l.marks[plan.target] <= |l.all|
    ensures Difference(d.history, plan.base, plan.target) == Ok(l.all[l.marks[plan.base]..l.marks[plan.target]])
  {
    hide Encode, Difference;
    DifferenceIsHistory(d.history, l, plan.base, plan.target);
  }

  lemma CommitPlanIsSound<S>(d: Driver<S>, l: Ledger, plan: SendPlan)
    requires SoundDriver(d, l) && PlannedFrom(d.sync, plan) && PlanIsCurrent(d.sync, plan)
    ensures CommitPlan(d, plan).Err? ==> !Internal(CommitPlan(d, plan).error)
    ensures CommitPlan(d, plan).Ok? ==>
      SoundDriver(CommitPlan(d, plan).value, l) && CommitPlan(d, plan).value.sync.localLatest == d.sync.localLatest
  {
    hide Tracks, HasSent, RecordSent, Ordered, ReceiverRetained;
    if CommitSend(d.sync, plan).Ok? {
      CommitSendKeeps(d.sync, plan);
      var (sync, evicted) := CommitSend(d.sync, plan).value;
      if evicted.Some? { RemoveTracks(d.history, l, evicted.value); }
    }
  }

  /** What a sending step must leave behind. */
  ghost predicate SoundTurn<S>(turn: Turn<S>, l: Ledger) {
    && (turn.next.Ok? ==> SoundDriver(turn.next.value, l))
    && (turn.next.Err? ==> !Internal(turn.next.error))
    && (turn.emitted.Some? ==> Faithful(l, turn.emitted.value))
  }

  lemma SendPlannedIsSound<S>(d: Driver<S>, l: Ledger, plan: SendPlan, acknowledged: nat, outcome: Outcome)
    requires SoundDriver(d, l) && PlannedFrom(d.sync, plan) && PlanIsCurrent(d.sync, plan)
    ensures
      var turn := SendPlanned(d, plan, acknowledged, outcome);
      && SoundTurn(turn, l) && (turn.next.Ok? ==> turn.next.value.sync.localLatest == d.sync.localLatest)
      && (turn.emitted.Some? ==> turn.emitted.value.target == plan.target)
  {
    hide SoundDriver, CommitPlan, Difference, PlannedFrom, PlanIsCurrent;
    PlannedDifference(d, l, plan);
    CommitPlanIsSound(d, l, plan);
    var m := SendPlanned(d, plan, acknowledged, outcome).emitted.value;
    assert m.base == plan.base && m.target == plan.target;
    assert m.difference == l.all[l.marks[plan.base]..l.marks[plan.target]];
  }

  lemma SendIsSound<S>(d: Driver<S>, l: Ledger, now: nat, rto: nat, outcome: Outcome)
    requires SoundDriver(d, l)
    ensures
      var turn := SendInstruction(d, now, rto, outcome);
      || (SoundTurn(turn, l) && (turn.next.Ok? ==> turn.next.value.sync.localLatest == d.sync.localLatest))
      || (SoundTurn(turn, Marked(l)) && (turn.emitted.Some? ==> turn.emitted.value.target == |l.marks|)
          && (turn.next.Ok? ==> turn.next.value.sync.localLatest == d.sync.localLatest + 1))
  {
    hide SendPlanned, SoundDriver, PlanSend, PlannedFrom, PlanIsCurrent;
    var plan := PlanSend(d.sync, now, rto);
    SoundDriverIsRetained(d, l);
    if plan.Ok? {
      PlanIsPlanned(d.sync, now, rto);
      SendPlannedIsSound(d, l, plan.value, plan.value.acknowledged, outcome);
    } else if plan == Err(NoNewState) && NewState(d).Ok? {
      var next, l' := NewState(d).value, Marked(l);
      NewStateFromSound(d, l);
      SoundDriverIsRetained(next, l');
      RetrySucceeds(d.sync, now, rto);
      PlanIsPlanned(next.sync, now, rto);
      var retry := PlanSend(next.sync, now, rto).value;
      NextIsCarried(d, l, now, rto);
      SendPlannedIsSound(next, l', retry, retry.acknowledged, outcome);
    } else {
      PlanErrors(d.sync, now, rto);
    }
  }

  /** A plan made after a new state carries that state. */
  lemma NextIsCarried<S>(d: Driver<S>, l: Ledger, now: nat, rto: nat)
    requires SoundDriver(d, l) && NewState(d).Ok? && PlanSend(NewState(d).value.sync, now, rto).Ok?
    ensures PlanSend(NewState(d).value.sync, now, rto).value.target == |l.marks|
  {
    hide Tracks, Retained, HasSent, SameKeys, ScanSent;
  }

  lemma SoundDriverIsRetained<S>(d: Driver<S>, l: Ledger)
    requires SoundDriver(d, l)
    ensures Retained(d.sync)
  {
  }

  lemma NewStateFromSound<S>(d: Driver<S>, l: Ledger)
    requires SoundDriver(d, l) && NewState(d).Ok?
    ensures SoundDriver(NewState(d).value, Marked(l))
  {
    hide Tracks, Retained, HasSent, SameKeys;
    NewStateIsSound(d, l);
  }

  lemma PlanErrors(s: Sync, now: nat, rto: nat)
    ensures PlanSend(s, now, rto).Err? ==> PlanSend(s, now, rto).error != StalePlan
  {
    ScanErrors(s.sent, s.known, now, rto);
  }

  lemma {:induction false} ScanErrors(sent: seq<SentState>, known: nat, now: nat, rto: nat)
    ensures ScanSent(sent, known, now, rto).Err? ==> ScanSent(sent, known, now, rto).error == TimeMovedBackwards
  {
    if sent != [] { ScanErrors(sent[..|sent| - 1], known, now, rto); }
  }

  lemma ShutdownRequestIsSound<S>(d: Driver<S>, l: Ledger, outcome: Outcome)
    requires SoundDriver(d, l)
    ensures
      var turn := SendShutdownRequest(d, outcome);
      SoundTurn(turn, l) && (turn.next.Ok? ==> turn.next.value.sync.localLatest == d.sync.localLatest)
  {
    hide Difference, Tracks;
    RequestDifference(d, l);
  }

  lemma RequestDifference<S>(d: Driver<S>, l: Ledger)
    requires SoundDriver(d, l)
    ensures l.marks[d.sync.known] <= |l.all|
    ensures Difference(d.history, d.sync.known, d.sync.localLatest) == Ok(l.all[l.marks[d.sync.known]..|l.all|])
  {
    hide Difference, Encode;
    DifferenceIsHistory(d.history, l, d.sync.known, d.sync.localLatest);
  }

  lemma ShutdownAcknowledgementIsSound<S>(d: Driver<S>, l: Ledger, now: nat, rto: nat, outcome: Outcome)
    requires SoundDriver(d, l)
    ensures
      var turn := SendShutdownAcknowledgement(d, now, rto, outcome);
      && SoundTurn(turn, Marked(l)) && (turn.emitted.Some? ==> turn.emitted.value.target == |l.marks|)
      && (turn.next.Ok? ==> turn.next.value.sync.localLatest == d.sync.localLatest + 1)
  {
    hide SendPlanned, SoundDriver, PlanSend, PlannedFrom, PlanIsCurrent;
    if NewState(d).Ok? {
      var next, l' := NewState(d).value, Marked(l);
      NewStateFromSound(d, l);
      SoundDriverIsRetained(next, l');
      PlanErrors(next.sync, now, rto);
      if PlanSend(next.sync, now, rto).Ok? {
        PlanIsPlanned(next.sync, now, rto);
        NextIsCarried(d, l, now, rto);
        SendPlannedIsSound(next, l', PlanSend(next.sync, now, rto).value, SHUTDOWN_STATE, outcome);
      }
    }
  }

  // ------------------------------------------------------------------ receiving

  /** Taking in an acknowledgement and dropping what it covers. */
  lemma AcknowledgeIsSound<S>(d: Driver<S>, l: Ledger, acknowledged: nat)
    requires SoundDriver(d, l) && ObserveAcknowledgement(d.sync, acknowledged).Ok?
    ensures
      var with := d.(sync := ObserveAcknowledgement(d.sync, acknowledged).value.0);
      && AcknowledgeKnown(with).Ok? && SoundDriver(AcknowledgeKnown(with).value, l)
      && AcknowledgeKnown(with).value.sync == with.sync && with.sync.localLatest == d.sync.localLatest
      && with.sync.received == d.sync.received
  {
    hide Tracks, HasSent, SentAbove, Acknowledge, Retained, SameKeys;
    ObserveKeeps(d.sync, acknowledged);
    KnownBounds(d.sync);
    var sync := ObserveAcknowledgement(d.sync, acknowledged).value.0;
    KnownBounds(sync);
    AcknowledgeTracks(d.history, l, sync.known);
  }

  lemma KnownBounds(s: Sync)
    requires Retained(s)
    ensures s.known <= s.localLatest
  {
  }

  /** Applying a remote state keeps the snapshots in step with the received
      states, and never finds its base missing. */
  lemma ApplyIsSound<S, D>(d: Driver<S>, l: Ledger, plan: ApplyPlan, difference: D, apply: (S, D) -> Option<S>)
    requires SoundDriver(d, l) && Applicable(d.sync, plan) && plan.generation == d.sync.receiverGeneration
    ensures
      var r := ApplyRemote(d, plan, difference, apply);
      && (r.Err? ==> !Internal(r.error))
      && (r.Ok? ==> SoundDriver(r.value, l) && r.value.sync.localLatest == d.sync.localLatest)
  {
    hide Tracks, HasSent, Retained, CanRetain, Raised, MakeRoom, Inserted;
    if CommitReceive(d.sync, plan).Ok? {
      CommitReceiveKeeps(d.sync, plan);
      var (sync, commit) := CommitReceive(d.sync, plan).value;
      CommitKeepsSender(d.sync, plan);
      AboveFloor(sync, plan.target);
    }
  }

  lemma AboveFloor(s: Sync, n: nat)
    requires Retained(s) && n in s.received
    ensures s.floor <= n
  {
  }

  lemma CommitKeepsSender(s: Sync, plan: ApplyPlan)
    requires CommitReceive(s, plan).Ok?
    ensures
      var next := CommitReceive(s, plan).value.0;
      next.localLatest == s.localLatest && next.known == s.known && next.sent == s.sent
  {
    hide AtLeast, MakeRoom, Inserted;
  }

  lemma NormalIsSound<S, D>(d: Driver<S>, l: Ledger, m: Instruction<D>, apply: (S, D) -> Option<S>)
    requires SoundDriver(d, l)
    ensures
      var r := HandleNormalInstruction(d, m, apply);
      && (r.Err? ==> !Internal(r.error))
      && (r.Ok? ==> SoundDriver(r.value, l) && r.value.sync.localLatest == d.sync.localLatest)
  {
    hide ApplyRemote, AcknowledgeKnown, ObserveAcknowledgement, Classify, SoundDriver, Applicable;
    AcknowledgementErrors(d.sync, m.acknowledged);
    if BeginReceive(d.sync, m).Ok? {
      var (sync, _, disposition) := BeginReceive(d.sync, m).value;
      AcknowledgeIsSound(d, l, m.acknowledged);
      var next := AcknowledgeKnown(d.(sync := sync)).value;
      if disposition.Apply? {
        ClassifyIsApplicable(sync, m);
        ApplyIsSound(next, l, disposition.plan, m.difference, apply);
      }
    }
  }

  lemma AcknowledgementErrors(s: Sync, acknowledged: nat)
    ensures ObserveAcknowledgement(s, acknowledged).Err? ==>
      ObserveAcknowledgement(s, acknowledged).error == GenerationExhausted
    ensures ObserveAcknowledgement(s, acknowledged).Ok? ==>
      ObserveAcknowledgement(s, acknowledged).value.0.localLatest == s.localLatest
  {
    hide HasSent, SentAbove;
  }

  lemma ShutdownIsSound<S, D>(d: Driver<S>, l: Ledger, m: Instruction<D>, apply: (S, D) -> Option<S>)
    requires SoundDriver(d, l)
    ensures
      var r := HandleRemoteShutdown(d, m, apply);
      && (r.Err? ==> !Internal(r.error))
      && (r.Ok? ==> SoundDriver(r.value, l) && r.value.sync.localLatest == d.sync.localLatest)
  {
    hide AcknowledgeKnown, ObserveAcknowledgement, Covered, Retained;
    var shutdown := if m.acknowledged == SHUTDOWN_STATE then m.(acknowledged := d.sync.known) else m;
    AcknowledgementErrors(d.sync, shutdown.acknowledged);
    if BeginShutdown(d.sync, shutdown).Ok? {
      AcknowledgeIsSound(d, l, shutdown.acknowledged);
    }
  }

  lemma InstructionIsSound<S, D>(d: Driver<S>, l: Ledger, m: Instruction<D>, closing: bool, apply: (S, D) -> Option<S>)
    requires SoundDriver(d, l)
    ensures
      var r := HandleInstruction(d, m, closing, apply);
      && (r.Err? ==> !Internal(r.error))
      && (r.Ok? ==> SoundDriver(r.value, l) && r.value.sync.localLatest == d.sync.localLatest)
  {
    hide SoundDriver, HandleNormalInstruction, HandleRemoteShutdown;
    if m.target == SHUTDOWN_STATE {
      ShutdownIsSound(d, l, m, apply);
    } else {
      var ordinary := if closing && m.acknowledged == SHUTDOWN_STATE then m.(acknowledged := d.sync.known) else m;
      NormalIsSound(d, l, ordinary, apply);
    }
  }

  // ------------------------------------------------------------------ every run

  predicate Extends(l: Ledger, next: Ledger) {
    l.all <= next.all && l.marks <= next.marks
  }

  lemma FaithfulStays(l: Ledger, next: Ledger, m: Outgoing)
    requires Faithful(l, m) && Extends(l, next)
    ensures Faithful(next, m)
  {
    if m.target == SHUTDOWN_STATE {
      var end :| l.marks[m.base] <= end <= |l.all| && m.difference == l.all[l.marks[m.base]..end];
      assert l.all[l.marks[m.base]..end] == next.all[next.marks[m.base]..end];
    } else {
      assert l.all[l.marks[m.base]..l.marks[m.target]] == next.all[next.marks[m.base]..next.marks[m.target]];
    }
  }

  /** A sound step: the next state fits the recorded ledger, no internal error
      ends the session, and whatever left is faithful even if the step failed. */
  ghost predicate SoundReaction<S, D>(d: Driver<S>, l: Ledger, event: Event<D>, turn: Turn<S>) {
    && (turn.next.Err? ==> !Internal(turn.next.error))
    && (turn.emitted.Some? ==> Faithful(Reached(l, turn.emitted.value), turn.emitted.value))
    && (turn.next.Ok? ==>
          var next := Recorded(l, event, d.sync.localLatest, turn.next.value.sync.localLatest);
          SoundDriver(turn.next.value, next) && (turn.emitted.Some? ==> Faithful(next, turn.emitted.value)))
  }

  /** A step that keeps the number of states, or adds one. */
  lemma TurnReacts<S, D>(d: Driver<S>, l: Ledger, event: Event<D>, turn: Turn<S>, advanced: bool)
    requires !event.Command? && SoundTurn(turn, if advanced then Marked(l) else l)
    requires turn.next.Ok? ==> turn.next.value.sync.localLatest == d.sync.localLatest + if advanced then 1 else 0
    requires advanced && turn.emitted.Some? ==> turn.emitted.value.target == |l.marks|
    ensures SoundReaction(d, l, event, turn)
  {
    hide SoundDriver, Faithful, Internal;
    if turn.emitted.Some? && !advanced { FaithfulStays(l, Reached(l, turn.emitted.value), turn.emitted.value); }
  }

  lemma CommandReacts<S, D>(d: Driver<S>, l: Ledger, op: Operation)
    requires SoundDriver(d, l)
    ensures SoundReaction(d, l, Event<D>.Command(op), Turn(HandleCommand(d, op), None))
  {
    hide SoundDriver, HandleCommand, Internal;
    if op == Input([]) {
      EmptyInputIgnored(d);
    } else {
      CommandIsSound(d, l, op);
    }
  }

  lemma TurnIsSound<S, D>(d: Driver<S>, l: Ledger, event: Event<D>, apply: (S, D) -> Option<S>)
    requires SoundDriver(d, l)
    ensures SoundReaction(d, l, event, React(d, event, apply))
  {
    hide SoundDriver, SoundReaction, Faithful, HandleCommand, HandleInstruction, SendInstruction, SendShutdownRequest,
      SendShutdownAcknowledgement, Internal;
    match event
    case Command(op) => CommandReacts<S, D>(d, l, op);
    case Send(now, rto, outcome) =>
      SendIsSound(d, l, now, rto, outcome);
      var turn := SendInstruction(d, now, rto, outcome);
      var kept := SoundTurn(turn, l) && (turn.next.Ok? ==> turn.next.value.sync.localLatest == d.sync.localLatest);
      TurnReacts(d, l, event, turn, !kept);
    case RequestShutdown(outcome) =>
      ShutdownRequestIsSound(d, l, outcome);
      TurnReacts(d, l, event, SendShutdownRequest(d, outcome), false);
    case AcknowledgeShutdown(now, rto, outcome) =>
      ShutdownAcknowledgementIsSound(d, l, now, rto, outcome);
      TurnReacts(d, l, event, SendShutdownAcknowledgement(d, now, rto, outcome), true);
    case Incoming(m, closing) =>
      InstructionIsSound(d, l, m, closing, apply);
      TurnReacts(d, l, event, Turn(HandleInstruction(d, m, closing, apply), None), false);
  }

  lemma EmptyInputIgnored<S>(d: Driver<S>)
    ensures HandleCommand(d, Input([])) == Ok(d)
  {
  }

  lemma StepIsSound<S, D>(s: Session<S>, event: Event<D>, apply: (S, D) -> Option<S>)
    requires Sound(s) && React(s.driver, event, apply).next.Ok?
    ensures Sound(Progressed(s, event, apply)) && Extends(s.ledger, Progressed(s, event, apply).ledger)
  {
    hide SoundDriver, Faithful, React;
    TurnIsSound(s.driver, s.ledger, event, apply);
    var next := Progressed(s, event, apply);
    forall m | m in next.emitted ensures Faithful(next.ledger, m) {
      if m in s.emitted { FaithfulStays(s.ledger, next.ledger, m); }
    }
  }

  /** Every reachable session is sound: each instruction it ever sent, also in the turn
      that ended it, carries the whole history between its two states. */
  lemma {:induction false} EveryRunIsSound<S, D>(s: Session<S>, events: seq<Event<D>>, apply: (S, D) -> Option<S>)
    requires Sound(s)
    ensures Sound(RunSession(s, events, apply)) && Extends(s.ledger, RunSession(s, events, apply).ledger)
    ensures
      var parting := Parting(s, events, apply);
      parting.Some? ==> Faithful(Reached(RunSession(s, events, apply).ledger, parting.value), parting.value)
    decreases |events|
  {
    hide React, Sound, Progressed, Faithful;
    if events != [] {
      if React(s.driver, events[0], apply).next.Ok? {
        StepIsSound(s, events[0], apply);
        EveryRunIsSound(Progressed(s, events[0], apply), events[1..], apply);
      } else if React(s.driver, events[0], apply).emitted.Some? {
        EndIsSound(s, events[0], apply);
      }
    }
  }

  lemma EndIsSound<S, D>(s: Session<S>, event: Event<D>, apply: (S, D) -> Option<S>)
    requires Sound(s) && React(s.driver, event, apply).emitted.Some?
    ensures
      var m := React(s.driver, event, apply).emitted.value;
      Faithful(Reached(s.ledger, m), m)
  {
    hide SoundDriver, Faithful, React;
    TurnIsSound(s.driver, s.ledger, event, apply);
  }

  // -------------------------------------------------------------- the beginning

  function Opening<S>(d: Driver<S>, columns: nat, rows: nat): Session<S> {
    Session(d, Ledger([Resize(columns, rows)], [0, 1]), {})
  }

  lemma OpeningIsSound<S>(initial: S, columns: nat, rows: nat)
    requires Connect(initial, columns, rows).Ok?
    ensures Sound(Opening(Connect(initial, columns, rows).value, columns, rows))
  {
    hide Encode;
    var blank := Driver(INITIAL, EMPTY_HISTORY, map[0 := initial], None);
    var l := Ledger([], [0]);
    assert Encode([]).Ok? by { EmptyEncodes(); }
    InitialIsRetained();
    assert Tracks(EMPTY_HISTORY, l);
    var op := Resize(columns, rows);
    AppendTracks(EMPTY_HISTORY, l, op);
    var with := blank.(history := Append(EMPTY_HISTORY, op).value);
    NewStateIsSound(with, Ledger([op], [0]));
    assert [] + [op] == [op] && [0] + [1] == [0, 1];
  }

  lemma EmptyEncodes()
    ensures Encode([]) == Ok([])
  {
  }

  /** The session of a client that connected and then handled `events`. */
  function After<S, D>(initial: S, columns: nat, rows: nat, events: seq<Event<D>>, apply: (S, D) -> Option<S>)
    : Session<S>
    requires Connect(initial, columns, rows).Ok?
  {
    RunSession(Opening(Connect(initial, columns, rows).value, columns, rows), events, apply)
  }

  /** Everything that may be on the network, and the history it is held against: also
      what the turn that ended the session sent, and the state it numbered for it. */
  function Transmitted<S, D>(initial: S, columns: nat, rows: nat, events: seq<Event<D>>, apply: (S, D) -> Option<S>)
    : (Ledger, set<Outgoing>)
    requires Connect(initial, columns, rows).Ok?
  {
    var s := After(initial, columns, rows, events, apply);
    match Parting(Opening(Connect(initial, columns, rows).value, columns, rows), events, apply)
    case None => (s.ledger, s.emitted)
    case Some(m) => (Reached(s.ledger, m), s.emitted + {m})
  }

  lemma TransmittedIsFaithful<S, D>(initial: S, columns: nat, rows: nat, events: seq<Event<D>>,
                                    apply: (S, D) -> Option<S>,
                                    m: Outgoing)
    requires Connect(initial, columns, rows).Ok? && m in Transmitted(initial, columns, rows, events, apply).1
    ensures Faithful(Transmitted(initial, columns, rows, events, apply).0, m)
  {
    hide RunSession, Parting, Connect, SoundDriver, Faithful;
    OpeningIsSound(initial, columns, rows);
    EveryRunIsSound(Opening(Connect(initial, columns, rows).value, columns, rows), events, apply);
    var s := After(initial, columns, rows, events, apply);
    if m in s.emitted { FaithfulStays(s.ledger, Transmitted(initial, columns, rows, events, apply).0, m); }
  }

  lemma AfterIsSound<S, D>(initial: S, columns: nat, rows: nat, events: seq<Event<D>>, apply: (S, D) -> Option<S>)
    requires Connect(initial, columns, rows).Ok?
    ensures Sound(After(initial, columns, rows, events, apply))
  {
    hide Sound, RunSession, Parting, Connect;
    OpeningIsSound(initial, columns, rows);
    EveryRunIsSound(Opening(Connect(initial, columns, rows).value, columns, rows), events, apply);
  }

  // ---------------------------------------------------------------- main results

  /** No session ever ends with a missing client or terminal state, a stale plan
      or a drain past the log; output always has a snapshot to start from. */
  lemma NeverMissesAState<S, D>(initial: S, columns: nat, rows: nat, events: seq<Event<D>>, event: Event<D>,
                                apply: (S, D) -> Option<S>)
    requires Connect(initial, columns, rows).Ok?
    ensures
      var s := After(initial, columns, rows, events, apply);
      var r := React(s.driver, event, apply).next;
      && (r.Err? ==> !Internal(r.error))
      && LatestTerminal(s.driver).Ok?
      && s.driver.terminals.Keys == set n | n in s.driver.sync.received
  {
    hide RunSession, Connect, React, Internal;
    AfterIsSound(initial, columns, rows, events, apply);
    var s := After(initial, columns, rows, events, apply);
    TurnIsSound(s.driver, s.ledger, event, apply);
    LatestIsKept(s.driver, s.ledger);
  }

  /** What a peer does with the instructions that reach it: build a state from
      another, or forget one. */
  datatype PeerAct = Take(m: Outgoing) | Forget(state: nat)

  function PeerRun(peer: map<nat, seq<Operation>>, acts: seq<PeerAct>): map<nat, seq<Operation>>
    decreases |acts|
  {
    if acts == [] then peer
    else
      PeerRun(match acts[0]
              case Take(m) => if m.base in peer then peer[m.target := peer[m.base] + m.difference] else peer
              case Forget(n) => peer - {n},
              acts[1..])
  }

  /** Every state the peer holds is the prefix of the history that its number
      stands for; the reserved state is some prefix. */
  predicate PeerHoldsPrefixes(peer: map<nat, seq<Operation>>, l: Ledger) {
    forall n :: n in peer ==>
      if n == SHUTDOWN_STATE then peer[n] <= l.all
      else n < |l.marks| && l.marks[n] <= |l.all| && peer[n] == l.all[..l.marks[n]]
  }

  lemma TakeKeepsPrefixes(peer: map<nat, seq<Operation>>, l: Ledger, m: Outgoing)
    requires PeerHoldsPrefixes(peer, l) && Faithful(l, m) && m.base in peer && m.base != SHUTDOWN_STATE
    ensures PeerHoldsPrefixes(peer[m.target := peer[m.base] + m.difference], l)
  {
    var value := peer[m.base] + m.difference;
    if m.target == SHUTDOWN_STATE {
      var end :| l.marks[m.base] <= end <= |l.all| && m.difference == l.all[l.marks[m.base]..end];
      assert value == l.all[..end];
    } else {
      assert value == l.all[..l.marks[m.target]];
    }
  }

  lemma {:induction false} PeerKeepsPrefixes(peer: map<nat, seq<Operation>>, l: Ledger, acts: seq<PeerAct>)
    requires PeerHoldsPrefixes(peer, l) && |l.marks| <= SHUTDOWN_STATE
    requires forall act :: act in acts && act.Take? ==> Faithful(l, act.m)
    ensures PeerHoldsPrefixes(PeerRun(peer, acts), l)
    decreases |acts|
  {
    hide Faithful, PeerHoldsPrefixes;
    if acts != [] {
      match acts[0]
      case Take(m) =>
        BaseIsOrdinary(l, m);
        if m.base in peer {
          TakeKeepsPrefixes(peer, l, m);
          PeerKeepsPrefixes(peer[m.target := peer[m.base] + m.difference], l, acts[1..]);
        } else {
          PeerKeepsPrefixes(peer, l, acts[1..]);
        }
      case Forget(n) =>
        ForgetKeepsPrefixes(peer, l, n);
        PeerKeepsPrefixes(peer - {n}, l, acts[1..]);
    }
  }

  lemma BaseIsOrdinary(l: Ledger, m: Outgoing)
    requires Faithful(l, m) && |l.marks| <= SHUTDOWN_STATE
    ensures m.base != SHUTDOWN_STATE
  {
  }

  lemma ForgetKeepsPrefixes(peer: map<nat, seq<Operation>>, l: Ledger, n: nat)
    requires PeerHoldsPrefixes(peer, l)
    ensures PeerHoldsPrefixes(peer - {n}, l)
  {
  }

  /** Exactly-once input.  Whatever the server sends, whatever is lost, repeated
      or reordered, every state a peer builds from the client's instructions is an
      exact prefix of the client's operations, also from one sent by the turn that
      ended the session; and what the peer is known to have together with the
      retained log is always the whole history. */
  lemma ExactlyOnce<S, D>(initial: S, columns: nat, rows: nat, events: seq<Event<D>>, apply: (S, D) -> Option<S>,
                          acts: seq<PeerAct>)
    requires Connect(initial, columns, rows).Ok?
    requires |Transmitted(initial, columns, rows, events, apply).0.marks| <= SHUTDOWN_STATE
    requires forall act :: act in acts && act.Take? ==> act.m in Transmitted(initial, columns, rows, events, apply).1
    ensures
      var s := After(initial, columns, rows, events, apply);
      var peer := PeerRun(map[0 := []], acts);
      && PeerHoldsPrefixes(peer, Transmitted(initial, columns, rows, events, apply).0)
      && (s.driver.sync.known in peer ==> peer[s.driver.sync.known] + s.driver.history.operations == s.ledger.all)
  {
    hide RunSession, Parting, Connect, PeerRun, Faithful, Encode;
    AfterIsSound(initial, columns, rows, events, apply);
    var s, l := After(initial, columns, rows, events, apply), Transmitted(initial, columns, rows, events, apply).0;
    forall act | act in acts && act.Take? ensures Faithful(l, act.m) {
      TransmittedIsFaithful(initial, columns, rows, events, apply, act.m);
    }
    PeerKeepsPrefixes(map[0 := []], l, acts);
    assert s.ledger.all == s.ledger.all[..s.driver.history.offset] + s.driver.history.operations;
  }

  /** The operations of the commands a session handled. */
  function Accepted<S, D>(s: Session<S>, events: seq<Event<D>>, apply: (S, D) -> Option<S>): seq<Operation>
    decreases |events|
  {
    if events == [] || React(s.driver, events[0], apply).next.Err? then []
    else
      (if events[0].Command? && events[0].op != Input([]) then [events[0].op] else [])
      + Accepted(Progressed(s, events[0], apply), events[1..], apply)
  }

  /** The history is exactly the commands, in order. */
  lemma {:induction false} HistoryIsCommands<S, D>(s: Session<S>, events: seq<Event<D>>, apply: (S, D) -> Option<S>)
    ensures RunSession(s, events, apply).ledger.all == s.ledger.all + Accepted(s, events, apply)
    decreases |events|
  {
    hide React;
    if events != [] && React(s.driver, events[0], apply).next.Ok? {
      HistoryIsCommands(Progressed(s, events[0], apply), events[1..], apply);
    }
  }
}
