/** Two synchronization states exchanging instructions over a network that may
    lose, duplicate and reorder them. */
module TwoPeers {
  import opened Wrappers
  import opened Synchronization
  import opened Retention
  import opened SyncRuns

  /** Instructions stay in flight once sent: delivering any of them, any number
      of times, in any order, or never, is every behaviour of the network. */
  datatype World<D(==)> = World(
    left: Endpoint, right: Endpoint, toRight: set<Instruction<D>>, toLeft: set<Instruction<D>>)
  {
    function Swapped(): World<D> {
      World(right, left, toLeft, toRight)
    }
  }

  datatype Action<+D> =
    | Local
    | Transmit(now: nat, rto: nat, difference: D)
    | CommitSent(send: SendPlan)
    | Deliver(m: Instruction<D>)
    | CommitDelivered(apply: ApplyPlan)

  /** One action of the left end.  A transmitted instruction may arrive whether
      or not its plan is ever committed. */
  function LeftStep<D(==)>(w: World<D>, action: Action<D>): World<D> {
    match action
    case Local => w.(left := Next(w.left, Event<D>.Advance))
    case Transmit(now, rto, difference) =>
      (match PlanSend(w.left.sync, now, rto)
       case Err(_) => w
       case Ok(plan) =>
         w.(left := Next(w.left, Event<D>.Plan(now, rto)), toRight := w.toRight + {plan.ToInstruction(difference)}))
    case CommitSent(plan) => w.(left := Next(w.left, Event<D>.Commit(plan)))
    case Deliver(m) => if m in w.toLeft then w.(left := Next(w.left, Event.Receive(m))) else w
    case CommitDelivered(plan) => w.(left := Next(w.left, Event<D>.CommitApply(plan)))
  }

  datatype Move<+D> = Move(byLeft: bool, action: Action<D>)

  function Step<D(==)>(w: World<D>, move: Move<D>): World<D> {
    if move.byLeft then LeftStep(w, move.action) else LeftStep(w.Swapped(), move.action).Swapped()
  }

  function RunWorld<D(==)>(w: World<D>, moves: seq<Move<D>>): World<D>
    decreases |moves|
  {
    if moves == [] then w else RunWorld(Step(w, moves[0]), moves[1..])
  }

  function Opening<D(==)>(): World<D> {
    World(START, START, {}, {})
  }

  // ---------------------------------------------------------------- invariant

  /** The numbers of one direction: what `y` may discard, what `x` knows `y`
      has, what `y` has, what `x` has. */
  predicate Aligned(x: Sync, y: Sync) {
    y.floor <= x.known <= y.remoteLatest <= x.localLatest
  }

  predicate Sendable<D>(x: Sync, m: Instruction<D>) {
    && m.version == PROTOCOL_VERSION
    && m.throwaway <= m.base < m.target <= x.localLatest
    && m.throwaway <= x.known
    && m.acknowledged <= x.remoteLatest
  }

  predicate Expected(x: Sync, p: ApplyPlan) {
    p.target <= x.localLatest && p.throwaway <= x.known
  }

  predicate Direction<D(==)>(x: Endpoint, y: Endpoint, flight: set<Instruction<D>>) {
    && Aligned(x.sync, y.sync)
    && (forall m :: m in flight ==> Sendable(x.sync, m))
    && (forall p :: p in y.applies ==> Expected(x.sync, p))
  }

  predicate Safe<D(==)>(w: World<D>) {
    && Consistent(w.left) && Consistent(w.right)
    && Direction(w.left, w.right, w.toRight)
    && Direction(w.right, w.left, w.toLeft)
  }

  /** An end's own numbers only grow. */
  predicate Grows(s: Sync, t: Sync) {
    && s.localLatest <= t.localLatest && s.known <= t.known
    && s.remoteLatest <= t.remoteLatest && s.floor <= t.floor
  }

  lemma AcknowledgedGrows(s: Sync, acknowledged: nat)
    requires Retained(s) && ObserveAcknowledgement(s, acknowledged).Ok?
    ensures
      var next := ObserveAcknowledgement(s, acknowledged).value.0;
      && Grows(s, next) && SameReceiver(s, next) && next.localLatest == s.localLatest
      && (next.known == s.known || next.known == acknowledged)
  {
    hide SentAbove, HasSent, Retained;
  }

  /** Taking in an instruction of the other end. */
  lemma ReceiveKeepsDirections<D>(x: Endpoint, y: Endpoint, toY: set<Instruction<D>>, toX: set<Instruction<D>>,
                                  m: Instruction<D>)
    requires Consistent(x) && Direction(x, y, toY) && Direction(y, x, toX) && m in toX
    ensures
      var next := Next(x, Event.Receive(m));
      Direction(next, y, toY) && Direction(y, next, toX) && Grows(x.sync, next.sync)
  {
    hide Retained, SentAbove, HasSent, PlanSend, CommitSend, CommitReceive, ObserveAcknowledgement,
      SendTokenFits, ApplyTokenFits, AdvanceLocal, CanRetain;
    if BeginReceive(x.sync, m).Ok? {
      AcknowledgedGrows(x.sync, m.acknowledged);
    }
  }

  lemma CommitDeliveredKeepsDirections<D>(x: Endpoint, y: Endpoint, toY: set<Instruction<D>>, toX: set<Instruction<D>>,
                                          plan: ApplyPlan)
    requires Consistent(x) && Direction(x, y, toY) && Direction(y, x, toX)
    ensures
      var next := Next(x, Event<D>.CommitApply(plan));
      Direction(next, y, toY) && Direction(y, next, toX) && Grows(x.sync, next.sync)
  {
    hide Retained, SentAbove, HasSent, PlanSend, CommitSend, MakeRoom, Inserted, AtLeast, ObserveAcknowledgement,
      Classify, SendTokenFits, AdvanceLocal, CanRetain;
    if plan in x.applies && CommitReceive(x.sync, plan).Ok? {
      assert ApplyTokenFits(x.sync, plan);
      assert Expected(y.sync, plan);
    }
  }

  lemma SendingKeepsDirections<D>(x: Endpoint, y: Endpoint, toY: set<Instruction<D>>, toX: set<Instruction<D>>,
                                  event: Event<D>)
    requires Direction(x, y, toY) && Direction(y, x, toX)
    requires event.Advance? || event.Plan? || event.Commit?
    ensures
      var next := Next(x, event);
      Direction(next, y, toY) && Direction(y, next, toX) && Grows(x.sync, next.sync)
  {
    hide PlanSend, RecordSent;
  }

  /** A plan made now lies at or above everything the peer may have discarded. */
  lemma PlanAboveFloor<D>(w: World<D>, now: nat, rto: nat, difference: D)
    requires Safe(w) && PlanSend(w.left.sync, now, rto).Ok?
    ensures
      var m := PlanSend(w.left.sync, now, rto).value.ToInstruction(difference);
      && w.right.sync.floor <= m.base < m.target
      && Sendable(w.left.sync, m)
      && Classify(w.right.sync, m) != BelowThrowawayFloor
  {
    hide Retained, ScanSent, HasSent, CanRetain, SendTokenFits, ApplyTokenFits;
    PlanIsPlanned(w.left.sync, now, rto);
  }

  /** No end ever rejects an instruction of the other. */
  lemma NeverRejected<D>(w: World<D>, m: Instruction<D>)
    requires Safe(w) && m in w.toLeft
    ensures Validate(w.left.sync, m).None?
    ensures BeginReceive(w.left.sync, m).Err? ==>
      BeginReceive(w.left.sync, m) == Err(GenerationExhausted) && w.left.sync.senderGeneration == U64_MAX
  {
    hide Consistent, HasSent, SentAbove, Classify;
    assert Sendable(w.right.sync, m);
  }

  lemma LeftStepKeeps<D>(w: World<D>, action: Action<D>)
    requires Safe(w)
    ensures Safe(LeftStep(w, action))
  {
    hide Next, Consistent, Direction, PlanSend, Sendable;
    match action
    case Local =>
      StepKeeps(w.left, Event<D>.Advance);
      SendingKeepsDirections(w.left, w.right, w.toRight, w.toLeft, Event<D>.Advance);
    case Transmit(now, rto, difference) =>
      if PlanSend(w.left.sync, now, rto).Ok? {
        StepKeeps(w.left, Event<D>.Plan(now, rto));
        SendingKeepsDirections(w.left, w.right, w.toRight, w.toLeft, Event<D>.Plan(now, rto));
        PlanAboveFloor(w, now, rto, difference);
        TransmitAdds(w, now, rto, difference);
      }
    case CommitSent(plan) =>
      StepKeeps(w.left, Event<D>.Commit(plan));
      SendingKeepsDirections(w.left, w.right, w.toRight, w.toLeft, Event<D>.Commit(plan));
    case Deliver(m) =>
      if m in w.toLeft {
        StepKeeps(w.left, Event.Receive(m));
        ReceiveKeepsDirections(w.left, w.right, w.toRight, w.toLeft, m);
      }
    case CommitDelivered(plan) =>
      StepKeeps(w.left, Event<D>.CommitApply(plan));
      CommitDeliveredKeepsDirections(w.left, w.right, w.toRight, w.toLeft, plan);
  }

  lemma TransmitAdds<D>(w: World<D>, now: nat, rto: nat, difference: D)
    requires PlanSend(w.left.sync, now, rto).Ok?
    requires Direction(Next(w.left, Event<D>.Plan(now, rto)), w.right, w.toRight)
    requires Sendable(w.left.sync, PlanSend(w.left.sync, now, rto).value.ToInstruction(difference))
    ensures Direction(Next(w.left, Event<D>.Plan(now, rto)), w.right,
                      w.toRight + {PlanSend(w.left.sync, now, rto).value.ToInstruction(difference)})
  {
    hide PlanSend;
  }

  lemma StepKeepsSafe<D>(w: World<D>, move: Move<D>)
    requires Safe(w)
    ensures Safe(Step(w, move))
  {
    hide LeftStep, Consistent, Direction;
    if move.byLeft {
      LeftStepKeeps(w, move.action);
    } else {
      assert Safe(w.Swapped());
      LeftStepKeeps(w.Swapped(), move.action);
    }
  }

  /** Safety over every run of both ends and the network. */
  lemma {:induction false} EveryRunIsSafe<D>(w: World<D>, moves: seq<Move<D>>)
    requires Safe(w)
    ensures Safe(RunWorld(w, moves))
    decreases |moves|
  {
    hide Safe, Step;
    if moves != [] {
      StepKeepsSafe(w, moves[0]);
      EveryRunIsSafe(Step(w, moves[0]), moves[1..]);
    }
  }

  /** From the start: the numbers of both directions stay aligned, and every
      instruction in flight is accepted. */
  lemma PeersStayAligned<D>(moves: seq<Move<D>>)
    ensures
      var w := RunWorld(Opening<D>(), moves);
      && Aligned(w.left.sync, w.right.sync) && Aligned(w.right.sync, w.left.sync)
      && (forall m :: m in w.toLeft ==> Validate(w.left.sync, m).None?)
      && (forall m :: m in w.toRight ==> Validate(w.right.sync, m).None?)
  {
    hide RunWorld, Consistent, Validate;
    OpeningIsSafe<D>();
    EveryRunIsSafe(Opening<D>(), moves);
    var w := RunWorld(Opening<D>(), moves);
    forall m | m in w.toLeft ensures Validate(w.left.sync, m).None? { NeverRejected(w, m); }
    forall m | m in w.toRight ensures Validate(w.right.sync, m).None? {
      assert Safe(w.Swapped());
      NeverRejected(w.Swapped(), m);
    }
  }

  lemma InitialIsConsistent()
    ensures Consistent(START)
  {
  }

  lemma OpeningIsSafe<D>()
    ensures Safe(Opening<D>())
  {
    hide Consistent;
    InitialIsConsistent();
  }
}
