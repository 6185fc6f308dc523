/** Numbering, planning and retention of synchronized states
    (`src/synchronization.rs`), as functions on values. */
module Synchronization {
  import opened Wrappers

  const SHUTDOWN_STATE: nat := U64_MAX
  const PROTOCOL_VERSION: nat := 2
  const MAX_SENT_STATES: nat := 32
  const MAX_RECEIVED_STATES: nat := 32
  const MIN_RTO: nat := 50
  const MAX_RTO: nat := 5000

  datatype SyncError =
    | StateNumberExhausted
    | InvalidAcknowledgement
    | IncompatibleVersion
    | InvalidStateTransition
    | InvalidThrowaway
    | InvalidRetransmissionTimeout
    | TimeMovedBackwards
    | NoNewState
    | StalePlan
    | GenerationExhausted

  /** What travels between the two ends; the difference is opaque here. */
  datatype Instruction<+D> = Instruction(
    version: nat, base: nat, target: nat, acknowledged: nat, throwaway: nat, difference: D)

  datatype SentState = SentState(number: nat, sentAt: nat)

  datatype Sync = Sync(
    localLatest: nat,
    known: nat,
    sent: seq<SentState>,
    senderGeneration: nat,
    remoteLatest: nat,
    floor: nat,
    received: seq<nat>,
    receiverGeneration: nat)

  const INITIAL: Sync := Sync(0, 0, [], 0, 0, 0, [0], 0)

  datatype SendPlan = SendPlan(
    generation: nat, base: nat, target: nat, acknowledged: nat, throwaway: nat, plannedAt: nat)
  {
    function ToInstruction<D>(difference: D): Instruction<D> {
      Instruction(PROTOCOL_VERSION, base, target, acknowledged, throwaway, difference)
    }
  }

  datatype ApplyPlan = ApplyPlan(
    generation: nat, base: nat, target: nat, throwaway: nat, becomesLatest: bool)

  datatype Acknowledgement = Advanced(from: nat, to: nat) | Current | Stale | Unknown

  datatype Disposition =
    | Apply(plan: ApplyPlan)
    | AlreadyConstructed
    | MissingReference
    | BelowThrowawayFloor
    | BelowRetentionWindow

  // ------------------------------------------------------------------- queues

  predicate HasSent(sent: seq<SentState>, number: nat) {
    exists i :: 0 <= i < |sent| && sent[i].number == number
  }

  function SentAbove(sent: seq<SentState>, number: nat): (r: seq<SentState>) {
    if sent == [] then []
    else
      var last := sent[|sent| - 1];
      SentAbove(sent[..|sent| - 1], number) + (if last.number > number then [last] else [])
  }

  function Restamped(sent: seq<SentState>, number: nat, at: nat): (r: seq<SentState>)
    ensures |r| == |sent|
    ensures forall i :: 0 <= i < |sent| ==>
      r[i] == if sent[i].number == number then SentState(number, at) else sent[i]
  {
    seq(|sent|, i requires 0 <= i < |sent| => if sent[i].number == number then SentState(number, at) else sent[i])
  }

  function AtLeast(numbers: seq<nat>, floor: nat): (r: seq<nat>) {
    if numbers == [] then []
    else
      var last := numbers[|numbers| - 1];
      AtLeast(numbers[..|numbers| - 1], floor) + (if last >= floor then [last] else [])
  }

  /** The first index holding a number above `target`, or the length. */
  function FirstAbove(numbers: seq<nat>, target: nat): (i: nat)
    ensures i <= |numbers|
    ensures forall j :: 0 <= j < i ==> numbers[j] <= target
    ensures i < |numbers| ==> numbers[i] > target
  {
    if numbers == [] then 0
    else if numbers[0] > target then 0
    else 1 + FirstAbove(numbers[1..], target)
  }

  function Inserted(numbers: seq<nat>, target: nat): seq<nat> {
    var i := FirstAbove(numbers, target);
    numbers[..i] + [target] + numbers[i..]
  }

  function Removed(numbers: seq<nat>, i: nat): seq<nat>
    requires i < |numbers|
  {
    numbers[..i] + numbers[i + 1..]
  }

  /** The slot a full queue gives up: the floor state is protected. */
  function FirstEvictable(received: seq<nat>, floor: nat): nat {
    if received != [] && received[0] == floor then 1 else 0
  }

  predicate CanRetain(s: Sync, target: nat) {
    |s.received| < MAX_RECEIVED_STATES ||
    (FirstEvictable(s.received, s.floor) < |s.received| && target > s.received[FirstEvictable(s.received, s.floor)])
  }

  // --------------------------------------------------------------- operations

  function AdvanceLocal(s: Sync): Result<Sync, SyncError> {
    if s.localLatest == U64_MAX then Err(StateNumberExhausted)
    else if s.senderGeneration == U64_MAX then Err(GenerationExhausted)
    else Ok(s.(localLatest := s.localLatest + 1, senderGeneration := s.senderGeneration + 1))
  }

  /** Scanning sent states from the newest for one that has not timed out. */
  function ScanSent(sent: seq<SentState>, known: nat, now: nat, rto: nat): Result<nat, SyncError> {
    if sent == [] then Ok(known)
    else
      var last := sent[|sent| - 1];
      if now < last.sentAt then Err(TimeMovedBackwards)
      else if now - last.sentAt < rto then Ok(last.number)
      else ScanSent(sent[..|sent| - 1], known, now, rto)
  }

  function PlanSend(s: Sync, now: nat, rto: nat): Result<SendPlan, SyncError> {
    if !(MIN_RTO <= rto <= MAX_RTO) then Err(InvalidRetransmissionTimeout)
    else
      match ScanSent(s.sent, s.known, now, rto)
      case Err(e) => Err(e)
      case Ok(base) =>
        if s.localLatest <= base then Err(NoNewState)
        else Ok(SendPlan(s.senderGeneration, base, s.localLatest, s.remoteLatest, s.known, now))
  }

  predicate PlanIsCurrent(s: Sync, plan: SendPlan) {
    && plan.generation == s.senderGeneration
    && plan.target == s.localLatest
    && plan.acknowledged == s.remoteLatest
    && plan.throwaway == s.known
  }

  /** The queue of sent states once `plan` went out, and the state it displaced. */
  function RecordSent(sent: seq<SentState>, plan: SendPlan): (seq<SentState>, Option<nat>) {
    if HasSent(sent, plan.target) then (Restamped(sent, plan.target, plan.plannedAt), None)
    else if |sent| == MAX_SENT_STATES then
      (sent[1..] + [SentState(plan.target, plan.plannedAt)], Some(sent[0].number))
    else (sent + [SentState(plan.target, plan.plannedAt)], None)
  }

  function CommitSend(s: Sync, plan: SendPlan): Result<(Sync, Option<nat>), SyncError> {
    if !PlanIsCurrent(s, plan) then Err(StalePlan)
    else if s.senderGeneration == U64_MAX then Err(GenerationExhausted)
    else
      var next := s.(senderGeneration := s.senderGeneration + 1);
      if plan.target > s.known then
        var (sent, evicted) := RecordSent(s.sent, plan);
        Ok((next.(sent := sent), evicted))
      else Ok((next, None))
  }

  function Validate<D>(s: Sync, m: Instruction<D>): Option<SyncError> {
    if m.version != PROTOCOL_VERSION then Some(IncompatibleVersion)
    else if m.acknowledged > s.localLatest then Some(InvalidAcknowledgement)
    else if m.target <= m.base then Some(InvalidStateTransition)
    else if m.throwaway > m.base then Some(InvalidThrowaway)
    else None
  }

  function ObserveAcknowledgement(s: Sync, acknowledged: nat): Result<(Sync, Acknowledgement), SyncError> {
    if acknowledged < s.known then Ok((s, Stale))
    else if acknowledged == s.known then Ok((s, Current))
    else if !HasSent(s.sent, acknowledged) then Ok((s, Unknown))
    else if s.senderGeneration == U64_MAX then Err(GenerationExhausted)
    else Ok((s.(known := acknowledged, sent := SentAbove(s.sent, acknowledged),
                senderGeneration := s.senderGeneration + 1), Advanced(s.known, acknowledged)))
  }

  function Classify<D>(s: Sync, m: Instruction<D>): Disposition {
    if m.target < s.floor || m.base < s.floor then BelowThrowawayFloor
    else if m.target in s.received then AlreadyConstructed
    else if m.base !in s.received then MissingReference
    else if !CanRetain(s, m.target) then BelowRetentionWindow
    else Apply(ApplyPlan(s.receiverGeneration, m.base, m.target, m.throwaway, m.target > s.remoteLatest))
  }

  function BeginReceive<D>(s: Sync, m: Instruction<D>): Result<(Sync, Acknowledgement, Disposition), SyncError> {
    match Validate(s, m)
    case Some(e) => Err(e)
    case None =>
      match ObserveAcknowledgement(s, m.acknowledged)
      case Err(e) => Err(e)
      case Ok((next, acknowledgement)) => Ok((next, acknowledgement, Classify(next, m)))
  }

  function BeginShutdown<D>(s: Sync, m: Instruction<D>): Result<(Sync, nat), SyncError> {
    if m.version != PROTOCOL_VERSION || m.target != SHUTDOWN_STATE || m.acknowledged > s.localLatest
       || m.throwaway > m.base || m.base < s.floor || m.base !in s.received
    then Err(InvalidStateTransition)
    else
      match ObserveAcknowledgement(s, m.acknowledged)
      case Err(e) => Err(e)
      case Ok((next, _)) => Ok((next, m.base))
  }

  datatype ReceiveCommit = ReceiveCommit(discardBefore: nat, evicted: Option<nat>)

  function Raised(s: Sync, plan: ApplyPlan): Sync {
    if plan.becomesLatest then
      var floor := if plan.throwaway > s.floor then plan.throwaway else s.floor;
      s.(remoteLatest := plan.target, floor := floor, received := AtLeast(s.received, floor))
    else s
  }

  /** The queue after making room for one more, and what was given up. */
  function MakeRoom(received: seq<nat>, floor: nat): (seq<nat>, Option<nat>) {
    if |received| == MAX_RECEIVED_STATES then
      var i := FirstEvictable(received, floor);
      (Removed(received, i), Some(received[i]))
    else (received, None)
  }

  function CommitReceive(s: Sync, plan: ApplyPlan): Result<(Sync, ReceiveCommit), SyncError> {
    if plan.generation != s.receiverGeneration || plan.base !in s.received || plan.target in s.received then
      Err(StalePlan)
    else if s.receiverGeneration == U64_MAX then Err(GenerationExhausted)
    else
      var raised := Raised(s, plan);
      var (room, evicted) := MakeRoom(raised.received, raised.floor);
      Ok((raised.(received := Inserted(room, plan.target), receiverGeneration := s.receiverGeneration + 1),
          ReceiveCommit(raised.floor, evicted)))
  }
}
