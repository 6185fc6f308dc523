/** What every event of a session does, told from the fields of the driver before it. */
module Turns {
  import opened Wrappers
  import opened ClientOperations
  import opened ClientHistories
  import opened Synchronization
  import opened Retention
  import opened Handlers
  import opened Delivery
  import opened Convergence
  import GivenUp
  import SyncRuns

  // --------------------------------------------------------------------- commands

  /** There are numbers left for one more local state. */
  predicate CanNumber(s: Sync) {
    s.localLatest != U64_MAX && s.senderGeneration != U64_MAX
  }

  /** The log takes one more operation. */
  predicate CanLog(h: History, op: Operation) {
    && h.next != U64_MAX && |h.operations| < 4_096
    && Allowed(op) && DifferenceLength(h.operations + [op]) <= 0x20_0000
  }

  lemma CanLogIff(h: History, l: Ledger, op: Operation)
    requires Tracks(h, l)
    ensures Append(h, op).Ok? <==> CanLog(h, op)
  {
    hide DifferenceLength, Encode, Allowed;
    EncodeIff(h.operations);
    EncodeIff(h.operations + [op]);
    EncodedAsIs(h.operations);
    EncodedAsIs(h.operations + [op]);
    var longer := h.operations + [op];
    assert longer[|h.operations|] == op;
    assert forall i :: 0 <= i < |h.operations| ==> longer[i] == h.operations[i];
  }

  lemma EncodedAsIs(ops: seq<Operation>)
    ensures Encode(ops).Ok? ==> Encode(ops) == Ok(ops)
  {
  }

  /** A command is taken exactly when the log and the numbers allow it, and makes one
      new local state; nothing received changes. */
  lemma CommandSays<S>(d: Driver<S>, l: Ledger, op: Operation)
    requires SoundDriver(d, l) && op != Input([])
    ensures HandleCommand(d, op).Ok? <==> CanLog(d.history, op) && CanNumber(d.sync)
    ensures HandleCommand(d, op).Ok? ==>
      var next := HandleCommand(d, op).value;
      && next.sync == d.sync.(localLatest := d.sync.localLatest + 1, senderGeneration := d.sync.senderGeneration + 1)
      && next.history.operations == d.history.operations + [op]
      && next.terminals == d.terminals && next.final == d.final
  {
    hide Covered, Retained, Encode, CanLog;
    LatestIsKept(d, l);
    assert Tracks(d.history, l) by { SoundDriverTracks(d, l); }
    CanLogIff(d.history, l, op);
  }

  lemma SoundDriverTracks<S>(d: Driver<S>, l: Ledger)
    requires SoundDriver(d, l)
    ensures Tracks(d.history, l)
  {
  }

  // ---------------------------------------------------------------------- sending

  /** A plan can be made for a number left. */
  predicate CanSend(s: Sync, now: nat, rto: nat) {
    && 50 <= rto <= 5_000
    && (s.sent != [] ==> s.sent[|s.sent| - 1].sentAt <= now)
    && (s.localLatest == BaseAt(s, now, rto) ==> CanNumber(s))
  }

  /** The state that goes out: a new one if there was nothing new. */
  function TargetAt(s: Sync, now: nat, rto: nat): nat {
    if s.localLatest == BaseAt(s, now, rto) then s.localLatest + 1 else s.localLatest
  }

  /** The state whose checkpoint a complete send gives up. */
  function Gone(sent: seq<SentState>, target: nat, outcome: Outcome): set<nat> {
    match Displaced(sent, target)
    case Some(oldest) => if outcome == Sent then {oldest} else {}
    case None => {}
  }

  /** Only the sending half changed: the latest state is `target`; after a complete send
      it is remembered under the time of sending, and otherwise as before. */
  predicate SentAs<S(==)>(d: Driver<S>, next: Driver<S>, target: nat, now: nat, outcome: Outcome) {
    && next.terminals == d.terminals && next.final == d.final
    && SyncRuns.SameReceiver(next.sync, d.sync) && next.sync.receiverGeneration == d.sync.receiverGeneration
    && next.sync.known == d.sync.known && next.sync.localLatest == target
    && next.history.operations == d.history.operations && next.history.offset == d.history.offset
    && next.history.checkpoints.Keys == d.history.checkpoints.Keys + {target} - Gone(d.sync.sent, target, outcome)
    && if outcome == Sent then
         Stamped(d.sync.sent, next.sync.sent, Displaced(d.sync.sent, target), SentState(target, now))
       else next.sync.sent == d.sync.sent
  }

  lemma PlannedSays<S>(d: Driver<S>, l: Ledger, plan: SendPlan, acknowledged: nat, outcome: Outcome)
    requires SoundDriver(d, l) && PlannedFrom(d.sync, plan) && PlanIsCurrent(d.sync, plan)
    ensures
      var turn := SendPlanned(d, plan, acknowledged, outcome);
      && turn.emitted.Some?
      && turn.emitted.value == Instruction(2, plan.base, plan.target, acknowledged, plan.throwaway,
                                           turn.emitted.value.difference)
      && (turn.next.Ok? <==> outcome != Broken && (outcome == Sent ==> d.sync.senderGeneration != U64_MAX))
      && (turn.next.Ok? ==> SentAs(d, turn.next.value, d.sync.localLatest, plan.plannedAt, outcome))
  {
    hide Covered, Retained, Difference, RecordSent, Stamped, Displaced;
    PlannedDifference(d, l, plan);
    LatestIsCheckpoint(d, l);
    if CommitSend(d.sync, plan).Ok? {
      CommitSendStamps(d.sync, plan);
    }
  }

  lemma LatestIsCheckpoint<S>(d: Driver<S>, l: Ledger)
    requires SoundDriver(d, l)
    ensures d.sync.localLatest in d.history.checkpoints
  {
  }

  /** Sending: exactly when an instruction goes out, all it says besides its
      difference, exactly when the turn succeeds, and what is remembered. */
  lemma SendSays<S>(d: Driver<S>, l: Ledger, now: nat, rto: nat, outcome: Outcome)
    requires SoundDriver(d, l)
    ensures
      var (s, turn) := (d.sync, SendInstruction(d, now, rto, outcome));
      var advanced := s.localLatest == BaseAt(s, now, rto);
      && (turn.emitted.Some? <==> CanSend(s, now, rto))
      && (turn.emitted.Some? ==>
            turn.emitted.value == Instruction(2, BaseAt(s, now, rto), TargetAt(s, now, rto), s.remoteLatest, s.known,
                                              turn.emitted.value.difference))
      && (turn.next.Ok? <==>
            && CanSend(s, now, rto) && outcome != Broken
            && (outcome == Sent ==> s.senderGeneration + (if advanced then 1 else 0) != U64_MAX))
      && (turn.next.Ok? ==> SentAs(d, turn.next.value, TargetAt(s, now, rto), now, outcome))
  {
    hide SendPlanned, SoundDriver, PlanSend, Stamped, Displaced, PlannedFrom;
    SoundDriverIsRetained(d, l);
    PlanSays(d.sync, now, rto);
    var plan := PlanSend(d.sync, now, rto);
    if plan.Ok? {
      PlanIsPlanned(d.sync, now, rto);
      PlannedSays(d, l, plan.value, plan.value.acknowledged, outcome);
    } else if plan == Err(NoNewState) && NewState(d).Ok? {
      NewStateFromSound(d, l);
      NewPlanSays(d, l, now, rto, outcome, d.sync.remoteLatest);
    }
  }

  /** The plan made right after a new state. */
  lemma NewPlanSays<S>(d: Driver<S>, l: Ledger, now: nat, rto: nat, outcome: Outcome, acknowledged: nat)
    requires SoundDriver(d, l) && NewState(d).Ok? && 50 <= rto <= 5_000
    requires d.sync.sent != [] ==> d.sync.sent[|d.sync.sent| - 1].sentAt <= now
    ensures
      var (s, next) := (d.sync, NewState(d).value);
      var r := PlanSend(next.sync, now, rto);
      && r == Ok(SendPlan(s.senderGeneration + 1, BaseAt(s, now, rto), s.localLatest + 1, s.remoteLatest, s.known, now))
      && var turn := SendPlanned(next, r.value, acknowledged, outcome);
         && turn.emitted.Some?
         && turn.emitted.value == Instruction(2, BaseAt(s, now, rto), s.localLatest + 1, acknowledged, s.known,
                                              turn.emitted.value.difference)
         && (turn.next.Ok? <==> outcome != Broken && (outcome == Sent ==> s.senderGeneration + 1 != U64_MAX))
         && (turn.next.Ok? ==> SentAs(d, turn.next.value, s.localLatest + 1, now, outcome))
  {
    hide SendPlanned, SoundDriver, PlanSend, Stamped, Displaced, PlannedFrom;
    var next := NewState(d).value;
    NewStateFromSound(d, l);
    SoundDriverIsRetained(d, l);
    SoundDriverIsRetained(next, Marked(l));
    BaseIsOld(d.sync, now, rto);
    PlanSays(next.sync, now, rto);
    PlanIsPlanned(next.sync, now, rto);
    PlannedSays(next, Marked(l), PlanSend(next.sync, now, rto).value, acknowledged, outcome);
  }

  lemma BaseIsOld(s: Sync, now: nat, rto: nat)
    requires Retained(s)
    ensures BaseAt(s, now, rto) <= s.localLatest
  {
  }

  /** The shutdown acknowledgement always makes a new state and carries the reserved
      number. */
  lemma AcknowledgementSays<S>(d: Driver<S>, l: Ledger, now: nat, rto: nat, outcome: Outcome)
    requires SoundDriver(d, l)
    ensures
      var (s, turn) := (d.sync, SendShutdownAcknowledgement(d, now, rto, outcome));
      && (turn.emitted.Some? <==> CanSend(s, now, rto) && CanNumber(s))
      && (turn.emitted.Some? ==>
            turn.emitted.value == Instruction(2, BaseAt(s, now, rto), s.localLatest + 1, U64_MAX, s.known,
                                              turn.emitted.value.difference))
      && (turn.next.Ok? <==>
            && CanSend(s, now, rto) && CanNumber(s) && outcome != Broken
            && (outcome == Sent ==> s.senderGeneration + 1 != U64_MAX))
      && (turn.next.Ok? ==> SentAs(d, turn.next.value, s.localLatest + 1, now, outcome))
  {
    hide SendPlanned, SoundDriver, PlanSend, Stamped, Displaced, PlannedFrom, SentAs;
    if NewState(d).Ok? {
      SoundDriverIsRetained(d, l);
      NewStateFromSound(d, l);
      SoundDriverIsRetained(NewState(d).value, Marked(l));
      BaseIsOld(d.sync, now, rto);
      PlanSays(NewState(d).value.sync, now, rto);
      if 50 <= rto <= 5_000 && (d.sync.sent != [] ==> d.sync.sent[|d.sync.sent| - 1].sentAt <= now) {
        NewPlanSays(d, l, now, rto, outcome, SHUTDOWN_STATE);
      }
    }
  }

  /** The shutdown request goes from the state known to the reserved one and changes
      nothing. */
  lemma RequestSays<S>(d: Driver<S>, l: Ledger, outcome: Outcome)
    requires SoundDriver(d, l)
    ensures
      var (s, turn) := (d.sync, SendShutdownRequest(d, outcome));
      && turn.emitted == Some(Instruction(2, s.known, U64_MAX, s.remoteLatest, s.known,
                                          l.all[l.marks[s.known]..|l.all|]))
      && (turn.next.Ok? <==> outcome != Broken) && (turn.next.Ok? ==> turn.next.value == d)
  {
    hide SoundDriver, Difference;
    RequestDifference(d, l);
  }

  // -------------------------------------------------------------------- receiving

  predicate Acceptable<D>(s: Sync, m: Instruction<D>) {
    m.version == 2 && m.acknowledged <= s.localLatest && m.base < m.target && m.throwaway <= m.base
  }

  /** The acknowledgement is news about a state that is remembered. */
  predicate Learns(s: Sync, acknowledged: nat) {
    acknowledged > s.known && HasSent(s.sent, acknowledged)
  }

  /** The queue has room for `target`, or holds something older to give up. */
  predicate HasRoom(s: Sync, target: nat) {
    |s.received| < 32 || exists x :: x in s.received && x != s.floor && x < target
  }

  /** The instruction goes from a state that is there to one that is not. */
  predicate Takes<D>(s: Sync, m: Instruction<D>) {
    m.base in s.received && m.target !in s.received && HasRoom(s, m.target)
  }

  lemma HasRoomIff(s: Sync, target: nat)
    requires Retained(s)
    ensures CanRetain(s, target) <==> HasRoom(s, target)
  {
    var i := FirstEvictable(s.received, s.floor);
    if |s.received| == 32 {
      assert s.received[i] in s.received && s.received[i] != s.floor;
      assert forall j :: 0 <= j < |s.received| ==> s.received[j] == s.floor || s.received[i] <= s.received[j];
    }
  }

  function PlanFor<D>(s: Sync, m: Instruction<D>): ApplyPlan {
    ApplyPlan(s.receiverGeneration, m.base, m.target, m.throwaway, m.target > s.remoteLatest)
  }

  /** What is done about an instruction, from the queue of received states alone. */
  lemma ClassifySays<D>(s: Sync, m: Instruction<D>)
    requires Retained(s) && m.base < m.target
    ensures Classify(s, m) ==
      if m.base < s.floor then BelowThrowawayFloor
      else if m.target in s.received then AlreadyConstructed
      else if m.base !in s.received then MissingReference
      else if !HasRoom(s, m.target) then BelowRetentionWindow
      else Apply(PlanFor(s, m))
    ensures Classify(s, m).Apply? <==> Takes(s, m)
  {
    hide CanRetain, HasRoom;
    HasRoomIff(s, m.target);
    if m.base in s.received { assert s.floor <= m.base; }
  }

  /** An instruction begins to be received exactly when it is acceptable and its
      acknowledgement can be counted; only the sending half learns from it. */
  lemma BeginSays<D>(s: Sync, m: Instruction<D>)
    requires Retained(s)
    ensures BeginReceive(s, m).Ok? <==>
      Acceptable(s, m) && (Learns(s, m.acknowledged) ==> s.senderGeneration != U64_MAX)
    ensures BeginReceive(s, m).Ok? ==>
      var next := BeginReceive(s, m).value.0;
      && Retained(next) && SyncRuns.SameReceiver(next, s) && next.receiverGeneration == s.receiverGeneration
      && next.localLatest == s.localLatest
      && next.known == (if Learns(s, m.acknowledged) then m.acknowledged else s.known)
      && (forall n: nat :: HasSent(next.sent, n) <==> HasSent(s.sent, n) && n > next.known)
      && BeginReceive(s, m).value.2 == Classify(s, m)
    ensures BeginReceive(s, m).Err? && m.version != 2 ==> BeginReceive(s, m).error == IncompatibleVersion
    ensures BeginReceive(s, m).Err? && m.version == 2 && m.acknowledged > s.localLatest ==>
      BeginReceive(s, m).error == InvalidAcknowledgement
  {
    hide Retained, HasSent, SentAbove, CanRetain;
    if Validate(s, m).None? {
      LearningSays(s, m.acknowledged);
      if ObserveAcknowledgement(s, m.acknowledged).Ok? {
        var next := ObserveAcknowledgement(s, m.acknowledged).value.0;
        SyncRuns.CanRetainReads(s, next, m.target);
      }
    }
  }

  lemma LearningSays(s: Sync, acknowledged: nat)
    requires Retained(s)
    ensures ObserveAcknowledgement(s, acknowledged).Ok? <==>
      (Learns(s, acknowledged) ==> s.senderGeneration != U64_MAX)
    ensures ObserveAcknowledgement(s, acknowledged).Ok? ==>
      var next := ObserveAcknowledgement(s, acknowledged).value.0;
      && Retained(next) && SyncRuns.SameReceiver(next, s) && next.receiverGeneration == s.receiverGeneration
      && next.localLatest == s.localLatest
      && next.known == (if Learns(s, acknowledged) then acknowledged else s.known)
      && (forall n: nat :: HasSent(next.sent, n) <==> HasSent(s.sent, n) && n > next.known)
      && ObserveAcknowledgement(s, acknowledged).value.1 ==
           (if acknowledged < s.known then Stale
            else if acknowledged == s.known then Current
            else if Learns(s, acknowledged) then Advanced(s.known, acknowledged)
            else Unknown)
  {
    hide Retained, HasSent, SentAbove;
    if ObserveAcknowledgement(s, acknowledged).Ok? { ObserveKeeps(s, acknowledged); }
  }

  /** The receiving half and the snapshots after an instruction was taken: its target
      with the difference applied, everything else that is kept as it was, and nothing
      below the new floor or crowded out. */
  ghost predicate TakenIn<S, D>(d: Driver<S>, next: Driver<S>, m: Instruction<D>, built: S) {
    var (s, t) := (d.sync, next.sync);
    && t.remoteLatest == (if m.target > s.remoteLatest then m.target else s.remoteLatest)
    && t.floor == (if m.target > s.remoteLatest && m.throwaway > s.floor then m.throwaway else s.floor)
    && (forall n :: n in t.received <==>
          n == m.target || (n in s.received && n >= t.floor && !GivenUp.Crowded(s, PlanFor(s, m), n)))
    && next.terminals.Keys == (set n | n in t.received)
    && m.target in next.terminals && next.terminals[m.target] == built
    && (forall n :: n in next.terminals && n != m.target ==> n in d.terminals && next.terminals[n] == d.terminals[n])
  }

  /** The snapshot that an instruction leads to. */
  function Built<S, D>(d: Driver<S>, m: Instruction<D>, apply: (S, D) -> Option<S>): Option<S> {
    if m.base in d.terminals then apply(d.terminals[m.base], m.difference) else None
  }

  lemma ApplySays<S, D>(d: Driver<S>, l: Ledger, m: Instruction<D>, apply: (S, D) -> Option<S>)
    requires SoundDriver(d, l) && m.throwaway <= m.base < m.target && Takes(d.sync, m)
    ensures
      var r := ApplyRemote(d, PlanFor(d.sync, m), m.difference, apply);
      && (r.Ok? <==> Built(d, m, apply).Some? && d.sync.receiverGeneration != U64_MAX)
      && (r.Ok? ==>
            && TakenIn(d, r.value, m, Built(d, m, apply).value)
            && r.value == d.(sync := r.value.sync, terminals := r.value.terminals)
            && SyncRuns.SameSender(r.value.sync, d.sync))
  {
    hide Covered, Retained, CanRetain, HasRoom, Raised, MakeRoom, Inserted, GivenUp.Crowded;
    var plan := PlanFor(d.sync, m);
    SoundDriverIsRetained(d, l);
    HasRoomIff(d.sync, m.target);
    AboveFloor(d.sync, m.base);
    if CommitReceive(d.sync, plan).Ok? {
      var (sync, commit) := CommitReceive(d.sync, plan).value;
      CommitReceiveKeeps(d.sync, plan);
      CommitKeepsSender(d.sync, plan);
      FloorSays(d.sync, plan);
      forall n: nat ensures Some(n) == commit.evicted <==> GivenUp.Crowded(d.sync, plan, n) {
        GivenUp.GivesUpIff(d.sync, plan, n);
      }
      AboveFloor(sync, m.target);
    }
  }

  lemma FloorSays(s: Sync, plan: ApplyPlan)
    requires CommitReceive(s, plan).Ok?
    ensures CommitReceive(s, plan).value.0.floor ==
      if plan.becomesLatest && plan.throwaway > s.floor then plan.throwaway else s.floor
  {
    hide AtLeast, MakeRoom, Inserted;
  }

  /** Receiving: exactly when an instruction is handled, and all it changes.  One that
      can be taken is; any other leaves the received states and snapshots alone. */
  lemma NormalSays<S, D>(d: Driver<S>, l: Ledger, m: Instruction<D>, apply: (S, D) -> Option<S>)
    requires SoundDriver(d, l)
    ensures
      var (s, r) := (d.sync, HandleNormalInstruction(d, m, apply));
      && (r.Ok? <==>
            && Acceptable(s, m)
            && (Learns(s, m.acknowledged) ==> s.senderGeneration != U64_MAX)
            && (Takes(s, m) ==> s.receiverGeneration != U64_MAX && Built(d, m, apply).Some?))
      && (r.Ok? ==>
            var t := r.value.sync;
            && r.value.final == d.final && t.localLatest == s.localLatest
            && t.known == (if Learns(s, m.acknowledged) then m.acknowledged else s.known)
            && (forall n: nat :: HasSent(t.sent, n) <==> HasSent(s.sent, n) && n > t.known)
            && if Takes(s, m) then TakenIn(d, r.value, m, Built(d, m, apply).value)
               else SyncRuns.SameReceiver(t, s) && r.value.terminals == d.terminals)
  {
    hide ApplyRemote, AcknowledgeKnown, ObserveAcknowledgement, Classify, SoundDriver, TakenIn, Takes, HasSent, Learns;
    SoundDriverIsRetained(d, l);
    BeginSays(d.sync, m);
    if BeginReceive(d.sync, m).Ok? {
      var (sync, _, disposition) := BeginReceive(d.sync, m).value;
      AcknowledgeIsSound(d, l, m.acknowledged);
      AcknowledgeOnlyLogs(d.(sync := sync));
      var next := AcknowledgeKnown(d.(sync := sync)).value;
      ClassifySays(d.sync, m);
      if Takes(d.sync, m) {
        TakesReads(d, next, m);
        ApplySays(next, l, m, apply);
        if ApplyRemote(next, disposition.plan, m.difference, apply).Ok? {
          TakenInReads(d, next, ApplyRemote(next, disposition.plan, m.difference, apply).value, m,
                       Built(d, m, apply).value);
        }
      }
    }
  }

  lemma AcknowledgeOnlyLogs<S>(d: Driver<S>)
    ensures AcknowledgeKnown(d).Ok? ==> AcknowledgeKnown(d).value == d.(history := AcknowledgeKnown(d).value.history)
  {
    hide Acknowledge;
  }

  lemma TakesReads<S, D>(d: Driver<S>, e: Driver<S>, m: Instruction<D>)
    requires SyncRuns.SameReceiver(e.sync, d.sync)
    ensures Takes(e.sync, m) == Takes(d.sync, m)
  {
  }

  lemma TakenInReads<S, D>(d: Driver<S>, e: Driver<S>, next: Driver<S>, m: Instruction<D>, built: S)
    requires SyncRuns.SameReceiver(e.sync, d.sync) && e.sync.receiverGeneration == d.sync.receiverGeneration
    requires e.terminals == d.terminals && TakenIn(e, next, m, built)
    ensures TakenIn(d, next, m, built)
  {
    hide AtLeast;
    forall n ensures GivenUp.Crowded(e.sync, PlanFor(e.sync, m), n) == GivenUp.Crowded(d.sync, PlanFor(d.sync, m), n) {
    }
  }

  /** The server's shutdown: exactly when it is handled; the final snapshot is its
      difference applied to a state received. */
  lemma ShutdownSays<S, D>(d: Driver<S>, l: Ledger, m: Instruction<D>, apply: (S, D) -> Option<S>)
    requires SoundDriver(d, l) && m.target == U64_MAX
    ensures
      var (s, r) := (d.sync, HandleRemoteShutdown(d, m, apply));
      var acknowledged := if m.acknowledged == U64_MAX then s.known else m.acknowledged;
      && (r.Ok? <==>
            && m.version == 2 && acknowledged <= s.localLatest && m.throwaway <= m.base && m.base in s.received
            && (Learns(s, acknowledged) ==> s.senderGeneration != U64_MAX) && Built(d, m, apply).Some?)
      && (r.Ok? ==>
            && r.value.final == Built(d, m, apply) && r.value.terminals == d.terminals
            && SyncRuns.SameReceiver(r.value.sync, s) && r.value.sync.localLatest == s.localLatest
            && r.value.sync.known == (if Learns(s, acknowledged) then acknowledged else s.known))
  {
    hide AcknowledgeKnown, ObserveAcknowledgement, Covered, Retained, HasSent;
    var shutdown := if m.acknowledged == SHUTDOWN_STATE then m.(acknowledged := d.sync.known) else m;
    SoundDriverIsRetained(d, l);
    if m.base in d.sync.received { AboveFloor(d.sync, m.base); }
    KnownBounds(d.sync);
    LearningSays(d.sync, shutdown.acknowledged);
    if BeginShutdown(d.sync, shutdown).Ok? {
      AcknowledgeIsSound(d, l, shutdown.acknowledged);
      AcknowledgeOnlyLogs(d.(sync := BeginShutdown(d.sync, shutdown).value.0));
    }
  }

  // -------------------------------------------------------------------- whole runs

  /** Commands and sending leave the received states alone. */
  lemma SendingKeepsLatest<S, D>(d: Driver<S>, event: Event<D>, apply: (S, D) -> Option<S>)
    requires !event.Incoming? && React(d, event, apply).next.Ok?
    ensures React(d, event, apply).next.value.sync.remoteLatest == d.sync.remoteLatest
  {
    hide PlanSend, RecordSent, Append, Difference;
  }

  /** The instruction as it is handled: while closing the reserved acknowledgement
      stands for what is known. */
  function Ordinary<D>(s: Sync, m: Instruction<D>, closing: bool): Instruction<D> {
    if closing && m.acknowledged == SHUTDOWN_STATE then m.(acknowledged := s.known) else m
  }

  /** No event takes the latest state back, and one that can be taken comes to stay. */
  lemma StepGrows<S, D>(d: Driver<S>, l: Ledger, event: Event<D>, apply: (S, D) -> Option<S>)
    requires SoundDriver(d, l) && React(d, event, apply).next.Ok?
    ensures
      var next := React(d, event, apply).next.value;
      && next.sync.remoteLatest >= d.sync.remoteLatest
      && (event.Incoming? && event.m.target != SHUTDOWN_STATE && Takes(d.sync, event.m) ==>
            next.sync.remoteLatest >= event.m.target)
  {
    hide HandleCommand, HandleNormalInstruction, HandleRemoteShutdown, SendInstruction, SendShutdownRequest,
      SendShutdownAcknowledgement, SoundDriver, HasSent, Learns, HasRoom;
    if !event.Incoming? {
      SendingKeepsLatest(d, event, apply);
    } else if event.m.target == SHUTDOWN_STATE {
      ShutdownSays(d, l, event.m, apply);
    } else {
      NormalSays(d, l, Ordinary(d.sync, event.m, event.closing), apply);
    }
  }

  lemma {:induction false} RunGrows<S, D>(s: Session<S>, events: seq<Event<D>>, apply: (S, D) -> Option<S>)
    requires Sound(s)
    ensures RunSession(s, events, apply).driver.sync.remoteLatest >= s.driver.sync.remoteLatest
    decreases |events|
  {
    hide React, SoundDriver, Faithful;
    if events != [] && React(s.driver, events[0], apply).next.Ok? {
      StepGrows(s.driver, s.ledger, events[0], apply);
      StepIsSound(s, events[0], apply);
      RunGrows(Progressed(s, events[0], apply), events[1..], apply);
    }
  }

  /** An instruction of the server that can be taken when it arrives: whatever happened
      before and happens afterwards, output starts from a state of the server that is
      at least as new. */
  lemma DeliveredIsShown<S, D>(initial: S, columns: nat, rows: nat, before: seq<Event<D>>, m: Instruction<D>,
                               closing: bool, later: seq<Event<D>>, truth: nat -> S, apply: (S, D) -> Option<S>)
    requires Connect(initial, columns, rows).Ok? && truth(0) == initial && m.target != SHUTDOWN_STATE
    requires forall event :: event in before + [Incoming(m, closing)] + later ==> TruthfulEvent(event, truth, apply)
    requires
      var d := After(initial, columns, rows, before, apply).driver;
      Takes(d.sync, m) && React(d, Incoming(m, closing), apply).next.Ok?
    ensures
      var s := After(initial, columns, rows, before, apply);
      var d := RunSession(s, [Incoming(m, closing)] + later, apply).driver;
      && d.sync.remoteLatest >= m.target
      && LatestTerminal(d) == Ok(truth(if d.final.Some? then SHUTDOWN_STATE else d.sync.remoteLatest))
  {
    hide Connect, React, RunSession, TruthfulEvent, Sound, Converged, LatestTerminal, Takes;
    AfterIsSound(initial, columns, rows, before, apply);
    OpeningConverges(initial, columns, rows, truth);
    var opening := Opening(Connect(initial, columns, rows).value, columns, rows);
    RunConverges(opening, before, truth, apply);
    ArrivalStays(After(initial, columns, rows, before, apply), m, closing, later, truth, apply);
  }

  lemma ArrivalStays<S, D>(s: Session<S>, m: Instruction<D>, closing: bool, later: seq<Event<D>>, truth: nat -> S,
                           apply: (S, D) -> Option<S>)
    requires Sound(s) && Converged(s.driver, truth) && m.target != SHUTDOWN_STATE
    requires forall event :: event in [Incoming(m, closing)] + later ==> TruthfulEvent(event, truth, apply)
    requires Takes(s.driver.sync, m) && React(s.driver, Incoming(m, closing), apply).next.Ok?
    ensures
      var d := RunSession(s, [Incoming(m, closing)] + later, apply).driver;
      && d.sync.remoteLatest >= m.target
      && LatestTerminal(d) == Ok(truth(if d.final.Some? then SHUTDOWN_STATE else d.sync.remoteLatest))
  {
    hide React, SoundDriver, Faithful, TruthfulEvent, Takes;
    var all := [Incoming(m, closing)] + later;
    assert all[0] == Incoming(m, closing) && all[1..] == later;
    StepGrows(s.driver, s.ledger, all[0], apply);
    StepIsSound(s, all[0], apply);
    RunGrows(Progressed(s, all[0], apply), later, apply);
    RunConverges(s, all, truth, apply);
    EveryRunIsSound(s, all, apply);
    var last := RunSession(s, all, apply);
    LatestIsKept(last.driver, last.ledger);
  }

  // ------------------------------------------------------- a server without losses

  /** One instruction from each state to the next. */
  function Stream<D>(differences: nat -> D, from: nat, end: nat): seq<Event<D>>
    requires from <= end
  {
    seq(end - from, i requires 0 <= i =>
      Incoming(Instruction(2, from + i, from + i + 1, 0, 0, differences(from + i)), false))
  }

  lemma {:induction false} FollowsFrom<S, D>(s: Session<S>, differences: nat -> D, from: nat, end: nat, truth: nat -> S,
                                             apply: (S, D) -> Option<S>)
    requires Sound(s) && Converged(s.driver, truth) && from <= end < U64_MAX
    requires s.driver.sync.remoteLatest == from && s.driver.sync.receiverGeneration == from
    requires s.driver.sync.known == 0 && s.driver.final.None?
    requires forall n: nat :: n < end ==> apply(truth(n), differences(n)) == Some(truth(n + 1))
    ensures
      var d := RunSession(s, Stream(differences, from, end), apply).driver;
      d.sync.remoteLatest == end && LatestTerminal(d) == Ok(truth(end))
    decreases end - from
  {
    hide React, SoundDriver, Faithful, Stream;
    var events := Stream(differences, from, end);
    if from == end {
      assert events == [] by { StreamSplits(differences, from, end); }
      LatestIsKept(s.driver, s.ledger);
    } else {
      StreamSplits(differences, from, end);
      var next := NextFollows(s, differences, from, truth, apply);
      FollowsFrom(next, differences, from + 1, end, truth, apply);
    }
  }

  lemma StreamSplits<D>(differences: nat -> D, from: nat, end: nat)
    requires from <= end
    ensures from == end ==> Stream(differences, from, end) == []
    ensures from < end ==>
      && Stream(differences, from, end) != []
      && Stream(differences, from, end)[0] == Incoming(Instruction(2, from, from + 1, 0, 0, differences(from)), false)
      && Stream(differences, from, end)[1..] == Stream(differences, from + 1, end)
  {
  }

  lemma NextFollows<S, D>(s: Session<S>, differences: nat -> D, n: nat, truth: nat -> S, apply: (S, D) -> Option<S>)
    returns (next: Session<S>)
    requires Sound(s) && Converged(s.driver, truth) && n + 1 < U64_MAX
    requires s.driver.sync.remoteLatest == n && s.driver.sync.receiverGeneration == n
    requires s.driver.sync.known == 0 && s.driver.final.None?
    requires apply(truth(n), differences(n)) == Some(truth(n + 1))
    ensures
      var event := Incoming(Instruction(2, n, n + 1, 0, 0, differences(n)), false);
      React(s.driver, event, apply).next.Ok? && next == Progressed(s, event, apply)
    ensures Sound(next) && Converged(next.driver, truth)
    ensures next.driver.sync.remoteLatest == n + 1 && next.driver.sync.receiverGeneration == n + 1
    ensures next.driver.sync.known == 0 && next.driver.final.None?
  {
    hide HandleNormalInstruction, Covered, HasSent, Faithful;
    var m := Instruction(2, n, n + 1, 0, 0, differences(n));
    LatestIsKept(s.driver, s.ledger);
    NewestIsTaken(s.driver.sync, m);
    NormalSays(s.driver, s.ledger, m, apply);
    GenerationCounts(s.driver, m, apply);
    StepConverges(s, Incoming(m, false), truth, apply);
    StepIsSound(s, Incoming(m, false), apply);
    next := Progressed(s, Incoming(m, false), apply);
  }

  lemma NewestIsTaken<D>(s: Sync, m: Instruction<D>)
    requires Retained(s) && m.base == s.remoteLatest < m.target
    ensures Takes(s, m)
  {
    assert s.received[|s.received| - 1] == m.base;
    if |s.received| == 32 { assert s.received[1] in s.received; }
  }

  lemma GenerationCounts<S, D>(d: Driver<S>, m: Instruction<D>, apply: (S, D) -> Option<S>)
    requires HandleNormalInstruction(d, m, apply).Ok?
    ensures
      var t := HandleNormalInstruction(d, m, apply).value.sync;
      t.receiverGeneration == d.sync.receiverGeneration + (if Classify(d.sync, m).Apply? then 1 else 0)
  {
    hide Acknowledge, HasSent, SentAbove, CanRetain, Raised, MakeRoom, Inserted, DiscardTerminals;
    if Validate(d.sync, m).None? && ObserveAcknowledgement(d.sync, m.acknowledged).Ok? {
      SyncRuns.CanRetainReads(d.sync, ObserveAcknowledgement(d.sync, m.acknowledged).value.0, m.target);
    }
  }

  /** If every instruction of a server that goes from each state to the next arrives, the
      client follows it: it shows the server's state of that number. */
  lemma FollowsServer<S, D>(initial: S, columns: nat, rows: nat, differences: nat -> D, k: nat, truth: nat -> S,
                            apply: (S, D) -> Option<S>)
    requires Connect(initial, columns, rows).Ok? && truth(0) == initial && k < U64_MAX
    requires forall n: nat :: n < k ==> apply(truth(n), differences(n)) == Some(truth(n + 1))
    ensures
      var d := After(initial, columns, rows, Stream(differences, 0, k), apply).driver;
      d.sync.remoteLatest == k && LatestTerminal(d) == Ok(truth(k))
  {
    hide RunSession, Sound, Converged, Append;
    OpeningIsSound(initial, columns, rows);
    OpeningConverges(initial, columns, rows, truth);
    FollowsFrom(Opening(Connect(initial, columns, rows).value, columns, rows), differences, 0, k, truth, apply);
  }
}
