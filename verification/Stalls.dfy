/** Worlds in which the left end can never again bring the right one anything new,
    and exactly when that is so. */
module Stalls {
  import opened Wrappers
  import opened Synchronization
  import opened Retention
  import opened SyncRuns
  import opened TwoPeers

  /** Nothing in flight to the right end can be applied, nothing it has begun to apply
      can be committed, and nothing in flight to the left end acknowledges a state
      that it remembers sending. */
  predicate Drained<D(==)>(w: World<D>) {
    && (forall m :: m in w.toRight ==> !Classify(w.right.sync, m).Apply?)
    && (forall p :: p in w.right.applies ==> p.generation != w.right.sync.receiverGeneration)
    && (forall m :: m in w.toLeft ==> !HasSent(w.left.sync.sent, m.acknowledged))
  }

  /** The state sent last. */
  predicate IsNewest(sent: seq<SentState>, n: nat) {
    sent != [] && sent[|sent| - 1].number == n
  }

  /** The right end has neither the state known nor the one sent last, and its latest
      state is older than the left end's and not remembered by it. */
  predicate Groundless(x: Sync, y: Sync) {
    && x.known !in y.received
    && (forall n :: IsNewest(x.sent, n) ==> n !in y.received)
    && !HasSent(x.sent, y.remoteLatest)
    && y.remoteLatest < x.localLatest
  }

  predicate Stuck<D(==)>(w: World<D>) {
    Safe(w) && Drained(w) && Groundless(w.left.sync, w.right.sync)
  }

  // ----------------------------------------------------------------------- for ever

  lemma LatestIsLargest(s: Sync, n: nat)
    requires Retained(s)
    ensures s.remoteLatest in s.received
    ensures n in s.received ==> s.floor <= n <= s.remoteLatest
  {
  }

  /** A new instruction is based on a state that the right end does not have. */
  lemma PlanIsGroundless<D>(w: World<D>, now: nat, rto: nat, difference: D)
    requires Stuck(w) && PlanSend(w.left.sync, now, rto).Ok?
    ensures !Classify(w.right.sync, PlanSend(w.left.sync, now, rto).value.ToInstruction(difference)).Apply?
  {
    hide Retained, ScanSent, HasSent, CanRetain, Drained, Direction, SendTokenFits, ApplyTokenFits, Ordered;
    var x := w.left.sync;
    assert Ordered(x.sent) by { OrderedSent(x); }
    ScanPicksNewestOrKnown(x.sent, x.known, now, rto);
    if x.sent != [] { assert IsNewest(x.sent, x.sent[|x.sent| - 1].number); }
  }

  lemma OrderedSent(s: Sync)
    requires Retained(s)
    ensures Ordered(s.sent)
  {
  }

  /** What is sent is newer than anything the right end has. */
  lemma SendingStaysGroundless(x: Sync, y: Sync, plan: SendPlan)
    requires Retained(x) && Retained(y) && PlannedFrom(x, plan) && CommitSend(x, plan).Ok? && Groundless(x, y)
    ensures Groundless(CommitSend(x, plan).value.0, y)
    ensures forall n: nat :: n <= y.remoteLatest && HasSent(CommitSend(x, plan).value.0.sent, n) ==> HasSent(x.sent, n)
  {
    hide Retained, PlannedFrom, HasSent;
    var (next, evicted) := CommitSend(x, plan).value;
    CommitSendKeeps(x, plan);
    LatestIsLargest(y, x.localLatest);
    NewestAfterSend(x, plan);
  }

  lemma NewestAfterSend(x: Sync, plan: SendPlan)
    requires Retained(x) && PlannedFrom(x, plan) && CommitSend(x, plan).Ok?
    ensures
      var next := CommitSend(x, plan).value.0;
      next.known == x.known && next.localLatest == x.localLatest
      && forall n :: IsNewest(next.sent, n) ==> n == x.localLatest
  {
    if HasSent(x.sent, plan.target) {
      var k :| 0 <= k < |x.sent| && x.sent[k].number == plan.target;
      assert k == |x.sent| - 1;
    }
  }

  lemma LocalStaysStuck<D>(w: World<D>)
    requires Stuck(w)
    ensures StaysStuck(w, Step(w, Move(true, Local)))
  {
    hide Safe, Classify, HasSent;
    StepKeepsSafe(w, Move(true, Local));
  }

  /** Still stuck, with the same state known on the left and the same states on the
      right. */
  predicate StaysStuck<D(==)>(w: World<D>, v: World<D>) {
    && Stuck(v)
    && v.left.sync.known == w.left.sync.known
    && SameReceiver(v.right.sync, w.right.sync)
    && v.right.sync.receiverGeneration == w.right.sync.receiverGeneration
  }

  lemma TransmitStaysStuck<D>(w: World<D>, now: nat, rto: nat, difference: D)
    requires Stuck(w)
    ensures StaysStuck(w, Step(w, Move(true, Transmit(now, rto, difference))))
  {
    hide Safe, Classify, HasSent, PlanSend, Groundless;
    StepKeepsSafe(w, Move(true, Transmit(now, rto, difference)));
    if PlanSend(w.left.sync, now, rto).Ok? { PlanIsGroundless(w, now, rto, difference); }
  }

  lemma CommitStaysStuck<D>(w: World<D>, plan: SendPlan)
    requires Stuck(w)
    ensures StaysStuck(w, Step(w, Move(true, CommitSent(plan))))
  {
    hide Retained, Direction, Classify, HasSent, CommitSend, PlannedFrom, Groundless, ApplyTokenFits, Safe;
    var x, y := w.left.sync, w.right.sync;
    StepKeepsSafe(w, Move(true, CommitSent(plan)));
    if plan in w.left.sends && CommitSend(x, plan).Ok? {
      Parts(w);
      assert SendTokenFits(x, plan);
      SendCommitMatches(x, plan);
      SendingStaysGroundless(x, y, plan);
      NewestAfterSend(x, plan);
    }
  }

  lemma Parts<D>(w: World<D>)
    requires Safe(w)
    ensures Consistent(w.left) && Consistent(w.right) && Retained(w.left.sync) && Retained(w.right.sync)
    ensures forall m :: m in w.toLeft ==> Sendable(w.right.sync, m)
    ensures forall m :: m in w.toRight ==> Sendable(w.left.sync, m)
  {
    hide Retained, ApplyTokenFits, SendTokenFits, Sendable;
  }

  /** No acknowledgement in flight names a state that is remembered. */
  lemma DeliverLeftStaysStuck<D>(w: World<D>, m: Instruction<D>)
    requires Stuck(w)
    ensures StaysStuck(w, Step(w, Move(true, Deliver(m))))
  {
    hide Safe, Classify, HasSent, Groundless, Validate, SentAbove;
    StepKeepsSafe(w, Move(true, Deliver(m)));
  }

  lemma CommitLeftStaysStuck<D>(w: World<D>, plan: ApplyPlan)
    requires Stuck(w)
    ensures StaysStuck(w, Step(w, Move(true, CommitDelivered(plan))))
  {
    hide Safe, Classify, HasSent, MakeRoom, Inserted, AtLeast;
    StepKeepsSafe(w, Move(true, CommitDelivered(plan)));
  }

  // ------------------------------------------------------------ moves of the right end

  /** Classification looks at the receiving half only. */
  lemma ClassifyReads<D>(s: Sync, t: Sync, m: Instruction<D>)
    requires SameReceiver(s, t)
    ensures Classify(s, m).Apply? == Classify(t, m).Apply?
  {
  }

  lemma SameReceiverStaysStuck<D>(w: World<D>, v: World<D>)
    requires Stuck(w) && Safe(v) && v.left == w.left && v.toRight == w.toRight
    requires SameReceiver(v.right.sync, w.right.sync) && v.right.applies <= w.right.applies
    requires v.right.sync.receiverGeneration == w.right.sync.receiverGeneration
    requires forall m :: m in v.toLeft ==> m in w.toLeft || m.acknowledged == w.right.sync.remoteLatest
    ensures StaysStuck(w, v)
  {
    hide Safe, Classify, HasSent;
    forall m | m in v.toRight ensures !Classify(v.right.sync, m).Apply? {
      ClassifyReads(v.right.sync, w.right.sync, m);
    }
  }

  lemma RightStaysStuck<D>(w: World<D>, action: Action<D>)
    requires Stuck(w)
    ensures StaysStuck(w, Step(w, Move(false, action)))
  {
    hide Safe, Classify, HasSent, Groundless, StaysStuck, ScanSent, RecordSent, Validate, SentAbove, MakeRoom,
      Inserted, AtLeast;
    var v := Step(w, Move(false, action));
    StepKeepsSafe(w, Move(false, action));
    if action.Deliver? && BeginReceive(w.right.sync, action.m).Ok? && action.m in w.toRight {
      var next := BeginReceive(w.right.sync, action.m).value.0;
      ClassifyReads(w.right.sync, next, action.m);
    }
    SameReceiverStaysStuck(w, v);
  }

  lemma StepStaysStuck<D>(w: World<D>, move: Move<D>)
    requires Stuck(w)
    ensures StaysStuck(w, Step(w, move))
  {
    hide Stuck, StaysStuck, Step;
    if !move.byLeft {
      RightStaysStuck(w, move.action);
    } else {
      match move.action
      case Local => LocalStaysStuck(w);
      case Transmit(now, rto, difference) => TransmitStaysStuck(w, now, rto, difference);
      case CommitSent(plan) => CommitStaysStuck(w, plan);
      case Deliver(m) => DeliverLeftStaysStuck(w, m);
      case CommitDelivered(plan) => CommitLeftStaysStuck(w, plan);
    }
  }

  /** Whatever happens from then on, nothing new reaches the right end. */
  lemma {:induction false} StuckForEver<D>(w: World<D>, moves: seq<Move<D>>)
    requires Stuck(w)
    ensures StaysStuck(w, RunWorld(w, moves))
    decreases |moves|
  {
    hide Stuck, Step;
    if moves != [] {
      StepStaysStuck(w, moves[0]);
      StuckForEver(Step(w, moves[0]), moves[1..]);
    }
  }

  // -------------------------------------------------------------------- exactly when

  lemma {:induction false} RunAppends<D>(w: World<D>, first: seq<Move<D>>, more: seq<Move<D>>)
    ensures RunWorld(w, first + more) == RunWorld(RunWorld(w, first), more)
    decreases |first|
  {
    hide Step;
    if first == [] {
      assert first + more == more;
    } else {
      assert (first + more)[1..] == first[1..] + more;
      RunAppends(Step(w, first[0]), first[1..], more);
    }
  }

  lemma RunOfOne<D>(w: World<D>, move: Move<D>)
    ensures RunWorld(w, [move]) == Step(w, move)
  {
    hide Step;
    assert [move][1..] == [];
  }

  lemma RunOfTwo<D>(w: World<D>, first: Move<D>, second: Move<D>)
    ensures RunWorld(w, [first, second]) == Step(Step(w, first), second)
  {
    hide Step;
    assert [first, second][1..] == [second];
    RunOfOne(Step(w, first), second);
  }

  /** Some further run brings the right end a newer state. */
  ghost predicate CanLearn<D(!new)>(w: World<D>) {
    exists moves: seq<Move<D>> :: RunWorld(w, moves).right.sync.remoteLatest > w.right.sync.remoteLatest
  }

  /** Neither end is about to run out of numbers. */
  predicate Roomy<D(==)>(w: World<D>) {
    && w.left.sync.localLatest < U64_MAX && w.left.sync.senderGeneration + 2 < U64_MAX
    && w.right.sync.localLatest < U64_MAX && w.right.sync.senderGeneration + 1 < U64_MAX
    && w.right.sync.receiverGeneration < U64_MAX
  }

  /** The left end's next state arrives if it is based on one the right end has. */
  lemma NextStateArrives<D>(w: World<D>, now: nat, base: nat, difference: D) returns (moves: seq<Move<D>>)
    requires Safe(w) && w.left.sync.localLatest < U64_MAX && w.left.sync.senderGeneration < U64_MAX
    requires w.right.sync.senderGeneration < U64_MAX && w.right.sync.receiverGeneration < U64_MAX
    requires ScanSent(w.left.sync.sent, w.left.sync.known, now, MIN_RTO) == Ok(base) && base in w.right.sync.received
    ensures RunWorld(w, moves).right.sync.remoteLatest == w.left.sync.localLatest + 1
  {
    var m: Instruction<D>;
    moves, m := Shipping(w, now, base, difference);
    var v := RunWorld(w, moves);
    var more := Arrives(v, m);
    RunAppends(w, moves, more);
    moves := moves + more;
  }

  lemma Shipping<D>(w: World<D>, now: nat, base: nat, difference: D) returns (moves: seq<Move<D>>, m: Instruction<D>)
    requires Safe(w) && w.left.sync.localLatest < U64_MAX && w.left.sync.senderGeneration < U64_MAX
    requires ScanSent(w.left.sync.sent, w.left.sync.known, now, MIN_RTO) == Ok(base) && base in w.right.sync.received
    ensures
      var v := RunWorld(w, moves);
      && Safe(v) && m in v.toRight && v.right == w.right && m.base == base
      && m.target == w.left.sync.localLatest + 1
  {
    hide Safe, ScanSent;
    moves := [Move(true, Local), Move(true, Transmit(now, MIN_RTO, difference))];
    var u := Step(w, moves[0]);
    StepKeepsSafe(w, moves[0]);
    StepKeepsSafe(u, moves[1]);
    var v := Step(u, moves[1]);
    BaseIsOld(w, base);
    var plan := SendPlan(u.left.sync.senderGeneration, base, u.left.sync.localLatest, u.left.sync.remoteLatest,
                         u.left.sync.known, now);
    assert PlanSend(u.left.sync, now, MIN_RTO) == Ok(plan);
    m := plan.ToInstruction(difference);
    RunOfTwo(w, moves[0], moves[1]);
  }

  /** Nothing received is newer than what the other end has. */
  lemma BaseIsOld<D>(w: World<D>, base: nat)
    requires Safe(w) && base in w.right.sync.received
    ensures base <= w.right.sync.remoteLatest <= w.left.sync.localLatest
  {
    hide Consistent, Retained;
    Parts(w);
    LatestIsLargest(w.right.sync, base);
  }

  /** An instruction to a newer state from one that the right end has. */
  lemma Arrives<D>(w: World<D>, m: Instruction<D>) returns (moves: seq<Move<D>>)
    requires Safe(w) && m in w.toRight && m.base in w.right.sync.received && m.target > w.right.sync.remoteLatest
    requires w.right.sync.senderGeneration < U64_MAX && w.right.sync.receiverGeneration < U64_MAX
    ensures RunWorld(w, moves).right.sync.remoteLatest == m.target
  {
    hide Retained, Consistent, ObserveAcknowledgement, Validate, CanRetain, Direction, MakeRoom, Inserted, AtLeast;
    var s := w.right.sync;
    assert Safe(w.Swapped());
    NeverRejected(w.Swapped(), m);
    Parts(w);
    AcknowledgedGrows(s, m.acknowledged);
    AcknowledgedGeneration(s, m.acknowledged);
    var (next, _, disposition) := BeginReceive(s, m).value;
    LatestIsLargest(s, m.base);
    LatestIsLargest(s, m.target);
    NewestFits(s, m.target);
    CanRetainReads(s, next, m.target);
    assert disposition.Apply?;
    var plan := disposition.plan;
    moves := [Move(false, Deliver(m)), Move(false, CommitDelivered(plan))];
    var u := Step(w, moves[0]);
    assert plan in u.right.applies && u.right.sync == next;
    assert CommitReceive(next, plan).Ok?;
    RunOfTwo(w, moves[0], moves[1]);
  }

  lemma AcknowledgedGeneration(s: Sync, acknowledged: nat)
    requires ObserveAcknowledgement(s, acknowledged).Ok?
    ensures ObserveAcknowledgement(s, acknowledged).value.0.receiverGeneration == s.receiverGeneration
  {
    hide SentAbove, HasSent;
  }

  lemma NewestFits(s: Sync, target: nat)
    requires Retained(s) && target > s.remoteLatest
    ensures CanRetain(s, target)
  {
  }

  // ------------------------------------------------------------------ three ways out

  /** The state known is there: wait for everything sent since to time out. */
  lemma FromKnown<D>(w: World<D>, difference: D) returns (moves: seq<Move<D>>)
    requires Safe(w) && w.left.sync.localLatest < U64_MAX && w.left.sync.senderGeneration < U64_MAX
    requires w.right.sync.senderGeneration < U64_MAX && w.right.sync.receiverGeneration < U64_MAX
    requires w.left.sync.known in w.right.sync.received
    ensures RunWorld(w, moves).right.sync.remoteLatest == w.left.sync.localLatest + 1
  {
    hide Safe, RunWorld;
    var x := w.left.sync;
    var now := if x.sent == [] then 0 else x.sent[|x.sent| - 1].sentAt + MIN_RTO;
    Parts(w);
    OrderedSent(x);
    ScanPicksNewestOrKnown(x.sent, x.known, now, MIN_RTO);
    moves := NextStateArrives(w, now, x.known, difference);
  }

  /** The state sent last is there: send at once. */
  lemma FromNewest<D>(w: World<D>, difference: D) returns (moves: seq<Move<D>>)
    requires Safe(w) && w.left.sync.localLatest < U64_MAX && w.left.sync.senderGeneration < U64_MAX
    requires w.right.sync.senderGeneration < U64_MAX && w.right.sync.receiverGeneration < U64_MAX
    requires exists n :: IsNewest(w.left.sync.sent, n) && n in w.right.sync.received
    ensures RunWorld(w, moves).right.sync.remoteLatest == w.left.sync.localLatest + 1
  {
    hide Safe, RunWorld;
    var last := w.left.sync.sent[|w.left.sync.sent| - 1];
    moves := NextStateArrives(w, last.sentAt, last.number, difference);
  }

  /** The latest state of the right end is remembered: its acknowledgement makes that
      the state known. */
  lemma FromLatest<D>(w: World<D>, difference: D) returns (moves: seq<Move<D>>)
    requires Safe(w) && w.left.sync.localLatest < U64_MAX && w.left.sync.senderGeneration + 1 < U64_MAX
    requires w.right.sync.localLatest < U64_MAX && w.right.sync.senderGeneration + 1 < U64_MAX
    requires w.right.sync.receiverGeneration < U64_MAX
    requires HasSent(w.left.sync.sent, w.right.sync.remoteLatest)
    ensures RunWorld(w, moves).right.sync.remoteLatest == w.left.sync.localLatest + 1
  {
    hide Safe, RunWorld;
    moves := Acknowledging(w, difference);
    var v := RunWorld(w, moves);
    var more := FromKnown(v, difference);
    RunAppends(w, moves, more);
    moves := moves + more;
  }

  lemma Acknowledging<D>(w: World<D>, difference: D) returns (moves: seq<Move<D>>)
    requires Safe(w) && w.left.sync.senderGeneration < U64_MAX
    requires w.right.sync.localLatest < U64_MAX && w.right.sync.senderGeneration < U64_MAX
    requires HasSent(w.left.sync.sent, w.right.sync.remoteLatest)
    ensures
      var v := RunWorld(w, moves);
      && Safe(v) && v.left.sync.known == v.right.sync.remoteLatest && v.left.sync.known in v.right.sync.received
      && v.left.sync.localLatest == w.left.sync.localLatest
      && v.left.sync.senderGeneration == w.left.sync.senderGeneration + 1
      && v.right.sync.senderGeneration == w.right.sync.senderGeneration + 1
      && v.right.sync.receiverGeneration == w.right.sync.receiverGeneration
  {
    hide Safe, ScanSent, Consistent, Retained, HasSent, SentAbove, Classify, Validate, Ordered;
    var y := w.right.sync;
    var now := if y.sent == [] then 0 else y.sent[|y.sent| - 1].sentAt;
    Parts(w);
    Bounds(y);
    ScanPicksNewestOrKnown(y.sent, y.known, now, MIN_RTO);
    var base := if y.sent == [] then y.known else y.sent[|y.sent| - 1].number;
    var plan := SendPlan(y.senderGeneration + 1, base, y.localLatest + 1, y.remoteLatest, y.known, now);
    var m := plan.ToInstruction(difference);
    moves := [Move(false, Local), Move(false, Transmit(now, MIN_RTO, difference)), Move(true, Deliver(m))];
    var u := Step(w, moves[0]);
    assert PlanSend(u.right.sync, now, MIN_RTO) == Ok(plan);
    var v := Step(u, moves[1]);
    assert m in v.toLeft && v.left == w.left;
    StepKeepsSafe(w, moves[0]);
    StepKeepsSafe(u, moves[1]);
    StepKeepsSafe(v, moves[2]);
    NeverRejected(v, m);
    SentIsUnknown(w.left.sync, y.remoteLatest);
    LatestIsLargest(y, y.remoteLatest);
    var z := Step(v, moves[2]);
    assert z.left.sync.known == y.remoteLatest;
    RunOfTwo(w, moves[0], moves[1]);
    RunOfOne(v, moves[2]);
    RunAppends(w, moves[..2], moves[2..]);
    assert moves == moves[..2] + moves[2..];
  }

  lemma Bounds(s: Sync)
    requires Retained(s)
    ensures Ordered(s.sent) && s.known <= s.localLatest
    ensures s.sent != [] ==> s.sent[|s.sent| - 1].number <= s.localLatest
  {
  }

  lemma SentIsUnknown(s: Sync, n: nat)
    requires Retained(s) && HasSent(s.sent, n)
    ensures s.known < n
  {
  }

  /** The right end has all there is: sending it again makes it remembered. */
  lemma FromEqual<D>(w: World<D>, difference: D) returns (moves: seq<Move<D>>)
    requires Safe(w) && Roomy(w) && w.left.sync.localLatest == w.right.sync.remoteLatest
    requires w.left.sync.known !in w.right.sync.received && !HasSent(w.left.sync.sent, w.right.sync.remoteLatest)
    ensures RunWorld(w, moves).right.sync.remoteLatest == w.left.sync.localLatest + 1
  {
    hide Safe, RunWorld, HasSent;
    moves := Resending(w, difference);
    var v := RunWorld(w, moves);
    var more := FromLatest(v, difference);
    RunAppends(w, moves, more);
    moves := moves + more;
  }

  lemma Resending<D>(w: World<D>, difference: D) returns (moves: seq<Move<D>>)
    requires Safe(w) && Roomy(w) && w.left.sync.localLatest == w.right.sync.remoteLatest
    requires w.left.sync.known !in w.right.sync.received && !HasSent(w.left.sync.sent, w.right.sync.remoteLatest)
    ensures
      var v := RunWorld(w, moves);
      && Safe(v) && HasSent(v.left.sync.sent, v.right.sync.remoteLatest) && v.right == w.right
      && v.left.sync.localLatest == w.left.sync.localLatest
      && v.left.sync.senderGeneration == w.left.sync.senderGeneration + 1
  {
    hide Safe, ScanSent, Consistent, Retained, HasSent, RecordSent, Ordered;
    var x := w.left.sync;
    var now := if x.sent == [] then 0 else x.sent[|x.sent| - 1].sentAt;
    Parts(w);
    Bounds(x);
    LatestIsLargest(w.right.sync, 0);
    ScanPicksNewestOrKnown(x.sent, x.known, now, MIN_RTO);
    NewestIsSent(x.sent);
    var plan := PlanSend(x, now, MIN_RTO).value;
    PlanIsPlanned(x, now, MIN_RTO);
    CommitSendKeeps(x, plan);
    moves := [Move(true, Transmit(now, MIN_RTO, difference)), Move(true, CommitSent(plan))];
    var u := Step(w, moves[0]);
    StepKeepsSafe(w, moves[0]);
    StepKeepsSafe(u, moves[1]);
    assert plan in u.left.sends && u.left.sync == x;
    RunOfTwo(w, moves[0], moves[1]);
  }

  lemma NewestIsSent(sent: seq<SentState>)
    ensures sent != [] ==> HasSent(sent, sent[|sent| - 1].number)
  {
  }

  /** The left end can bring the right one something new whenever it has some ground
      to build on; and when nothing is on its way any more, only then. */
  lemma CanLearnIff<D(!new)>(w: World<D>, difference: D)
    requires Safe(w) && Roomy(w)
    ensures !Groundless(w.left.sync, w.right.sync) ==> CanLearn(w)
    ensures Drained(w) ==> (CanLearn(w) <==> !Groundless(w.left.sync, w.right.sync))
  {
    hide Safe, Drained, RunWorld, HasSent;
    var x, y := w.left.sync, w.right.sync;
    if !Groundless(x, y) {
      Parts(w);
      LatestIsLargest(y, 0);
      BaseIsOld(w, y.remoteLatest);
      var moves: seq<Move<D>>;
      if x.known in y.received {
        moves := FromKnown(w, difference);
      } else if exists n :: IsNewest(x.sent, n) && n in y.received {
        moves := FromNewest(w, difference);
      } else if HasSent(x.sent, y.remoteLatest) {
        moves := FromLatest(w, difference);
      } else {
        moves := FromEqual(w, difference);
      }
      assert RunWorld(w, moves).right.sync.remoteLatest > y.remoteLatest;
    } else if Drained(w) {
      forall moves: seq<Move<D>> ensures RunWorld(w, moves).right.sync.remoteLatest == y.remoteLatest {
        StuckForEver(w, moves);
      }
    }
  }
}
