/** A run from the start after which nothing new ever reaches the right end. */
module StallRun {
  import opened Wrappers
  import opened Synchronization
  import opened Retention
  import opened SyncRuns
  import opened TwoPeers
  import opened Stalls

  /** The last state to arrive, and the last to be sent. */
  const ARRIVED: nat := 32
  const SENT: nat := 64
  const PAUSE: nat := 100

  /** The instruction that carries state `k`, based on the one before. */
  function Shot<D>(k: nat, d: D): Instruction<D>
    requires k >= 1
  {
    Instruction(PROTOCOL_VERSION, k - 1, k, 0, 0, d)
  }

  /** Instructions so far: to each early state from the one before, to each later one
      from state 1. */
  predicate Shape<D>(m: Instruction<D>) {
    (m.target <= ARRIVED && m.base + 1 == m.target) || (m.target > ARRIVED && m.base == 1)
  }

  predicate Flight<D(==)>(flight: set<Instruction<D>>, k: nat, d: D) {
    && (forall i :: 1 <= i <= k ==> Shot(i, d) in flight)
    && (forall m :: m in flight ==> Shape(m))
  }

  // --------------------------------------------------- the left end sends 32 states

  predicate Sending<D(==)>(w: World<D>, k: nat, d: D) {
    var x := w.left.sync;
    && x == Sync(k, 0, x.sent, 2 * k, 0, 0, [0], 0) && |x.sent| == k
    && (forall i :: 0 <= i < k ==> x.sent[i] == SentState(i + 1, 0))
    && w.right == START && w.toLeft == {} && Flight(w.toRight, k, d)
  }

  lemma SendOne<D>(w: World<D>, k: nat, d: D) returns (moves: seq<Move<D>>)
    requires Sending(w, k, d) && k < ARRIVED
    ensures Sending(RunWorld(w, moves), k + 1, d)
  {
    var x := w.left.sync;
    var plan := SendPlan(2 * k + 1, k, k + 1, 0, 0, 0);
    moves := [Move(true, Local), Move(true, Transmit(0, MIN_RTO, d)), Move(true, CommitSent(plan))];
    var u := Step(w, moves[0]);
    assert PlanSend(u.left.sync, 0, MIN_RTO) == Ok(plan);
    var v := Step(u, moves[1]);
    assert plan.ToInstruction(d) == Shot(k + 1, d);
    assert !HasSent(x.sent, k + 1);
    RunOfThree(w, moves);
  }

  lemma RunOfThree<D>(w: World<D>, moves: seq<Move<D>>)
    requires |moves| == 3
    ensures RunWorld(w, moves) == Step(Step(Step(w, moves[0]), moves[1]), moves[2])
  {
    hide Step;
    assert moves[1..] == [moves[1], moves[2]];
    RunOfTwo(Step(w, moves[0]), moves[1], moves[2]);
  }

  lemma {:induction false} SendMany<D>(k: nat, d: D) returns (moves: seq<Move<D>>)
    requires k <= ARRIVED
    ensures Sending(RunWorld(Opening<D>(), moves), k, d)
  {
    if k == 0 {
      moves := [];
    } else {
      hide Sending, RunWorld;
      moves := SendMany(k - 1, d);
      var more := SendOne(RunWorld(Opening<D>(), moves), k - 1, d);
      RunAppends(Opening<D>(), moves, more);
      moves := moves + more;
    }
  }

  // --------------------------------------------------- the right end applies them all

  /** Since it applied state 1 and acknowledged it, the left end knows of that one. */
  predicate Applying<D(==)>(w: World<D>, k: nat, d: D) {
    var (x, y) := (w.left.sync, w.right.sync);
    && x == Sync(ARRIVED, 1, x.sent, 65, 0, 0, [0], 0) && |x.sent| == ARRIVED - 1
    && (forall i :: 0 <= i < |x.sent| ==> x.sent[i] == SentState(i + 2, 0))
    && y == Sync(1, 0, [], 1, k, 0, y.received, k) && |y.received| == k + 1 && w.right.applies == {}
    && (forall i :: 0 <= i <= k ==> y.received[i] == i)
    && (forall m :: m in w.toLeft ==> m.acknowledged == 1)
    && Flight(w.toRight, ARRIVED, d)
  }

  /** The right end takes in an instruction to a newer state and commits it. */
  lemma ApplyNext<D>(w: World<D>, k: nat, d: D) returns (moves: seq<Move<D>>)
    requires 1 <= k && Shot(k, d) in w.toRight && w.right.sync.known == 0
    requires w.right.sync.remoteLatest == k - 1 && w.right.sync.floor == 0 && Ascending(w.right.sync.received)
    requires w.right.sync.received != [] && w.right.sync.received[|w.right.sync.received| - 1] == k - 1
    requires |w.right.sync.received| <= MAX_RECEIVED_STATES && w.right.sync.receiverGeneration < U64_MAX
    ensures
      var y := w.right.sync;
      var v := RunWorld(w, moves);
      && v.left == w.left && v.toLeft == w.toLeft && v.toRight == w.toRight
      && v.right.sync == y.(remoteLatest := k, receiverGeneration := y.receiverGeneration + 1,
                            received := MakeRoom(y.received, 0).0 + [k])
      && v.right.applies <= w.right.applies
  {
    hide MakeRoom, AtLeast, Inserted;
    var y := w.right.sync;
    var m := Shot(k, d);
    var plan := ApplyPlan(y.receiverGeneration, k - 1, k, 0, true);
    NewestIsAppended(y.received, k);
    assert Classify(y, m) == Apply(plan);
    moves := [Move(false, Deliver(m)), Move(false, CommitDelivered(plan))];
    var u := Step(w, moves[0]);
    assert u.right == w.right.(applies := w.right.applies + {plan});
    RunOfTwo(w, moves[0], moves[1]);
  }

  lemma NewestIsAppended(received: seq<nat>, k: nat)
    requires Ascending(received) && 1 <= |received| <= MAX_RECEIVED_STATES
    requires received[|received| - 1] == k - 1
    ensures k !in received && k - 1 in received
    ensures AtLeast(received, 0) == received
    ensures |received| == MAX_RECEIVED_STATES ==> received[FirstEvictable(received, 0)] < k
    ensures Inserted(MakeRoom(received, 0).0, k) == MakeRoom(received, 0).0 + [k]
  {
    hide MakeRoom, AtLeast;
    AllAtLeast(received);
    MakeRoomIsRemoval(received, 0);
    var room := MakeRoom(received, 0).0;
    forall i | 0 <= i < |room| ensures room[i] < k { assert room[i] in received; }
  }

  lemma {:induction false} AllAtLeast(numbers: seq<nat>)
    ensures AtLeast(numbers, 0) == numbers
  {
    if numbers != [] {
      AllAtLeast(numbers[..|numbers| - 1]);
      assert numbers == numbers[..|numbers| - 1] + [numbers[|numbers| - 1]];
    }
  }

  /** Dropping what is acknowledged: the first of the numbers from 1 on. */
  lemma {:induction false} AllButFirst(sent: seq<SentState>)
    requires sent != [] && forall i :: 0 <= i < |sent| ==> sent[i].number == i + 1
    ensures SentAbove(sent, 1) == sent[1..]
  {
    var front := sent[..|sent| - 1];
    if front == [] {
      assert SentAbove(front, 1) == [];
    } else {
      AllButFirst(front);
      assert sent[1..] == front[1..] + [sent[|sent| - 1]];
    }
  }

  lemma Acknowledge<D>(w: World<D>, d: D) returns (moves: seq<Move<D>>)
    requires Sending(w, ARRIVED, d)
    ensures Applying(RunWorld(w, moves), 1, d)
  {
    moves := ApplyNext(w, 1, d);
    var v := RunWorld(w, moves);
    assert MakeRoom([0], 0).0 + [1] == [0, 1];
    assert v.right.sync == Sync(0, 0, [], 0, 1, 0, [0, 1], 1);
    var more := AcknowledgeFirst(v, d);
    RunAppends(w, moves, more);
    moves := moves + more;
  }

  lemma AcknowledgeFirst<D>(w: World<D>, d: D) returns (moves: seq<Move<D>>)
    requires w.right.sync == Sync(0, 0, [], 0, 1, 0, [0, 1], 1) && w.right.applies == {}
    requires Sending(w.(right := START), ARRIVED, d)
    ensures Applying(RunWorld(w, moves), 1, d)
  {
    hide SentAbove, RecordSent;
    var x := w.left.sync;
    var plan := SendPlan(1, 0, 1, 1, 0, 0);
    var m := plan.ToInstruction(d);
    moves := [Move(false, Local), Move(false, Transmit(0, MIN_RTO, d)), Move(true, Deliver(m))];
    var u := Step(w, moves[0]);
    assert PlanSend(u.right.sync, 0, MIN_RTO) == Ok(plan);
    var v := Step(u, moves[1]);
    assert v.toLeft == {m} && v.left == w.left;
    assert x.sent[0].number == 1;
    AllButFirst(x.sent);
    RunOfThree(w, moves);
  }

  lemma ApplyOne<D>(w: World<D>, k: nat, d: D) returns (moves: seq<Move<D>>)
    requires Applying(w, k, d) && 1 <= k < ARRIVED - 1
    ensures Applying(RunWorld(w, moves), k + 1, d)
  {
    moves := ApplyNext(w, k + 1, d);
  }

  lemma {:induction false} ApplyMany<D>(k: nat, d: D) returns (moves: seq<Move<D>>)
    requires 1 <= k < ARRIVED
    ensures Applying(RunWorld(Opening<D>(), moves), k, d)
  {
    hide Sending, Applying, RunWorld;
    var more: seq<Move<D>>;
    if k == 1 {
      moves := SendMany(ARRIVED, d);
      more := Acknowledge(RunWorld(Opening<D>(), moves), d);
    } else {
      moves := ApplyMany(k - 1, d);
      more := ApplyOne(RunWorld(Opening<D>(), moves), k - 1, d);
    }
    RunAppends(Opening<D>(), moves, more);
    moves := moves + more;
  }

  // --------------------------------------- and gives up state 1, and the rest is lost

  /** The right end has state 0, protected by the floor, and those from 2 on; the left
      end still builds on state 1, and remembers at most the last 32 it sent. */
  predicate Losing<D(==)>(w: World<D>, k: nat, d: D) {
    var (x, y) := (w.left.sync, w.right.sync);
    && x == Sync(k, 1, x.sent, 2 * k + 1, 0, 0, [0], 0) && ARRIVED <= k
    && |x.sent| == (if k == ARRIVED then MAX_SENT_STATES - 1 else MAX_SENT_STATES)
    && (forall i :: 0 <= i < |x.sent| ==> x.sent[i].number == k + 1 - |x.sent| + i)
    && (forall i :: 0 <= i < |x.sent| ==> x.sent[i].sentAt <= PAUSE * (k - ARRIVED))
    && y == Sync(1, 0, [], 1, ARRIVED, 0, y.received, ARRIVED) && |y.received| == MAX_RECEIVED_STATES
    && (forall i :: 0 <= i < |y.received| ==> y.received[i] == if i == 0 then 0 else i + 1)
    && w.right.applies == {}
    && (forall m :: m in w.toLeft ==> m.acknowledged == 1)
    && Flight(w.toRight, ARRIVED, d)
  }

  lemma ApplyLast<D>(w: World<D>, d: D) returns (moves: seq<Move<D>>)
    requires Applying(w, ARRIVED - 1, d)
    ensures Losing(RunWorld(w, moves), ARRIVED, d)
  {
    moves := ApplyNext(w, ARRIVED, d);
  }

  /** After a long pause everything sent has timed out. */
  lemma {:induction false} AllTimedOut(sent: seq<SentState>, known: nat, now: nat, rto: nat)
    requires forall i :: 0 <= i < |sent| ==> sent[i].sentAt + rto <= now
    ensures ScanSent(sent, known, now, rto) == Ok(known)
  {
    if sent != [] { AllTimedOut(sent[..|sent| - 1], known, now, rto); }
  }

  lemma LoseOne<D>(w: World<D>, k: nat, d: D) returns (moves: seq<Move<D>>)
    requires Losing(w, k, d) && k < SENT
    ensures Losing(RunWorld(w, moves), k + 1, d)
  {
    hide ScanSent;
    var x := w.left.sync;
    var now := PAUSE * (k + 1 - ARRIVED);
    var plan := SendPlan(2 * k + 2, 1, k + 1, 0, 1, now);
    moves := [Move(true, Local), Move(true, Transmit(now, MIN_RTO, d)), Move(true, CommitSent(plan))];
    var u := Step(w, moves[0]);
    AllTimedOut(x.sent, 1, now, MIN_RTO);
    assert PlanSend(u.left.sync, now, MIN_RTO) == Ok(plan);
    assert !HasSent(x.sent, k + 1);
    RunOfThree(w, moves);
  }

  lemma {:induction false} LoseMany<D>(k: nat, d: D) returns (moves: seq<Move<D>>)
    requires ARRIVED <= k <= SENT
    ensures Losing(RunWorld(Opening<D>(), moves), k, d)
  {
    hide Applying, Losing, RunWorld;
    var more: seq<Move<D>>;
    if k == ARRIVED {
      moves := ApplyMany(ARRIVED - 1, d);
      more := ApplyLast(RunWorld(Opening<D>(), moves), d);
    } else {
      moves := LoseMany(k - 1, d);
      more := LoseOne(RunWorld(Opening<D>(), moves), k - 1, d);
    }
    RunAppends(Opening<D>(), moves, more);
    moves := moves + more;
  }

  // ------------------------------------------------------------------------ the end

  lemma LosingIsStuck<D>(w: World<D>, d: D)
    requires Safe(w) && Losing(w, SENT, d)
    ensures Stuck(w)
  {
    hide Safe;
    var (x, y) := (w.left.sync, w.right.sync);
    forall n: nat ensures n in y.received <==> n <= ARRIVED && n != 1 {
      if n <= ARRIVED && n != 1 { assert y.received[if n == 0 then 0 else n - 1] == n; }
    }
    forall m | m in w.toRight ensures !Classify(y, m).Apply? { assert Shape(m); }
  }

  /** From the start, 32 states arrive and one of them is acknowledged, and then 32
      more are lost: from then on nothing new can ever reach the right end. */
  lemma StuckIsReached<D>(d: D) returns (moves: seq<Move<D>>)
    ensures
      var w := RunWorld(Opening<D>(), moves);
      && Stuck(w) && w.left.sync.known == 1
      && w.right.sync.remoteLatest == ARRIVED && w.left.sync.localLatest == SENT
  {
    hide RunWorld, Safe, Stuck;
    moves := LoseMany(SENT, d);
    OpeningIsSafe<D>();
    EveryRunIsSafe(Opening<D>(), moves);
    LosingIsStuck(RunWorld(Opening<D>(), moves), d);
  }

  /** In short: a run after which, whatever follows, the right end never gets past
      state 32 although the left one has sent it 64. */
  lemma LostForGood<D(!new)>(d: D) returns (moves: seq<Move<D>>)
    ensures RunWorld(Opening<D>(), moves).left.sync.localLatest == SENT
    ensures forall more: seq<Move<D>> :: RunWorld(Opening<D>(), moves + more).right.sync.remoteLatest == ARRIVED
  {
    hide RunWorld, Stuck;
    moves := StuckIsReached(d);
    forall more: seq<Move<D>> ensures RunWorld(Opening<D>(), moves + more).right.sync.remoteLatest == ARRIVED {
      RunAppends(Opening<D>(), moves, more);
      StuckForEver(RunWorld(Opening<D>(), moves), more);
    }
  }
}
