/** States that a peer gives up for lack of room: when a commit does so with the
    state that the sender builds on, and whether the peer still has that state. */
module GivenUp {
  import opened Wrappers
  import opened Synchronization
  import opened Retention
  import opened SyncRuns
  import opened TwoPeers

  // ---------------------------------------------------------------- one commit

  /** With the floor raised the queue is full, and `n` is the oldest state in it
      apart from the one at the floor. */
  predicate Crowded(s: Sync, plan: ApplyPlan, n: nat) {
    var raised := Raised(s, plan);
    && |raised.received| == MAX_RECEIVED_STATES
    && n in raised.received && n != raised.floor
    && forall x :: x in raised.received ==> x == raised.floor || n <= x
  }

  lemma EvictsIff(received: seq<nat>, floor: nat, n: nat)
    requires Ascending(received) && 1 <= |received| <= MAX_RECEIVED_STATES && floor <= received[0]
    ensures MakeRoom(received, floor).1 == Some(n) <==>
      && |received| == MAX_RECEIVED_STATES && n in received && n != floor
      && forall x :: x in received ==> x == floor || n <= x
  {
    if |received| == MAX_RECEIVED_STATES {
      var i := FirstEvictable(received, floor);
      assert received[i] in received && received[i] != floor;
      assert forall j :: 0 <= j < |received| ==> received[j] == floor || received[i] <= received[j];
    }
  }

  /** A commit gives a state up exactly when it is crowded out; and a state at or
      above the new floor goes only that way. */
  lemma GivesUpIff(s: Sync, plan: ApplyPlan, n: nat)
    requires Retained(s) && Applicable(s, plan) && CommitReceive(s, plan).Ok?
    ensures
      var (next, commit) := CommitReceive(s, plan).value;
      && (commit.evicted == Some(n) <==> Crowded(s, plan, n))
      && (n in s.received && n >= next.floor ==> (n !in next.received <==> Crowded(s, plan, n)))
  {
    hide MakeRoom, Inserted, CanRetain, Retained, Ordered, Raised;
    var raised := Raised(s, plan);
    assert ReceiverRetained(s) by { Halves(s); }
    RaisedKeeps(s, plan);
    EvictsIff(raised.received, raised.floor, n);
    CommitReceiveKeeps(s, plan);
  }

  lemma Halves(s: Sync)
    requires Retained(s)
    ensures SenderRetained(s) && ReceiverRetained(s) && s.remoteLatest in s.received
  {
  }

  /** Between two peers: a commit of the right one loses the state that the left one
      knows it has, exactly when that state is crowded out. */
  lemma LosesKnownIff<D>(w: World<D>, plan: ApplyPlan)
    requires Safe(w) && plan in w.right.applies && CommitReceive(w.right.sync, plan).Ok?
    requires w.left.sync.known in w.right.sync.received
    ensures
      w.left.sync.known !in Next(w.right, Event<D>.CommitApply(plan)).sync.received <==>
      Crowded(w.right.sync, plan, w.left.sync.known)
  {
    hide Retained, Applicable, CommitReceive, Crowded, Sendable;
    assert ApplyTokenFits(w.right.sync, plan) && Expected(w.left.sync, plan);
    ReceiveCommitMatches(w.right.sync, plan);
    GivesUpIff(w.right.sync, plan, w.left.sync.known);
    FloorAfter(w.right.sync, plan);
  }

  lemma FloorAfter(s: Sync, plan: ApplyPlan)
    requires CommitReceive(s, plan).Ok?
    ensures
      var next := CommitReceive(s, plan).value.0;
      next.floor == s.floor || next.floor == plan.throwaway
  {
    hide MakeRoom, Inserted, AtLeast;
  }

  // -------------------------------------------------------------------- whole runs

  /** What the right end has given up and not taken in again, after one more move. */
  function Noted<D(==)>(w: World<D>, given: set<nat>, move: Move<D>): set<nat> {
    if move.byLeft || !move.action.CommitDelivered? || move.action.apply !in w.right.applies then given
    else
      match CommitReceive(w.right.sync, move.action.apply)
      case Err(_) => given
      case Ok((_, commit)) =>
        given + (if commit.evicted.Some? then {commit.evicted.value} else {}) - {move.action.apply.target}
  }

  function GivenUpBy<D(==)>(w: World<D>, given: set<nat>, moves: seq<Move<D>>): set<nat>
    decreases |moves|
  {
    if moves == [] then given else GivenUpBy(Step(w, moves[0]), Noted(w, given, moves[0]), moves[1..])
  }

  /** A number the receiver has had: it still has the state, discarded it below the
      floor, or gave it up. */
  predicate Had(s: Sync, given: set<nat>, n: nat) {
    n in s.received || n < s.floor || n in given
  }

  /** Everything acknowledged was had, and nothing given up is held. */
  predicate Tracked<D(==)>(w: World<D>, given: set<nat>) {
    && (forall n :: n in given ==> n !in w.right.sync.received)
    && Had(w.right.sync, given, w.left.sync.known)
    && (forall m :: m in w.toLeft ==> Had(w.right.sync, given, m.acknowledged))
  }

  lemma LeftMoveTracks<D>(w: World<D>, given: set<nat>, action: Action<D>)
    requires Safe(w) && Tracked(w, given)
    ensures Tracked(LeftStep(w, action), given)
  {
    hide Consistent, Direction, Had, PlanSend, RecordSent, MakeRoom, Inserted, AtLeast, Classify, Validate, SentAbove,
      HasSent;
  }

  lemma HadAfterCommit(s: Sync, plan: ApplyPlan, given: set<nat>, n: nat)
    requires Retained(s) && Applicable(s, plan) && CommitReceive(s, plan).Ok? && Had(s, given, n)
    ensures
      var (next, commit) := CommitReceive(s, plan).value;
      Had(next, given + (if commit.evicted.Some? then {commit.evicted.value} else {}) - {plan.target}, n)
  {
    hide CommitReceive, Retained, Applicable;
    CommitReceiveKeeps(s, plan);
  }

  lemma CommitTracks<D>(w: World<D>, given: set<nat>, plan: ApplyPlan)
    requires Safe(w) && Tracked(w, given) && plan in w.right.applies && CommitReceive(w.right.sync, plan).Ok?
    ensures
      var move := Move(false, CommitDelivered(plan));
      Tracked(Step(w, move), Noted(w, given, move))
  {
    hide CommitReceive, Retained, Applicable, Had, Direction;
    var s := w.right.sync;
    assert ApplyTokenFits(s, plan);
    ReceiveCommitMatches(s, plan);
    CommitReceiveKeeps(s, plan);
    HadAfterCommit(s, plan, given, w.left.sync.known);
    forall m | m in w.toLeft
      ensures Had(Step(w, Move(false, CommitDelivered(plan))).right.sync,
                  Noted(w, given, Move(false, CommitDelivered(plan))), m.acknowledged)
    {
      HadAfterCommit(s, plan, given, m.acknowledged);
    }
  }

  /** Any other action leaves the receiving half alone; what is sent acknowledges the
      latest state received. */
  lemma OtherMoveTracks<D>(w: World<D>, given: set<nat>, action: Action<D>)
    requires Safe(w) && Tracked(w, given) && !action.CommitDelivered?
    ensures Tracked(Step(w, Move(false, action)), given)
  {
    hide Direction, Retained, ScanSent, CommitSend, CommitReceive, Classify, Validate, SentAbove, HasSent, RecordSent,
      AdvanceLocal, ApplyTokenFits, SendTokenFits, ObserveAcknowledgement;
    Halves(w.right.sync);
    match action
    case Deliver(m) =>
      if BeginReceive(w.right.sync, m).Ok? { AcknowledgedGrows(w.right.sync, m.acknowledged); }
    case CommitSent(plan) => CommitSendReceives(w.right.sync, plan);
    case Local => AdvanceReceives(w.right.sync);
    case Transmit(_, _, _) =>
  }

  lemma CommitSendReceives(s: Sync, plan: SendPlan)
    ensures CommitSend(s, plan).Ok? ==> SameReceiver(s, CommitSend(s, plan).value.0)
  {
    hide RecordSent;
  }

  lemma AdvanceReceives(s: Sync)
    ensures AdvanceLocal(s).Ok? ==> SameReceiver(s, AdvanceLocal(s).value)
  {
  }

  lemma MoveTracks<D>(w: World<D>, given: set<nat>, move: Move<D>)
    requires Safe(w) && Tracked(w, given)
    ensures Tracked(Step(w, move), Noted(w, given, move))
  {
    hide Safe, Tracked, CommitReceive;
    if move.byLeft {
      hide LeftStep;
      LeftMoveTracks(w, given, move.action);
    } else if !move.action.CommitDelivered? {
      hide LeftStep;
      OtherMoveTracks(w, given, move.action);
    } else if move.action.apply in w.right.applies && CommitReceive(w.right.sync, move.action.apply).Ok? {
      CommitTracks(w, given, move.action.apply);
    } else {
      ReceiverKept(w, given, move.action.apply);
    }
  }

  lemma ReceiverKept<D>(w: World<D>, given: set<nat>, plan: ApplyPlan)
    requires Tracked(w, given) && (plan !in w.right.applies || CommitReceive(w.right.sync, plan).Err?)
    ensures Tracked(Step(w, Move(false, CommitDelivered(plan))), given)
  {
    hide CommitReceive, Had;
  }

  lemma {:induction false} RunTracks<D>(w: World<D>, given: set<nat>, moves: seq<Move<D>>)
    requires Safe(w) && Tracked(w, given)
    ensures Safe(RunWorld(w, moves)) && Tracked(RunWorld(w, moves), GivenUpBy(w, given, moves))
    decreases |moves|
  {
    hide Safe, Tracked, Step, Noted;
    if moves != [] {
      StepKeepsSafe(w, moves[0]);
      MoveTracks(w, given, moves[0]);
      RunTracks(Step(w, moves[0]), Noted(w, given, moves[0]), moves[1..]);
    }
  }

  /** Over every run from the start: the right end has the state that the left one
      knows it has, exactly when it has not given that state up. */
  lemma KnownIsHeldIff<D>(moves: seq<Move<D>>)
    ensures
      var w := RunWorld(Opening<D>(), moves);
      w.left.sync.known in w.right.sync.received <==> w.left.sync.known !in GivenUpBy(Opening<D>(), {}, moves)
  {
    hide RunWorld, GivenUpBy, Consistent;
    OpeningIsSafe<D>();
    RunTracks(Opening<D>(), {}, moves);
  }
}
