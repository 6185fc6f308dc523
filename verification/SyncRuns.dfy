/** Whole runs of one synchronization state whose plans are held and committed
    at any later time, or never. */
module SyncRuns {
  import opened Wrappers
  import opened Synchronization
  import opened Retention

  /** The state with every plan handed out so far.  A send plan can be copied,
      so it stays; an apply plan is consumed by its commit. */
  datatype Endpoint = Endpoint(sync: Sync, sends: set<SendPlan>, applies: set<ApplyPlan>)

  datatype Event<+D> =
    | Advance
    | Plan(now: nat, rto: nat)
    | Commit(send: SendPlan)
    | Receive(m: Instruction<D>)
    | CommitApply(apply: ApplyPlan)
    | Shutdown(m: Instruction<D>)

  /** An operation that fails leaves the state as it was. */
  function Next<D>(e: Endpoint, event: Event<D>): Endpoint {
    match event
    case Advance =>
      (match AdvanceLocal(e.sync)
       case Err(_) => e
       case Ok(next) => e.(sync := next))
    case Plan(now, rto) =>
      (match PlanSend(e.sync, now, rto)
       case Err(_) => e
       case Ok(plan) => e.(sends := e.sends + {plan}))
    case Commit(plan) =>
      if plan !in e.sends then e else
      (match CommitSend(e.sync, plan)
       case Err(_) => e
       case Ok((next, _)) => e.(sync := next))
    case Receive(m) =>
      (match BeginReceive(e.sync, m)
       case Err(_) => e
       case Ok((next, _, disposition)) =>
         e.(sync := next, applies := e.applies + (if disposition.Apply? then {disposition.plan} else {})))
    case CommitApply(plan) =>
      if plan !in e.applies then e else
      (match CommitReceive(e.sync, plan)
       case Err(_) => e.(applies := e.applies - {plan})
       case Ok((next, _)) => e.(sync := next, applies := e.applies - {plan}))
    case Shutdown(m) =>
      (match BeginShutdown(e.sync, m)
       case Err(_) => e
       case Ok((next, _)) => e.(sync := next))
  }

  function Run<D>(e: Endpoint, events: seq<Event<D>>): Endpoint
    decreases |events|
  {
    if events == [] then e else Run(Next(e, events[0]), events[1..])
  }

  const START: Endpoint := Endpoint(INITIAL, {}, {})

  predicate SendTokenFits(s: Sync, p: SendPlan) {
    p.generation <= s.senderGeneration && (p.generation == s.senderGeneration ==> PlannedFrom(s, p))
  }

  predicate ApplyTokenFits(s: Sync, p: ApplyPlan) {
    p.generation <= s.receiverGeneration && (p.generation == s.receiverGeneration ==> Applicable(s, p))
  }

  /** Every plan whose generation still matches is one the state would make now. */
  predicate Consistent(e: Endpoint) {
    && Retained(e.sync)
    && (forall p :: p in e.sends ==> SendTokenFits(e.sync, p))
    && (forall p :: p in e.applies ==> ApplyTokenFits(e.sync, p))
  }

  predicate SameSender(s: Sync, t: Sync) {
    s.localLatest == t.localLatest && s.known == t.known && s.sent == t.sent
  }

  predicate SameReceiver(s: Sync, t: Sync) {
    s.remoteLatest == t.remoteLatest && s.floor == t.floor && s.received == t.received
  }

  /** Generations count changes: an equal generation means an equal half. */
  predicate Follows(s: Sync, t: Sync) {
    && s.senderGeneration <= t.senderGeneration
    && (s.senderGeneration == t.senderGeneration ==> SameSender(s, t))
    && s.receiverGeneration <= t.receiverGeneration
    && (s.receiverGeneration == t.receiverGeneration ==> SameReceiver(s, t))
  }

  lemma StepFollows<D>(e: Endpoint, event: Event<D>)
    ensures Follows(e.sync, Next(e, event).sync)
  {
    hide RecordSent, SentAbove, HasSent, AtLeast, MakeRoom, Inserted, Classify, PlanSend, Validate;
  }

  lemma TokensCarryOver(s: Sync, t: Sync)
    requires Follows(s, t)
    ensures forall p :: SendTokenFits(s, p) ==> SendTokenFits(t, p)
    ensures forall p :: ApplyTokenFits(s, p) ==> ApplyTokenFits(t, p)
  {
    hide CanRetain, HasSent;
    forall p | ApplyTokenFits(s, p) ensures ApplyTokenFits(t, p) {
      assert SameReceiver(s, t) ==> CanRetain(s, p.target) == CanRetain(t, p.target) by {
        CanRetainReads(s, t, p.target);
      }
    }
  }

  lemma CanRetainReads(s: Sync, t: Sync, target: nat)
    ensures SameReceiver(s, t) ==> CanRetain(s, target) == CanRetain(t, target)
  {
  }

  lemma StepKeepsRetained<D>(e: Endpoint, event: Event<D>)
    requires Consistent(e)
    ensures Retained(Next(e, event).sync)
  {
    hide Retained, RecordSent, SentAbove, HasSent, AtLeast, MakeRoom, Inserted, Raised, Classify, PlanSend, Validate,
      ObserveAcknowledgement, CommitSend, CommitReceive, AdvanceLocal, PlannedFrom, Applicable;
    match event
    case Advance => if AdvanceLocal(e.sync).Ok? { AdvanceKeeps(e.sync); }
    case Plan(_, _) =>
    case Commit(plan) =>
      if plan in e.sends && CommitSend(e.sync, plan).Ok? {
        SendCommitMatches(e.sync, plan);
        CommitSendKeeps(e.sync, plan);
      }
    case Receive(m) =>
      if ObserveAcknowledgement(e.sync, m.acknowledged).Ok? { ObserveKeeps(e.sync, m.acknowledged); }
    case CommitApply(plan) =>
      if plan in e.applies && CommitReceive(e.sync, plan).Ok? {
        ReceiveCommitMatches(e.sync, plan);
        CommitReceiveKeeps(e.sync, plan);
      }
    case Shutdown(m) =>
      if ObserveAcknowledgement(e.sync, m.acknowledged).Ok? { ObserveKeeps(e.sync, m.acknowledged); }
  }

  lemma SendCommitMatches(s: Sync, plan: SendPlan)
    requires CommitSend(s, plan).Ok?
    ensures plan.generation == s.senderGeneration
  {
  }

  lemma ReceiveCommitMatches(s: Sync, plan: ApplyPlan)
    requires CommitReceive(s, plan).Ok?
    ensures plan.generation == s.receiverGeneration
  {
  }

  lemma StepKeeps<D>(e: Endpoint, event: Event<D>)
    requires Consistent(e)
    ensures Consistent(Next(e, event))
  {
    hide Retained, RecordSent, SentAbove, HasSent, AtLeast, MakeRoom, Inserted, Raised, Classify, PlanSend,
      ObserveAcknowledgement, CommitSend, CommitReceive, AdvanceLocal, PlannedFrom, Applicable, Follows, SendTokenFits,
        ApplyTokenFits;
    var next := Next(e, event);
    StepKeepsRetained(e, event);
    StepFollows(e, event);
    TokensCarryOver(e.sync, next.sync);
    if event.Plan? && PlanSend(e.sync, event.now, event.rto).Ok? {
      NewSendToken(e.sync, event.now, event.rto);
    }
    if event.Receive? && BeginReceive(e.sync, event.m).Ok? {
      NewApplyToken(e.sync, event.m);
    }
  }

  lemma NewSendToken(s: Sync, now: nat, rto: nat)
    requires Retained(s) && PlanSend(s, now, rto).Ok?
    ensures SendTokenFits(s, PlanSend(s, now, rto).value)
  {
    hide Retained, ScanSent;
    PlanIsPlanned(s, now, rto);
  }

  lemma NewApplyToken<D>(s: Sync, m: Instruction<D>)
    requires BeginReceive(s, m).Ok?
    ensures
      var (next, _, disposition) := BeginReceive(s, m).value;
      disposition.Apply? ==> ApplyTokenFits(next, disposition.plan)
  {
    var (next, _, disposition) := BeginReceive(s, m).value;
    assert Validate(next, m).None?;
    if disposition.Apply? { ClassifyIsApplicable(next, m); }
  }

  /** Over every run: queues bounded and ordered, the latest received state the
      largest, nothing below the floor, and every live plan still right. */
  lemma {:induction false} RunKeeps<D>(e: Endpoint, events: seq<Event<D>>)
    requires Consistent(e)
    ensures Consistent(Run(e, events)) && Follows(e.sync, Run(e, events).sync)
    decreases |events|
  {
    hide Next, Consistent;
    if events != [] {
      var next := Next(e, events[0]);
      StepKeeps(e, events[0]);
      StepFollows(e, events[0]);
      RunKeeps(next, events[1..]);
    }
  }

  lemma ReachableIsRetained<D>(events: seq<Event<D>>)
    ensures Retained(Run(START, events).sync)
  {
    hide Next;
    InitialIsRetained();
    RunKeeps(START, events);
  }

  /** A plan commits while its generation and acknowledgement are current, and
      then its sender half is exactly what it was when the plan was made. */
  lemma MatchingPlanSeesUnchangedSender<D>(e: Endpoint, now: nat, rto: nat, events: seq<Event<D>>)
    requires Consistent(e) && PlanSend(e.sync, now, rto).Ok?
    ensures
      var plan := PlanSend(e.sync, now, rto).value;
      var later := Run(e, [Plan(now, rto)] + events).sync;
      && (plan.generation == later.senderGeneration ==> SameSender(e.sync, later))
      && (CommitSend(later, plan).Ok? <==>
            later.senderGeneration == plan.generation != U64_MAX && later.remoteLatest == plan.acknowledged)
  {
    hide Consistent, ScanSent, Retained, RecordSent;
    var plan := PlanSend(e.sync, now, rto).value;
    assert ([Plan(now, rto)] + events)[1..] == events;
    RunKeeps(e, [Plan(now, rto)] + events);
    assert plan.generation == e.sync.senderGeneration;
  }

  /** No plan is committed twice, whatever happens in between. */
  lemma CommitAtMostOnce<D>(e: Endpoint, plan: SendPlan, events: seq<Event<D>>)
    requires Consistent(e) && plan in e.sends && CommitSend(e.sync, plan).Ok?
    ensures CommitSend(Run(e, [Commit(plan)] + events).sync, plan) == Err(StalePlan)
  {
    hide Consistent, RecordSent;
    var done := Next(e, Event<D>.Commit(plan));
    assert ([Commit(plan)] + events)[1..] == events;
    StepKeeps(e, Event<D>.Commit(plan));
    RunKeeps(done, events);
    assert done.sync.senderGeneration == plan.generation + 1;
  }
}
