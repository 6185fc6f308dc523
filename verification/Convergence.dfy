/** Every retained terminal snapshot is the server's state of that number. */
module Convergence {
  import opened Wrappers
  import opened ClientHistories
  import opened Synchronization
  import opened Retention
  import opened Handlers
  import opened Delivery

  /** The server's states by number, and an instruction that is true of them. */
  predicate Truthful<S(==), D>(m: Instruction<D>, truth: nat -> S, apply: (S, D) -> Option<S>) {
    apply(truth(m.base), m.difference) == Some(truth(m.target))
  }

  predicate TruthfulEvent<S(==), D>(event: Event<D>, truth: nat -> S, apply: (S, D) -> Option<S>) {
    event.Incoming? ==> Truthful(event.m, truth, apply)
  }

  /** Snapshots agree with the server; the reserved number names only the final
      state and is never among them. */
  predicate Converged<S(==)>(d: Driver<S>, truth: nat -> S) {
    && (forall n :: n in d.terminals ==> n != SHUTDOWN_STATE && d.terminals[n] == truth(n))
    && (d.final.Some? ==> d.final.value == truth(SHUTDOWN_STATE))
  }

  lemma ApplyConverges<S, D>(d: Driver<S>, plan: ApplyPlan, difference: D, truth: nat -> S, apply: (S, D) -> Option<S>)
    requires Converged(d, truth) && plan.target != SHUTDOWN_STATE
    requires apply(truth(plan.base), difference) == Some(truth(plan.target))
    requires ApplyRemote(d, plan, difference, apply).Ok?
    ensures Converged(ApplyRemote(d, plan, difference, apply).value, truth)
  {
    hide CommitReceive;
  }

  lemma NormalConverges<S, D>(d: Driver<S>, m: Instruction<D>, truth: nat -> S, apply: (S, D) -> Option<S>)
    requires Converged(d, truth) && Truthful(m, truth, apply) && m.target != SHUTDOWN_STATE
    requires HandleNormalInstruction(d, m, apply).Ok?
    ensures Converged(HandleNormalInstruction(d, m, apply).value, truth)
  {
    hide ApplyRemote, ObserveAcknowledgement, Acknowledge, CanRetain;
    var (sync, _, disposition) := BeginReceive(d.sync, m).value;
    var next := AcknowledgeKnown(d.(sync := sync)).value;
    if disposition.Apply? {
      ApplyConverges(next, disposition.plan, m.difference, truth, apply);
    }
  }

  lemma ShutdownConverges<S, D>(d: Driver<S>, m: Instruction<D>, truth: nat -> S, apply: (S, D) -> Option<S>)
    requires Converged(d, truth) && Truthful(m, truth, apply) && m.target == SHUTDOWN_STATE
    requires HandleRemoteShutdown(d, m, apply).Ok?
    ensures Converged(HandleRemoteShutdown(d, m, apply).value, truth)
  {
    hide ObserveAcknowledgement, Acknowledge;
  }

  lemma IncomingConverges<S, D>(d: Driver<S>, m: Instruction<D>, closing: bool, truth: nat -> S,
                                apply: (S, D) -> Option<S>)
    requires Converged(d, truth) && Truthful(m, truth, apply) && HandleInstruction(d, m, closing, apply).Ok?
    ensures Converged(HandleInstruction(d, m, closing, apply).value, truth)
  {
    hide HandleNormalInstruction, HandleRemoteShutdown, Converged;
    if m.target == SHUTDOWN_STATE {
      ShutdownConverges(d, m, truth, apply);
    } else {
      var ordinary := if closing && m.acknowledged == SHUTDOWN_STATE then m.(acknowledged := d.sync.known) else m;
      NormalConverges(d, ordinary, truth, apply);
    }
  }

  /** Only incoming instructions touch the snapshots. */
  lemma SendingKeepsTerminals<S, D>(d: Driver<S>, event: Event<D>, apply: (S, D) -> Option<S>)
    requires !event.Incoming? && React(d, event, apply).next.Ok?
    ensures
      var next := React(d, event, apply).next.value;
      next.terminals == d.terminals && next.final == d.final
  {
    hide PlanSend, CommitSend, Append, Difference, AdvanceLocal;
  }

  lemma StepConverges<S, D>(s: Session<S>, event: Event<D>, truth: nat -> S, apply: (S, D) -> Option<S>)
    requires Converged(s.driver, truth) && TruthfulEvent(event, truth, apply) && React(s.driver, event, apply).next.Ok?
    ensures Converged(Progressed(s, event, apply).driver, truth)
  {
    hide HandleCommand, HandleInstruction, SendInstruction, SendShutdownRequest, SendShutdownAcknowledgement, Truthful;
    if event.Incoming? {
      IncomingConverges(s.driver, event.m, event.closing, truth, apply);
    } else {
      SendingKeepsTerminals(s.driver, event, apply);
    }
  }

  lemma {:induction false} RunConverges<S, D>(s: Session<S>, events: seq<Event<D>>, truth: nat -> S,
                                              apply: (S, D) -> Option<S>)
    requires Converged(s.driver, truth) && forall event :: event in events ==> TruthfulEvent(event, truth, apply)
    ensures Converged(RunSession(s, events, apply).driver, truth)
    decreases |events|
  {
    hide React, Converged, TruthfulEvent, Progressed;
    if events != [] && React(s.driver, events[0], apply).next.Ok? {
      StepConverges(s, events[0], truth, apply);
      RunConverges(Progressed(s, events[0], apply), events[1..], truth, apply);
    }
  }

  lemma OpeningConverges<S>(initial: S, columns: nat, rows: nat, truth: nat -> S)
    requires Connect(initial, columns, rows).Ok? && truth(0) == initial
    ensures Converged(Connect(initial, columns, rows).value, truth)
  {
    hide Append, AdvanceLocal;
  }

  /** Remote convergence.  If the server's instructions are true of its states,
      then whatever subset of them arrives, in whatever order and however often,
      the client holds exactly the snapshots of the received states, each one the
      server's, and shows the server's latest of them. */
  lemma RemoteConvergence<S, D>(initial: S, columns: nat, rows: nat, events: seq<Event<D>>, truth: nat -> S,
                                apply: (S, D) -> Option<S>)
    requires Connect(initial, columns, rows).Ok? && truth(0) == initial
    requires forall event :: event in events ==> TruthfulEvent(event, truth, apply)
    ensures
      var d := After(initial, columns, rows, events, apply).driver;
      && d.terminals.Keys == (set n | n in d.sync.received)
      && (forall n :: n in d.sync.received ==>
            n != SHUTDOWN_STATE && n <= d.sync.remoteLatest && d.terminals[n] == truth(n))
      && LatestTerminal(d) == Ok(truth(if d.final.Some? then SHUTDOWN_STATE else d.sync.remoteLatest))
  {
    hide RunSession, Connect, Covered, Ordered;
    OpeningConverges(initial, columns, rows, truth);
    RunConverges(Opening(Connect(initial, columns, rows).value, columns, rows), events, truth, apply);
    AfterIsSound(initial, columns, rows, events, apply);
    var s := After(initial, columns, rows, events, apply);
    LatestIsKept(s.driver, s.ledger);
  }
}
