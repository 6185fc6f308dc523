/** The synchronization state as the program keeps it: fields updated in place
    (`src/synchronization.rs`), each operation proved against its value form. */
module SynchronizationMachine {
  import opened Wrappers
  import opened Synchronization
  import opened Retention

  class SynchronizationState {
    var localLatest: nat
    var knownReceiverState: nat
    var sentStates: seq<SentState>
    var senderGeneration: nat
    var remoteLatest: nat
    var remoteThrowawayFloor: nat
    var receivedStates: seq<nat>
    var receiverGeneration: nat

    function View(): Sync
      reads this
    {
      Sync(localLatest, knownReceiverState, sentStates, senderGeneration,
           remoteLatest, remoteThrowawayFloor, receivedStates, receiverGeneration)
    }

    constructor ()
      ensures View() == INITIAL
    {
      localLatest, knownReceiverState, sentStates, senderGeneration := 0, 0, [], 0;
      remoteLatest, remoteThrowawayFloor, receivedStates, receiverGeneration := 0, 0, [0], 0;
    }

    method SentAt(number: nat) returns (at: Option<nat>)
      ensures at.Some? ==> SentState(number, at.value) in sentStates
      ensures at.None? ==> !HasSent(sentStates, number)
    {
      for i := 0 to |sentStates|
        invariant forall j :: 0 <= j < i ==> sentStates[j].number != number
      {
        if sentStates[i].number == number {
          return Some(sentStates[i].sentAt);
        }
      }
      return None;
    }

    method AdvanceLocal() returns (r: Result<nat, SyncError>)
      modifies this
      ensures
        match Synchronization.AdvanceLocal(old(View()))
        case Err(e) => r == Err(e) && View() == old(View())
        case Ok(next) => r == Ok(next.localLatest) && View() == next
    {
      if localLatest == U64_MAX {
        return Err(StateNumberExhausted);
      }
      if senderGeneration == U64_MAX {
        return Err(GenerationExhausted);
      }
      localLatest := localLatest + 1;
      senderGeneration := senderGeneration + 1;
      return Ok(localLatest);
    }

    method PlanSend(now: nat, rto: nat) returns (r: Result<SendPlan, SyncError>)
      ensures r == Synchronization.PlanSend(View(), now, rto)
    {
      if !(MIN_RTO <= rto <= MAX_RTO) {
        return Err(InvalidRetransmissionTimeout);
      }
      var base := knownReceiverState;
      var i := |sentStates|;
      assert sentStates[..i] == sentStates;
      while i > 0
        invariant 0 <= i <= |sentStates|
        invariant base == knownReceiverState
        invariant ScanSent(sentStates, base, now, rto) == ScanSent(sentStates[..i], base, now, rto)
      {
        assert sentStates[..i][..i - 1] == sentStates[..i - 1];
        var sent := sentStates[i - 1];
        if now < sent.sentAt {
          return Err(TimeMovedBackwards);
        }
        if now - sent.sentAt < rto {
          base := sent.number;
          break;
        }
        i := i - 1;
      }
      if localLatest <= base {
        return Err(NoNewState);
      }
      return Ok(SendPlan(senderGeneration, base, localLatest, remoteLatest, knownReceiverState, now));
    }

    /** The index of the sent state with this number. */
    method FindSent(number: nat) returns (k: nat)
      ensures k <= |sentStates|
      ensures forall j :: 0 <= j < k ==> sentStates[j].number != number
      ensures k < |sentStates| ==> sentStates[k].number == number
    {
      k := 0;
      while k < |sentStates| && sentStates[k].number != number
        invariant k <= |sentStates|
        invariant forall j :: 0 <= j < k ==> sentStates[j].number != number
      {
        k := k + 1;
      }
    }

    method CommitSend(plan: SendPlan) returns (r: Result<Option<nat>, SyncError>)
      requires Ordered(sentStates)
      modifies this
      ensures
        match Synchronization.CommitSend(old(View()), plan)
        case Err(e) => r == Err(e) && View() == old(View())
        case Ok((next, evicted)) => r == Ok(evicted) && View() == next
    {
      if plan.generation != senderGeneration || plan.target != localLatest
         || plan.acknowledged != remoteLatest || plan.throwaway != knownReceiverState {
        return Err(StalePlan);
      }
      if senderGeneration == U64_MAX {
        return Err(GenerationExhausted);
      }
      var evicted: Option<nat> := None;
      if plan.target > knownReceiverState {
        var k := FindSent(plan.target);
        if k < |sentStates| {
          assert Restamped(sentStates, plan.target, plan.plannedAt)
            == sentStates[k := SentState(plan.target, plan.plannedAt)];
          sentStates := sentStates[k := sentStates[k].(sentAt := plan.plannedAt)];
        } else {
          assert !HasSent(sentStates, plan.target);
          if |sentStates| == MAX_SENT_STATES {
            evicted := Some(sentStates[0].number);
            sentStates := sentStates[1..];
          }
          sentStates := sentStates + [SentState(plan.target, plan.plannedAt)];
        }
      }
      senderGeneration := senderGeneration + 1;
      return Ok(evicted);
    }

    method ObserveAcknowledgement(acknowledged: nat) returns (r: Result<Acknowledgement, SyncError>)
      modifies this
      ensures
        match Synchronization.ObserveAcknowledgement(old(View()), acknowledged)
        case Err(e) => r == Err(e) && View() == old(View())
        case Ok((next, outcome)) => r == Ok(outcome) && View() == next
    {
      if acknowledged < knownReceiverState {
        return Ok(Stale);
      }
      if acknowledged == knownReceiverState {
        return Ok(Current);
      }
      var k := FindSent(acknowledged);
      if k == |sentStates| {
        assert !HasSent(sentStates, acknowledged);
        return Ok(Unknown);
      }
      assert HasSent(sentStates, acknowledged);
      if senderGeneration == U64_MAX {
        return Err(GenerationExhausted);
      }
      var previous := knownReceiverState;
      knownReceiverState := acknowledged;
      var kept: seq<SentState> := [];
      for i := 0 to |sentStates|
        invariant kept == SentAbove(sentStates[..i], acknowledged)
      {
        assert sentStates[..i + 1][..i] == sentStates[..i];
        if sentStates[i].number > acknowledged {
          kept := kept + [sentStates[i]];
        }
      }
      assert sentStates[..|sentStates|] == sentStates;
      sentStates := kept;
      senderGeneration := senderGeneration + 1;
      return Ok(Advanced(previous, acknowledged));
    }

    method CanRetainReceivedState(target: nat) returns (can: bool)
      ensures can == CanRetain(View(), target)
    {
      if |receivedStates| < MAX_RECEIVED_STATES {
        return true;
      }
      var first := if receivedStates[0] == remoteThrowawayFloor then 1 else 0;
      return target > receivedStates[first];
    }

    method BeginReceive<D>(m: Instruction<D>) returns (r: Result<(Acknowledgement, Disposition), SyncError>)
      modifies this
      ensures
        match Synchronization.BeginReceive(old(View()), m)
        case Err(e) => r == Err(e) && View() == old(View())
        case Ok((next, outcome, disposition)) => r == Ok((outcome, disposition)) && View() == next
    {
      if m.version != PROTOCOL_VERSION {
        return Err(IncompatibleVersion);
      }
      if m.acknowledged > localLatest {
        return Err(InvalidAcknowledgement);
      }
      if m.target <= m.base {
        return Err(InvalidStateTransition);
      }
      if m.throwaway > m.base {
        return Err(InvalidThrowaway);
      }
      var observed := ObserveAcknowledgement(m.acknowledged);
      if observed.Err? {
        return Err(observed.error);
      }
      var can := CanRetainReceivedState(m.target);
      var disposition :=
        if m.target < remoteThrowawayFloor || m.base < remoteThrowawayFloor then BelowThrowawayFloor
        else if m.target in receivedStates then AlreadyConstructed
        else if m.base !in receivedStates then MissingReference
        else if !can then BelowRetentionWindow
        else Apply(ApplyPlan(receiverGeneration, m.base, m.target, m.throwaway, m.target > remoteLatest));
      return Ok((observed.value, disposition));
    }

    method BeginShutdownReceive<D>(m: Instruction<D>) returns (r: Result<nat, SyncError>)
      modifies this
      ensures
        match BeginShutdown(old(View()), m)
        case Err(e) => r == Err(e) && View() == old(View())
        case Ok((next, base)) => r == Ok(base) && View() == next
    {
      if m.version != PROTOCOL_VERSION || m.target != SHUTDOWN_STATE || m.acknowledged > localLatest
         || m.throwaway > m.base || m.base < remoteThrowawayFloor || m.base !in receivedStates {
        return Err(InvalidStateTransition);
      }
      var observed := ObserveAcknowledgement(m.acknowledged);
      if observed.Err? {
        return Err(observed.error);
      }
      return Ok(m.base);
    }

    /** Dropping what fell below the floor. */
    method RetainFromFloor()
      modifies this`receivedStates
      ensures receivedStates == AtLeast(old(receivedStates), remoteThrowawayFloor)
    {
      var kept: seq<nat> := [];
      for i := 0 to |receivedStates|
        invariant receivedStates == old(receivedStates)
        invariant kept == AtLeast(receivedStates[..i], remoteThrowawayFloor)
      {
        assert receivedStates[..i + 1][..i] == receivedStates[..i];
        if receivedStates[i] >= remoteThrowawayFloor {
          kept := kept + [receivedStates[i]];
        }
      }
      assert receivedStates[..|receivedStates|] == receivedStates;
      receivedStates := kept;
    }

    /** Giving up one state when the queue is full. */
    method EvictForCapacity() returns (evicted: Option<nat>)
      modifies this`receivedStates
      ensures (receivedStates, evicted) == MakeRoom(old(receivedStates), remoteThrowawayFloor)
    {
      evicted := None;
      if |receivedStates| == MAX_RECEIVED_STATES {
        var first := if receivedStates[0] == remoteThrowawayFloor then 1 else 0;
        evicted := Some(receivedStates[first]);
        receivedStates := receivedStates[..first] + receivedStates[first + 1..];
      }
    }

    method InsertReceived(target: nat)
      modifies this`receivedStates
      ensures receivedStates == Inserted(old(receivedStates), target)
    {
      var k := 0;
      while k < |receivedStates| && receivedStates[k] <= target
        invariant k <= |receivedStates|
        invariant forall j :: 0 <= j < k ==> receivedStates[j] <= target
      {
        k := k + 1;
      }
      FirstAboveIsUnique(receivedStates, target, k);
      receivedStates := receivedStates[..k] + [target] + receivedStates[k..];
    }

    method CommitReceive(plan: ApplyPlan) returns (r: Result<ReceiveCommit, SyncError>)
      modifies this
      ensures
        match Synchronization.CommitReceive(old(View()), plan)
        case Err(e) => r == Err(e) && View() == old(View())
        case Ok((next, commit)) => r == Ok(commit) && View() == next
    {
      hide MakeRoom, Inserted, AtLeast;
      if plan.generation != receiverGeneration || plan.base !in receivedStates || plan.target in receivedStates {
        return Err(StalePlan);
      }
      if receiverGeneration == U64_MAX {
        return Err(GenerationExhausted);
      }
      if plan.becomesLatest {
        remoteLatest := plan.target;
        remoteThrowawayFloor := if plan.throwaway > remoteThrowawayFloor then plan.throwaway else remoteThrowawayFloor;
        RetainFromFloor();
      }
      var evicted := EvictForCapacity();
      InsertReceived(plan.target);
      receiverGeneration := receiverGeneration + 1;
      return Ok(ReceiveCommit(remoteThrowawayFloor, evicted));
    }
  }

  lemma FirstAboveIsUnique(numbers: seq<nat>, target: nat, k: nat)
    requires k <= |numbers| && (forall j :: 0 <= j < k ==> numbers[j] <= target)
    requires k < |numbers| ==> numbers[k] > target
    ensures FirstAbove(numbers, target) == k
  {
  }
}
