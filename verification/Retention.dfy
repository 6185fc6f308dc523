/** What every operation of the synchronization state keeps. */
module Retention {
  import opened Wrappers
  import opened Synchronization

  predicate Ascending(numbers: seq<nat>) {
    forall i, j :: 0 <= i < j < |numbers| ==> numbers[i] < numbers[j]
  }

  /** Numbers strictly increase and send times never decrease. */
  predicate Ordered(sent: seq<SentState>) {
    forall i, j :: 0 <= i < j < |sent| ==> sent[i].number < sent[j].number && sent[i].sentAt <= sent[j].sentAt
  }

  predicate SenderRetained(s: Sync) {
    && s.known <= s.localLatest
    && |s.sent| <= MAX_SENT_STATES
    && Ordered(s.sent)
    && forall i :: 0 <= i < |s.sent| ==> s.known < s.sent[i].number <= s.localLatest
  }

  predicate ReceiverRetained(s: Sync) {
    && 1 <= |s.received| <= MAX_RECEIVED_STATES
    && Ascending(s.received)
    && s.floor <= s.received[0]
    && s.received[|s.received| - 1] == s.remoteLatest
  }

  predicate Retained(s: Sync) {
    SenderRetained(s) && ReceiverRetained(s)
  }

  // ------------------------------------------------------------------- queues

  lemma {:induction false} SentAboveIsFilter(sent: seq<SentState>, number: nat)
    ensures forall x :: x in SentAbove(sent, number) <==> x in sent && x.number > number
    ensures |SentAbove(sent, number)| <= |sent|
  {
    if sent != [] {
      var front, last := sent[..|sent| - 1], sent[|sent| - 1];
      SentAboveIsFilter(front, number);
      assert sent == front + [last];
    }
  }

  lemma {:induction false} SentAboveIsOrdered(sent: seq<SentState>, number: nat)
    requires Ordered(sent)
    ensures Ordered(SentAbove(sent, number))
  {
    if sent != [] {
      var front, last := sent[..|sent| - 1], sent[|sent| - 1];
      SentAboveIsOrdered(front, number);
      SentAboveIsFilter(front, number);
      var r := SentAbove(front, number);
      forall i | 0 <= i < |r| ensures r[i].number < last.number && r[i].sentAt <= last.sentAt {
        assert r[i] in front;
      }
    }
  }

  lemma HasSentAbove(sent: seq<SentState>, number: nat, n: nat)
    ensures HasSent(SentAbove(sent, number), n) <==> HasSent(sent, n) && n > number
  {
    var r := SentAbove(sent, number);
    SentAboveIsFilter(sent, number);
    if HasSent(r, n) {
      var i :| 0 <= i < |r| && r[i].number == n;
      assert r[i] in sent;
    }
    if HasSent(sent, n) && n > number {
      var i :| 0 <= i < |sent| && sent[i].number == n;
      assert sent[i] in r;
    }
  }

  lemma {:induction false} AtLeastIsFilter(numbers: seq<nat>, floor: nat)
    ensures forall x :: x in AtLeast(numbers, floor) <==> x in numbers && x >= floor
    ensures |AtLeast(numbers, floor)| <= |numbers|
    ensures Ascending(numbers) ==> Ascending(AtLeast(numbers, floor))
  {
    if numbers != [] {
      var front, last := numbers[..|numbers| - 1], numbers[|numbers| - 1];
      AtLeastIsFilter(front, floor);
      assert numbers == front + [last];
      var r := AtLeast(front, floor);
      if Ascending(numbers) {
        assert Ascending(front);
        forall i | 0 <= i < |r| ensures r[i] < last {
          assert r[i] in front;
        }
      }
    }
  }

  lemma InsertedIsOrdered(numbers: seq<nat>, target: nat)
    requires Ascending(numbers) && target !in numbers
    ensures Ascending(Inserted(numbers, target)) && |Inserted(numbers, target)| == |numbers| + 1
    ensures forall x :: x in Inserted(numbers, target) <==> x in numbers || x == target
  {
    hide FirstAbove;
    var i, r := FirstAbove(numbers, target), Inserted(numbers, target);
    SplitIsWhole(numbers, i, target);
    assert forall j :: 0 <= j < i ==> numbers[j] != target;
    assert forall j :: 0 <= j < |r| ==> r[j] == if j < i then numbers[j] else if j == i then target else numbers[j - 1];
  }

  lemma SplitIsWhole(numbers: seq<nat>, i: nat, target: nat)
    requires i <= |numbers|
    ensures forall x :: x in numbers[..i] + [target] + numbers[i..] <==> x in numbers || x == target
  {
    assert numbers == numbers[..i] + numbers[i..];
  }

  lemma RemovedIsOrdered(numbers: seq<nat>, i: nat)
    requires Ascending(numbers) && i < |numbers|
    ensures Ascending(Removed(numbers, i)) && |Removed(numbers, i)| == |numbers| - 1
    ensures forall x :: x in Removed(numbers, i) <==> x in numbers && x != numbers[i]
  {
    var r := Removed(numbers, i);
    assert forall j :: 0 <= j < |r| ==> r[j] == numbers[if j < i then j else j + 1];
    forall x | x in numbers && x != numbers[i] ensures x in r {
      var j :| 0 <= j < |numbers| && numbers[j] == x;
      assert r[if j < i then j else j - 1] == x;
    }
  }

  lemma MakeRoomIsRemoval(received: seq<nat>, floor: nat)
    requires Ascending(received) && 1 <= |received| <= MAX_RECEIVED_STATES
    ensures
      var (room, evicted) := MakeRoom(received, floor);
      && Ascending(room) && |room| < MAX_RECEIVED_STATES
      && (evicted.Some? <==> |received| == MAX_RECEIVED_STATES)
      && (evicted.Some? ==> evicted.value == received[FirstEvictable(received, floor)] && evicted.value in received)
      && (forall x :: x in room <==> x in received && Some(x) != evicted)
  {
    if |received| == MAX_RECEIVED_STATES {
      RemovedIsOrdered(received, FirstEvictable(received, floor));
    }
  }

  // ------------------------------------------------------------- every operation

  lemma InitialIsRetained()
    ensures Retained(INITIAL)
  {
  }

  lemma AdvanceKeeps(s: Sync)
    requires Retained(s) && AdvanceLocal(s).Ok?
    ensures Retained(AdvanceLocal(s).value)
  {
  }

  /** The scan always stops at the newest sent state: either it has not timed
      out and is the base, or no older one can be. */
  lemma {:induction false} ScanPicksNewestOrKnown(sent: seq<SentState>, known: nat, now: nat, rto: nat)
    requires Ordered(sent)
    ensures ScanSent(sent, known, now, rto) ==
      if sent == [] then Ok(known)
      else if now < sent[|sent| - 1].sentAt then Err(TimeMovedBackwards)
      else if now - sent[|sent| - 1].sentAt < rto then Ok(sent[|sent| - 1].number)
      else Ok(known)
  {
    if |sent| > 1 {
      var front := sent[..|sent| - 1];
      ScanPicksNewestOrKnown(front, known, now, rto);
      assert front[|front| - 1].sentAt <= sent[|sent| - 1].sentAt;
    }
  }

  /** A plan the current sender state would still make, apart from the
      acknowledgement it carries. */
  predicate PlannedFrom(s: Sync, plan: SendPlan) {
    && plan.target == s.localLatest
    && plan.throwaway == s.known
    && s.known <= plan.base < plan.target
    && (plan.base == s.known || HasSent(s.sent, plan.base))
    && (s.sent != [] ==> s.sent[|s.sent| - 1].sentAt <= plan.plannedAt)
  }

  lemma PlanIsPlanned(s: Sync, now: nat, rto: nat)
    requires Retained(s) && PlanSend(s, now, rto).Ok?
    ensures
      var plan := PlanSend(s, now, rto).value;
      PlannedFrom(s, plan) && PlanIsCurrent(s, plan)
  {
    ScanPicksNewestOrKnown(s.sent, s.known, now, rto);
  }

  /** After `NoNewState` one more local state always makes a plan. */
  lemma RetrySucceeds(s: Sync, now: nat, rto: nat)
    requires Retained(s) && PlanSend(s, now, rto) == Err(NoNewState)
    ensures AdvanceLocal(s).Ok? ==> PlanSend(AdvanceLocal(s).value, now, rto).Ok?
    ensures AdvanceLocal(s).Err? <==> s.localLatest == U64_MAX || s.senderGeneration == U64_MAX
  {
    ScanPicksNewestOrKnown(s.sent, s.known, now, rto);
  }

  lemma RecordSentKeeps(s: Sync, plan: SendPlan)
    requires SenderRetained(s) && PlannedFrom(s, plan)
    ensures
      var (sent, evicted) := RecordSent(s.sent, plan);
      && Ordered(sent) && |sent| <= MAX_SENT_STATES
      && (forall i :: 0 <= i < |sent| ==> s.known < sent[i].number <= s.localLatest)
      && (forall n: nat :: HasSent(sent, n) <==> (HasSent(s.sent, n) || n == plan.target) && Some(n) != evicted)
      && (evicted.Some? ==> s.known < evicted.value < plan.target && HasSent(s.sent, evicted.value))
  {
    var (sent, evicted) := RecordSent(s.sent, plan);
    if HasSent(s.sent, plan.target) {
      var k :| 0 <= k < |s.sent| && s.sent[k].number == plan.target;
      assert k == |s.sent| - 1;
      forall n: nat ensures HasSent(sent, n) <==> HasSent(s.sent, n) {
        if HasSent(sent, n) {
          var i :| 0 <= i < |sent| && sent[i].number == n;
          assert s.sent[i].number == n;
        }
        if HasSent(s.sent, n) {
          var i :| 0 <= i < |s.sent| && s.sent[i].number == n;
          assert sent[i].number == n;
        }
      }
    } else {
      RecordNewSent(s, plan);
    }
  }

  lemma RecordNewSent(s: Sync, plan: SendPlan)
    requires SenderRetained(s) && PlannedFrom(s, plan) && !HasSent(s.sent, plan.target)
    ensures
      var (sent, evicted) := RecordSent(s.sent, plan);
      && Ordered(sent) && |sent| <= MAX_SENT_STATES
      && (forall i :: 0 <= i < |sent| ==> s.known < sent[i].number <= s.localLatest)
      && (forall n: nat :: HasSent(sent, n) <==> (HasSent(s.sent, n) || n == plan.target) && Some(n) != evicted)
      && (evicted.Some? ==> s.known < evicted.value < plan.target && HasSent(s.sent, evicted.value))
  {
    var (sent, evicted) := RecordSent(s.sent, plan);
    var skip := if |s.sent| == MAX_SENT_STATES then 1 else 0;
    QueueIsShifted(s.sent, skip, SentState(plan.target, plan.plannedAt));
  }

  /** Dropping up to one state at the front and appending a newer one. */
  lemma QueueIsShifted(sent: seq<SentState>, skip: nat, new_: SentState)
    requires Ordered(sent) && skip <= 1 && skip <= |sent|
    requires forall i :: 0 <= i < |sent| ==> sent[i].number < new_.number && sent[i].sentAt <= new_.sentAt
    ensures
      var r := sent[skip..] + [new_];
      && Ordered(r)
      && forall n: nat ::
           HasSent(r, n) <==> n == new_.number || (HasSent(sent, n) && (skip == 1 ==> n != sent[0].number))
  {
    var r := sent[skip..] + [new_];
    assert forall i :: 0 <= i < |r| - 1 ==> r[i] == sent[i + skip];
    assert r[|r| - 1] == new_;
    forall n: nat
      ensures HasSent(r, n) <==> n == new_.number || (HasSent(sent, n) && (skip == 1 ==> n != sent[0].number))
    {
      if HasSent(r, n) {
        var i :| 0 <= i < |r| && r[i].number == n;
        if i < |r| - 1 { assert sent[i + skip].number == n; }
      }
      if HasSent(sent, n) && (skip == 1 ==> n != sent[0].number) {
        var i :| 0 <= i < |sent| && sent[i].number == n;
        assert r[i - skip].number == n;
      }
    }
  }

  lemma CommitSendKeeps(s: Sync, plan: SendPlan)
    requires Retained(s) && PlannedFrom(s, plan) && CommitSend(s, plan).Ok?
    ensures
      var (next, evicted) := CommitSend(s, plan).value;
      && Retained(next)
      && (evicted.Some? ==> s.known < evicted.value < s.localLatest && HasSent(s.sent, evicted.value))
      && (forall n: nat :: HasSent(next.sent, n) <==> (HasSent(s.sent, n) || n == s.localLatest) && Some(n) != evicted)
  {
    RecordSentKeeps(s, plan);
  }

  /** `new_` is the newest remembered; the others that are kept have their old times. */
  predicate Stamped(sent: seq<SentState>, next: seq<SentState>, evicted: Option<nat>, new_: SentState) {
    && next != [] && next[|next| - 1] == new_
    && (forall x :: x in next && x.number != new_.number ==> x in sent)
    && (forall x :: x in sent && x.number != new_.number && Some(x.number) != evicted ==> x in next)
  }

  /** A new state displaces the oldest of thirty-two. */
  function Displaced(sent: seq<SentState>, target: nat): Option<nat> {
    if |sent| == 32 && sent[31].number != target then Some(sent[0].number) else None
  }

  /** A commit remembers the state sent under the time of its plan. */
  lemma CommitSendStamps(s: Sync, plan: SendPlan)
    requires Retained(s) && PlannedFrom(s, plan) && CommitSend(s, plan).Ok?
    ensures
      var (next, evicted) := CommitSend(s, plan).value;
      && evicted == Displaced(s.sent, s.localLatest)
      && Stamped(s.sent, next.sent, evicted, SentState(s.localLatest, plan.plannedAt))
      && next == s.(sent := next.sent, senderGeneration := s.senderGeneration + 1)
  {
    hide RecordSent;
    if HasSent(s.sent, plan.target) {
      Resent(s, plan);
    } else {
      SentFirst(s, plan);
    }
  }

  lemma Resent(s: Sync, plan: SendPlan)
    requires SenderRetained(s) && PlannedFrom(s, plan) && HasSent(s.sent, plan.target)
    ensures
      var (sent, evicted) := RecordSent(s.sent, plan);
      && Stamped(s.sent, sent, evicted, SentState(plan.target, plan.plannedAt))
      && evicted == Displaced(s.sent, plan.target)
  {
    var sent := RecordSent(s.sent, plan).0;
    var k :| 0 <= k < |s.sent| && s.sent[k].number == plan.target;
    assert k == |s.sent| - 1;
    forall x | x in s.sent && x.number != plan.target ensures x in sent {
      var i :| 0 <= i < |s.sent| && s.sent[i] == x;
      assert sent[i] == x;
    }
  }

  lemma SentFirst(s: Sync, plan: SendPlan)
    requires SenderRetained(s) && !HasSent(s.sent, plan.target)
    ensures
      var (sent, evicted) := RecordSent(s.sent, plan);
      && Stamped(s.sent, sent, evicted, SentState(plan.target, plan.plannedAt))
      && evicted == Displaced(s.sent, plan.target)
  {
    if |s.sent| == MAX_SENT_STATES { assert s.sent == [s.sent[0]] + s.sent[1..]; }
  }

  /** The state that a plan at `now` goes from: the newest sent, if that has not timed
      out, and otherwise the one known. */
  function BaseAt(s: Sync, now: nat, rto: nat): nat {
    if s.sent != [] && now < s.sent[|s.sent| - 1].sentAt + rto then s.sent[|s.sent| - 1].number else s.known
  }

  /** Planning, from the fields of the state alone. */
  lemma PlanSays(s: Sync, now: nat, rto: nat)
    requires Retained(s)
    ensures PlanSend(s, now, rto) ==
      if rto < 50 || rto > 5_000 then Err(InvalidRetransmissionTimeout)
      else if s.sent != [] && now < s.sent[|s.sent| - 1].sentAt then Err(TimeMovedBackwards)
      else if s.localLatest == BaseAt(s, now, rto) then Err(NoNewState)
      else Ok(SendPlan(s.senderGeneration, BaseAt(s, now, rto), s.localLatest, s.remoteLatest, s.known, now))
  {
    ScanPicksNewestOrKnown(s.sent, s.known, now, rto);
  }

  /** Right after a send there is nothing to send until it times out, and then the same
      state again, from the one known; a newer state goes from the one just sent. */
  lemma AfterSending(s: Sync, now: nat, rto: nat, t: nat, later: nat)
    requires Retained(s) && PlanSend(s, now, rto).Ok? && CommitSend(s, PlanSend(s, now, rto).value).Ok?
    requires 50 <= later <= 5_000
    ensures
      var next := CommitSend(s, PlanSend(s, now, rto).value).value.0;
      && PlanSend(next, t, later) ==
           (if t < now then Err(TimeMovedBackwards)
            else if t < now + later then Err(NoNewState)
            else Ok(SendPlan(s.senderGeneration + 1, s.known, s.localLatest, s.remoteLatest, s.known, t)))
      && (now <= t < now + later && AdvanceLocal(next).Ok? ==>
            PlanSend(AdvanceLocal(next).value, t, later) ==
              Ok(SendPlan(s.senderGeneration + 2, s.localLatest, s.localLatest + 1, s.remoteLatest, s.known, t)))
  {
    hide Ordered, ScanSent, RecordSent, HasSent;
    var plan := PlanSend(s, now, rto).value;
    PlanIsPlanned(s, now, rto);
    PlanSays(s, now, rto);
    CommitSendStamps(s, plan);
    CommitSendKeeps(s, plan);
    var next := CommitSend(s, plan).value.0;
    PlanSays(next, t, later);
    if AdvanceLocal(next).Ok? {
      AdvanceKeeps(next);
      PlanSays(AdvanceLocal(next).value, t, later);
    }
  }

  lemma ObserveKeeps(s: Sync, acknowledged: nat)
    requires Retained(s) && ObserveAcknowledgement(s, acknowledged).Ok?
    ensures
      var (next, outcome) := ObserveAcknowledgement(s, acknowledged).value;
      && Retained(next)
      && (outcome.Advanced? <==> acknowledged > s.known && HasSent(s.sent, acknowledged))
      && next.known == (if outcome.Advanced? then acknowledged else s.known)
      && (forall n: nat :: HasSent(next.sent, n) <==> HasSent(s.sent, n) && n > next.known)
  {
    hide Ordered, SentAbove, HasSent;
    var (next, outcome) := ObserveAcknowledgement(s, acknowledged).value;
    forall n: nat ensures HasSent(next.sent, n) <==> HasSent(s.sent, n) && n > next.known {
      HasSentAbove(s.sent, acknowledged, n);
      HasSentBounds(s, n);
    }
    if outcome.Advanced? {
      HasSentBounds(s, acknowledged);
      SentAboveIsFilter(s.sent, acknowledged);
      SentAboveIsOrdered(s.sent, acknowledged);
      forall i | 0 <= i < |next.sent| ensures acknowledged < next.sent[i].number <= s.localLatest {
        assert next.sent[i] in s.sent;
      }
    }
  }

  lemma HasSentBounds(s: Sync, n: nat)
    requires SenderRetained(s)
    ensures HasSent(s.sent, n) ==> s.known < n <= s.localLatest
  {
  }

  /** A plan `Classify` would still make. */
  predicate Applicable(s: Sync, plan: ApplyPlan) {
    && plan.base in s.received && plan.target !in s.received
    && plan.throwaway <= plan.base < plan.target
    && s.floor <= plan.base
    && plan.becomesLatest == (plan.target > s.remoteLatest)
    && CanRetain(s, plan.target)
  }

  lemma ClassifyIsApplicable<D>(s: Sync, m: Instruction<D>)
    requires Validate(s, m).None? && Classify(s, m).Apply?
    ensures Applicable(s, Classify(s, m).plan) && Classify(s, m).plan.generation == s.receiverGeneration
  {
  }

  lemma RaisedKeeps(s: Sync, plan: ApplyPlan)
    requires ReceiverRetained(s) && Applicable(s, plan)
    ensures
      var raised := Raised(s, plan);
      && Ascending(raised.received) && 1 <= |raised.received| <= MAX_RECEIVED_STATES
      && plan.base in raised.received && plan.target !in raised.received
      && s.floor <= raised.floor <= plan.target && raised.floor <= raised.received[0]
      && (forall x :: x in raised.received <==> x in s.received && x >= raised.floor)
      && raised.remoteLatest == (if plan.becomesLatest then plan.target else s.remoteLatest)
      && raised.received[|raised.received| - 1] == s.remoteLatest
      && (!plan.becomesLatest ==> raised == s)
  {
    var raised := Raised(s, plan);
    AtLeastIsFilter(s.received, raised.floor);
    assert s.remoteLatest in s.received;
    assert plan.base <= s.remoteLatest;
    if plan.becomesLatest {
      assert plan.base in raised.received;
      assert raised.received[0] in raised.received;
      assert s.remoteLatest in raised.received;
      assert raised.received[|raised.received| - 1] in s.received;
    }
  }

  /** What a committed receive keeps and gives up: the latest state is the
      largest, and a capacity eviction takes something older than what it admits. */
  lemma CommitReceiveKeeps(s: Sync, plan: ApplyPlan)
    requires Retained(s) && Applicable(s, plan) && CommitReceive(s, plan).Ok?
    ensures
      var (next, commit) := CommitReceive(s, plan).value;
      && Retained(next)
      && commit.discardBefore == next.floor >= s.floor
      && (forall n :: n in next.received <==>
            n == plan.target || (n in s.received && n >= next.floor && Some(n) != commit.evicted))
      && (commit.evicted.Some? ==> commit.evicted.value in s.received && commit.evicted.value < plan.target)
      && commit.evicted != Some(next.remoteLatest)
      && next.remoteLatest == (if plan.target > s.remoteLatest then plan.target else s.remoteLatest)
  {
    hide MakeRoom, Inserted, FirstEvictable, CanRetain, Ordered;
    var raised := Raised(s, plan);
    RaisedKeeps(s, plan);
    MakeRoomIsRemoval(raised.received, raised.floor);
    var (room, evicted) := MakeRoom(raised.received, raised.floor);
    InsertedIsOrdered(room, plan.target);
    EvictedIsOlder(s, plan);
    BoundsOf(Inserted(room, plan.target), raised.floor, raised.remoteLatest);
  }

  /** An ascending queue within bounds that holds its upper bound ends with it. */
  lemma BoundsOf(numbers: seq<nat>, floor: nat, latest: nat)
    requires Ascending(numbers) && latest in numbers
    requires forall x :: x in numbers ==> floor <= x <= latest
    ensures floor <= numbers[0] && numbers[|numbers| - 1] == latest
  {
    assert numbers[0] in numbers && numbers[|numbers| - 1] in numbers;
  }

  lemma EvictedIsOlder(s: Sync, plan: ApplyPlan)
    requires ReceiverRetained(s) && Applicable(s, plan)
    ensures
      var raised := Raised(s, plan);
      var evicted := MakeRoom(raised.received, raised.floor).1;
      evicted.Some? ==> evicted.value < plan.target && evicted.value < s.remoteLatest
  {
    var raised := Raised(s, plan);
    RaisedKeeps(s, plan);
    MakeRoomIsRemoval(raised.received, raised.floor);
  }
}
