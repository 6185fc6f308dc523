/** When the next instruction is due (`SendScheduler` in `src/timing.rs`). */
module Scheduler {
  import opened Wrappers
  import opened RoundTripTime

  const COLLECTION_MS: nat := 15
  const ACKNOWLEDGEMENT_MS: nat := 100
  const HEARTBEAT_MS: nat := 3_000

  datatype Reason = StateChange | Retransmission | Acknowledgement | Heartbeat

  datatype Sched = Sched(
    startedAt: nat,
    lastObserved: nat,
    lastSend: Option<nat>,
    localChangeAt: Option<nat>,
    acknowledgementAt: Option<nat>,
    notBefore: Option<nat>,
    generation: nat)

  datatype WakePlan = WakePlan(generation: nat, plannedAt: nat, reasons: set<Reason>)

  datatype Poll = Pending(wakeAt: nat) | Send(plan: WakePlan)

  /** What the poll looks at besides its own fields. */
  datatype Link = Link(frameInterval: nat, timeout: nat, sentAt: Option<nat>)

  function Deadline(start: nat, delay: nat): Result<nat, TimingError> {
    if start + delay > U64_MAX then Err(TimerExhausted) else Ok(start + delay)
  }

  function DeadlineOf(start: Option<nat>, delay: nat): Result<Option<nat>, TimingError> {
    match start
    case None => Ok(None)
    case Some(at) => match Deadline(at, delay) case Err(e) => Err(e) case Ok(due) => Ok(Some(due))
  }

  function Max(a: nat, b: nat): nat {
    if a < b then b else a
  }

  /** A local change waits for more changes to collect and for the next frame. */
  function StateDue(s: Sched, frameInterval: nat): Result<Option<nat>, TimingError> {
    match s.localChangeAt
    case None => Ok(None)
    case Some(at) =>
      match Deadline(at, COLLECTION_MS)
      case Err(e) => Err(e)
      case Ok(collected) =>
        match DeadlineOf(s.lastSend, frameInterval)
        case Err(e) => Err(e)
        case Ok(frame) => Ok(Some(Max(collected, if frame.Some? then frame.value else collected)))
  }

  /** The deadline of each reason. */
  datatype Deadlines = Deadlines(state: Option<nat>, acknowledgement: Option<nat>, retransmission: Option<nat>,
                                 heartbeat: nat)

  function AllDeadlines(s: Sched, link: Link): Result<Deadlines, TimingError> {
    match StateDue(s, link.frameInterval)
    case Err(e) => Err(e)
    case Ok(state) =>
      match DeadlineOf(s.acknowledgementAt, ACKNOWLEDGEMENT_MS)
      case Err(e) => Err(e)
      case Ok(acknowledgement) =>
        match DeadlineOf(link.sentAt, link.timeout)
        case Err(e) => Err(e)
        case Ok(retransmission) =>
          match Deadline(if s.lastSend.Some? then s.lastSend.value else s.startedAt, HEARTBEAT_MS)
          case Err(e) => Err(e)
          case Ok(heartbeat) => Ok(Deadlines(state, acknowledgement, retransmission, heartbeat))
  }

  predicate Passed(due: Option<nat>, now: nat) {
    due.Some? && due.value <= now
  }

  /** The reasons whose deadline has come. */
  function Due(d: Deadlines, now: nat): (reasons: set<Reason>)
    ensures StateChange in reasons <==> Passed(d.state, now)
    ensures Retransmission in reasons <==> Passed(d.retransmission, now)
    ensures Acknowledgement in reasons <==> Passed(d.acknowledgement, now)
    ensures Heartbeat in reasons <==> d.heartbeat <= now
  {
    (if Passed(d.state, now) then {StateChange} else {})
    + (if Passed(d.retransmission, now) then {Retransmission} else {})
    + (if Passed(d.acknowledgement, now) then {Acknowledgement} else {})
    + (if d.heartbeat <= now then {Heartbeat} else {})
  }

  function Earlier(due: Option<nat>, other: nat): nat {
    if due.Some? && due.value < other then due.value else other
  }

  function Earliest(d: Deadlines): nat {
    Earlier(d.state, Earlier(d.acknowledgement, Earlier(d.retransmission, d.heartbeat)))
  }

  /** Polling only moves the clock. */
  function PollAt(s: Sched, now: nat, link: Link): (Sched, Result<Poll, TimingError>) {
    if now < s.lastObserved then (s, Err(TimeMovedBackwards))
    else
      var at := s.(lastObserved := now);
      if link.sentAt.Some? && link.sentAt.value > now then (at, Err(TimeMovedBackwards))
      else
        match AllDeadlines(s, link)
        case Err(e) => (at, Err(e))
        case Ok(d) =>
          (at,
           if Due(d, now) != {} then
             if s.notBefore.Some? && now < s.notBefore.value then Ok(Pending(s.notBefore.value))
             else Ok(Send(WakePlan(s.generation, now, Due(d, now))))
           else Ok(Pending(Earliest(d))))
  }

  function NoteLocalChange(s: Sched, now: nat): Result<Sched, TimingError> {
    if now < s.lastObserved then Err(TimeMovedBackwards)
    else if s.localChangeAt.Some? then Ok(s.(lastObserved := now))
    else if s.generation == U64_MAX then Err(GenerationExhausted)
    else Ok(s.(lastObserved := now, localChangeAt := Some(now), generation := s.generation + 1))
  }

  function NoteAcknowledgement(s: Sched, now: nat): Result<Sched, TimingError> {
    if now < s.lastObserved then Err(TimeMovedBackwards)
    else if s.acknowledgementAt.Some? then Ok(s.(lastObserved := now))
    else if s.generation == U64_MAX then Err(GenerationExhausted)
    else Ok(s.(lastObserved := now, acknowledgementAt := Some(now), generation := s.generation + 1))
  }

  function CommitWake(s: Sched, plan: WakePlan): Result<Sched, TimingError> {
    if plan.generation != s.generation || plan.plannedAt != s.lastObserved then Err(StalePlan)
    else if s.generation == U64_MAX then Err(GenerationExhausted)
    else Ok(Sched(s.startedAt, s.lastObserved, Some(plan.plannedAt), None, None, None, s.generation + 1))
  }

  function DeferSend(s: Sched, now: nat, delay: nat): Result<Sched, TimingError> {
    match Deadline(now, delay)
    case Err(e) => Err(e)
    case Ok(notBefore) =>
      if now < s.lastObserved then Err(TimeMovedBackwards)
      else Ok(s.(lastObserved := now, notBefore := Some(notBefore)))
  }

  // --------------------------------------------------------------- in place

  class SendScheduler {
    const startedAtMs: nat
    var lastObservedMs: nat
    var lastSendMs: Option<nat>
    var localChangeAtMs: Option<nat>
    var acknowledgementAtMs: Option<nat>
    var sendNotBeforeMs: Option<nat>
    var generation: nat

    function View(): Sched
      reads this
    {
      Sched(startedAtMs, lastObservedMs, lastSendMs, localChangeAtMs, acknowledgementAtMs, sendNotBeforeMs, generation)
    }

    constructor (startedAt: nat)
      ensures View() == Sched(startedAt, startedAt, None, None, None, None, 0)
    {
      startedAtMs, lastObservedMs := startedAt, startedAt;
      lastSendMs, localChangeAtMs, acknowledgementAtMs, sendNotBeforeMs, generation := None, None, None, None, 0;
    }

    method ObserveTime(now: nat) returns (ok: bool)
      modifies this
      ensures ok == (old(lastObservedMs) <= now)
      ensures View() == if ok then old(View()).(lastObserved := now) else old(View())
    {
      ok := lastObservedMs <= now;
      if ok {
        lastObservedMs := now;
      }
    }

    method LocalChange(now: nat) returns (r: Result<(), TimingError>)
      modifies this
      ensures
        match NoteLocalChange(old(View()), now)
        case Err(e) =>
          && r == Err(e)
          && View() == if e.TimeMovedBackwards? then old(View()) else old(View()).(lastObserved := now)
        case Ok(next) => r == Ok(()) && View() == next
    {
      var ok := ObserveTime(now);
      if !ok {
        return Err(TimeMovedBackwards);
      }
      if localChangeAtMs.None? {
        if generation == U64_MAX {
          return Err(GenerationExhausted);
        }
        localChangeAtMs, generation := Some(now), generation + 1;
      }
      return Ok(());
    }

    method AcknowledgementNeeded(now: nat) returns (r: Result<(), TimingError>)
      modifies this
      ensures
        match NoteAcknowledgement(old(View()), now)
        case Err(e) =>
          && r == Err(e)
          && View() == if e.TimeMovedBackwards? then old(View()) else old(View()).(lastObserved := now)
        case Ok(next) => r == Ok(()) && View() == next
    {
      var ok := ObserveTime(now);
      if !ok {
        return Err(TimeMovedBackwards);
      }
      if acknowledgementAtMs.None? {
        if generation == U64_MAX {
          return Err(GenerationExhausted);
        }
        acknowledgementAtMs, generation := Some(now), generation + 1;
      }
      return Ok(());
    }

    method PollNow(now: nat, link: Link) returns (r: Result<Poll, TimingError>)
      modifies this
      ensures (View(), r) == PollAt(old(View()), now, link)
    {
      hide AllDeadlines, Earliest;
      var ok := ObserveTime(now);
      if !ok || (link.sentAt.Some? && link.sentAt.value > now) {
        return Err(TimeMovedBackwards);
      }
      DeadlinesIgnoreClock(old(View()), View(), link);
      var deadlines := AllDeadlines(View(), link);
      if deadlines.Err? {
        return Err(deadlines.error);
      }
      var d := deadlines.value;
      var reasons: set<Reason> := {};
      if Passed(d.state, now) {
        reasons := reasons + {StateChange};
      }
      if Passed(d.retransmission, now) {
        reasons := reasons + {Retransmission};
      }
      if Passed(d.acknowledgement, now) {
        reasons := reasons + {Acknowledgement};
      }
      if d.heartbeat <= now {
        reasons := reasons + {Heartbeat};
      }
      assert reasons == Due(d, now);
      if reasons != {} {
        if sendNotBeforeMs.Some? && now < sendNotBeforeMs.value {
          return Ok(Pending(sendNotBeforeMs.value));
        }
        return Ok(Send(WakePlan(generation, now, reasons)));
      }
      return Ok(Pending(Earliest(d)));
    }

    method Commit(plan: WakePlan) returns (r: Result<(), TimingError>)
      modifies this
      ensures
        match CommitWake(old(View()), plan)
        case Err(e) => r == Err(e) && View() == old(View())
        case Ok(next) => r == Ok(()) && View() == next
    {
      if plan.generation != generation || plan.plannedAt != lastObservedMs {
        return Err(StalePlan);
      }
      if generation == U64_MAX {
        return Err(GenerationExhausted);
      }
      localChangeAtMs, acknowledgementAtMs, sendNotBeforeMs := None, None, None;
      lastSendMs, generation := Some(plan.plannedAt), generation + 1;
      return Ok(());
    }

    method Defer(now: nat, delay: nat) returns (r: Result<(), TimingError>)
      modifies this
      ensures
        match DeferSend(old(View()), now, delay)
        case Err(e) => r == Err(e) && View() == old(View())
        case Ok(next) => r == Ok(()) && View() == next
    {
      if now + delay > U64_MAX {
        return Err(TimerExhausted);
      }
      var ok := ObserveTime(now);
      if !ok {
        return Err(TimeMovedBackwards);
      }
      sendNotBeforeMs := Some(now + delay);
      return Ok(());
    }
  }

  lemma DeadlinesIgnoreClock(s: Sched, t: Sched, link: Link)
    requires t == s.(lastObserved := t.lastObserved)
    ensures AllDeadlines(s, link) == AllDeadlines(t, link)
  {
  }

  // --------------------------------------------------------- from the notes alone

  function Origin(s: Sched): nat {
    if s.lastSend.Some? then s.lastSend.value else s.startedAt
  }

  /** A reason to send at `now`: a change collected for 15 ms and a frame after the last
      send, an acknowledgement owed for 100 ms, a state unacknowledged for the timeout,
      or 3,000 ms without a send. */
  predicate Wants(s: Sched, link: Link, reason: Reason, now: nat) {
    match reason
    case StateChange =>
      && s.localChangeAt.Some? && s.localChangeAt.value + 15 <= now
      && (s.lastSend.Some? ==> s.lastSend.value + link.frameInterval <= now)
    case Acknowledgement => s.acknowledgementAt.Some? && s.acknowledgementAt.value + 100 <= now
    case Retransmission => link.sentAt.Some? && link.sentAt.value + link.timeout <= now
    case Heartbeat => Origin(s) + 3_000 <= now
  }

  /** No deadline is beyond 64 bits. */
  predicate InTime(s: Sched, link: Link) {
    && (s.localChangeAt.Some? ==>
          && s.localChangeAt.value + 15 <= U64_MAX
          && (s.lastSend.Some? ==> s.lastSend.value + link.frameInterval <= U64_MAX))
    && (s.acknowledgementAt.Some? ==> s.acknowledgementAt.value + 100 <= U64_MAX)
    && (link.sentAt.Some? ==> link.sentAt.value + link.timeout <= U64_MAX)
    && Origin(s) + 3_000 <= U64_MAX
  }

  /** A poll, from the notes alone: it sends exactly when there is a reason and no
      deferral, and gives exactly the reasons there are. */
  lemma PollSays(s: Sched, now: nat, link: Link)
    ensures
      var (next, r) := PollAt(s, now, link);
      && next == (if now < s.lastObserved then s else s.(lastObserved := now))
      && (r.Ok? <==>
            s.lastObserved <= now && (link.sentAt.Some? ==> link.sentAt.value <= now) && InTime(s, link))
      && (r.Ok? ==>
            && (r.value.Send? <==>
                  && (s.notBefore.Some? ==> s.notBefore.value <= now)
                  && exists reason :: Wants(s, link, reason, now))
            && (r.value.Send? ==>
                  && r.value.plan.generation == s.generation && r.value.plan.plannedAt == now
                  && forall reason :: reason in r.value.plan.reasons <==> Wants(s, link, reason, now)))
  {
    if AllDeadlines(s, link).Ok? {
      var reasons := Due(AllDeadlines(s, link).value, now);
      forall reason ensures reason in reasons <==> Wants(s, link, reason, now) {}
      if reasons != {} {
        var reason :| reason in reasons;
        assert Wants(s, link, reason, now);
      }
    }
  }

  /** Of several changes the first counts, until a send; and so for acknowledgements. */
  lemma FirstNoteCounts(s: Sched, now: nat, later: nat)
    requires now <= later
    ensures
      var (change, owed) := (NoteLocalChange(s, now), NoteAcknowledgement(s, now));
      && (change.Ok? <==> s.lastObserved <= now && (s.localChangeAt.Some? || s.generation != U64_MAX))
      && (owed.Ok? <==> s.lastObserved <= now && (s.acknowledgementAt.Some? || s.generation != U64_MAX))
      && (change.Ok? ==>
            && change.value == s.(lastObserved := now, generation := Counted(s.generation, s.localChangeAt),
                                  localChangeAt := First(s.localChangeAt, now))
            && NoteLocalChange(change.value, later) == Ok(change.value.(lastObserved := later)))
      && (owed.Ok? ==>
            && owed.value == s.(lastObserved := now, generation := Counted(s.generation, s.acknowledgementAt),
                                acknowledgementAt := First(s.acknowledgementAt, now))
            && NoteAcknowledgement(owed.value, later) == Ok(owed.value.(lastObserved := later)))
  {
  }

  function First(noted: Option<nat>, now: nat): Option<nat> {
    if noted.Some? then noted else Some(now)
  }

  function Counted(generation: nat, noted: Option<nat>): nat {
    if noted.Some? then generation else generation + 1
  }

  /** Right after a send there is no reason for the next but a state that times out, or
      3,000 ms gone by; a plan made before it is stale. */
  lemma AfterSend(s: Sched, now: nat, link: Link, t: nat, later: Link)
    requires PollAt(s, now, link).1.Ok? && PollAt(s, now, link).1.value.Send? && s.generation != U64_MAX
    ensures
      var (at, plan) := (PollAt(s, now, link).0, PollAt(s, now, link).1.value.plan);
      && CommitWake(at, plan).Ok?
      && var next := CommitWake(at, plan).value;
         && (forall reason :: Wants(next, later, reason, t) ==>
               (reason == Retransmission && later.sentAt.Some?) || (reason == Heartbeat && now + 3_000 <= t))
         && next == Sched(s.startedAt, now, Some(now), None, None, None, s.generation + 1)
         && CommitWake(next, plan) == Err(StalePlan)
  {
    hide AllDeadlines, Due;
  }

  /** Nothing is sent while deferred. */
  lemma NothingWhileDeferred(s: Sched, now: nat, delay: nat, t: nat, link: Link)
    ensures DeferSend(s, now, delay).Ok? <==> s.lastObserved <= now && now + delay <= U64_MAX
    ensures DeferSend(s, now, delay).Ok? ==>
      var next := DeferSend(s, now, delay).value;
      && next == s.(lastObserved := now, notBefore := Some(now + delay))
      && (t < now + delay && PollAt(next, t, link).1.Ok? ==> PollAt(next, t, link).1.value.Pending?)
  {
    hide AllDeadlines, Due;
  }

  // ------------------------------------------------------------------ exactness

  /** The instant a send becomes due with no further notes: the later of the
      earliest deadline and the deferral. */
  function SendTime(s: Sched, link: Link): nat
    requires AllDeadlines(s, link).Ok?
  {
    Max(Earliest(AllDeadlines(s, link).value), if s.notBefore.Some? then s.notBefore.value else 0)
  }

  predicate Pollable(s: Sched, now: nat, link: Link) {
    && s.lastObserved <= now && (link.sentAt.Some? ==> link.sentAt.value <= now)
    && AllDeadlines(s, link).Ok?
  }

  lemma DueIffEarliest(d: Deadlines, now: nat)
    ensures Due(d, now) != {} <==> Earliest(d) <= now
  {
    var reasons := Due(d, now);
    if Earliest(d) <= now {
      assert StateChange in reasons || Retransmission in reasons || Acknowledgement in reasons || Heartbeat in reasons;
    }
    if reasons != {} {
      var reason :| reason in reasons;
    }
  }

  /** A poll answers Send exactly from the send time on, giving exactly the
      reasons whose deadlines have passed; until then it answers with a later
      wake before which no Send is possible. */
  lemma PollIsExact(s: Sched, now: nat, link: Link)
    requires Pollable(s, now, link)
    ensures
      var poll := PollAt(s, now, link).1;
      && poll.Ok?
      && (poll.value.Send? <==> SendTime(s, link) <= now)
      && (poll.value.Send? ==> poll.value.plan == WakePlan(s.generation, now, Due(AllDeadlines(s, link).value, now)))
      && (poll.value.Pending? ==> now < poll.value.wakeAt <= SendTime(s, link))
  {
    hide AllDeadlines, Earliest;
    DueIffEarliest(AllDeadlines(s, link).value, now);
  }

  /** No Send can be answered at any instant before a pending wake. */
  lemma NothingBeforeWake(s: Sched, now: nat, link: Link, t: nat)
    requires Pollable(s, now, link) && PollAt(s, now, link).1.value.Pending?
    requires now <= t < PollAt(s, now, link).1.value.wakeAt
    ensures PollAt(PollAt(s, now, link).0, t, link).1 == Ok(Pending(PollAt(s, now, link).1.value.wakeAt))
  {
    hide AllDeadlines, Earliest;
    var at := PollAt(s, now, link).0;
    DeadlinesIgnoreClock(s, at, link);
    DueIffEarliest(AllDeadlines(s, link).value, now);
    DueIffEarliest(AllDeadlines(s, link).value, t);
  }

  /** Sleeping until the wake of each pending poll, at most two wakes reach the
      Send, and it comes exactly at the send time. */
  lemma TwoWakesReachSend(s: Sched, now: nat, link: Link)
    requires Pollable(s, now, link) && PollAt(s, now, link).1.value.Pending?
    ensures
      var first := PollAt(s, now, link).1.value.wakeAt;
      var second := PollAt(PollAt(s, now, link).0, first, link);
      && second.1.Ok?
      && (second.1.value.Send? ==> first == SendTime(s, link))
      && (second.1.value.Pending? ==>
            && second.1.value.wakeAt == SendTime(s, link)
            && PollAt(second.0, second.1.value.wakeAt, link).1.Ok?
            && PollAt(second.0, second.1.value.wakeAt, link).1.value.Send?)
  {
    hide AllDeadlines, Earliest;
    var (at, poll) := PollAt(s, now, link);
    var d := AllDeadlines(s, link).value;
    DeadlinesIgnoreClock(s, at, link);
    DueIffEarliest(d, now);
    DueIffEarliest(d, poll.value.wakeAt);
    DueIffEarliest(d, SendTime(s, link));
    var (after, again) := PollAt(at, poll.value.wakeAt, link);
    DeadlinesIgnoreClock(s, after, link);
  }
}
