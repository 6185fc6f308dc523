/** The time the event loop sleeps until (`run` in `src/session/driver.rs`) is
    exactly the first instant at which something it acts on would change.  Two things
    may change silently before; no later run can tell whether they did. */
module Wake {
  import opened Wrappers
  import opened RoundTripTime
  import Fragments
  import Prediction
  import Reachability
  import Reassembly
  import Scheduler

  /** What the loop waits on. */
  datatype Waiting<+T> = Waiting(
    tracker: Reachability.Tracker,
    reassembler: Reassembly.Reassembler,
    prediction: Prediction.Prediction<T>,
    sched: Scheduler.Sched,
    link: Scheduler.Link,
    frameInterval: Option<nat>,
    receiveNotBefore: nat)

  /** What the top of the loop leaves, and what it does about it. */
  datatype Turn<+T> = Turn(
    next: Waiting<T>, published: Option<Reachability.Status>, refresh: bool, poll: Scheduler.Poll)

  /** The top of the loop: publish reachability, expire an incomplete instruction,
      expire and re-judge the prediction, ask the scheduler.  `None` when the session
      ends there. */
  function TopOfLoop<T>(w: Waiting<T>, now: nat): Option<Turn<T>> {
    match Reachability.Update(w.tracker, now)
    case Err(_) => None
    case Ok(tracker) =>
      var (reassembler, failed) := Reassembly.Observed(w.reassembler, now);
      if Reachability.AttachmentTimedOut(tracker, now) || failed.Some? then None
      else
        var (expired, gone) := Prediction.Expire(w.prediction, now);
        var (judged, shown) := Prediction.UpdatePolicy(expired, now, w.frameInterval);
        match Scheduler.PollAt(w.sched, now, w.link)
        case (_, Err(_)) => None
        case (sched, Ok(poll)) =>
          Some(Turn(w.(tracker := tracker, reassembler := reassembler, prediction := judged, sched := sched),
                    if tracker == w.tracker then None else Some(tracker.current), gone || shown, poll))
  }

  /** The wake time, when the scheduler has nothing to send. */
  function WakeTime<T>(w: Waiting<T>, now: nat): Option<nat> {
    match Scheduler.PollAt(w.sched, now, w.link).1
    case Ok(Pending(at)) =>
      var predicted := Scheduler.Earlier(Prediction.NextDeadline(w.prediction), at);
      (match Reachability.NextStatusDeadline(w.tracker)
       case Err(_) => None
       case Ok(due) =>
         var reached := Scheduler.Earlier(due, predicted);
         Some(if now < w.receiveNotBefore < reached then w.receiveNotBefore else reached))
    case _ => None
  }

  /** Nothing the loop acts on is different at `t` from what it was at `now`. */
  predicate Quiet<T(==)>(w: Waiting<T>, now: nat, t: nat) {
    && Reachability.Calculate(w.tracker, t) == Ok(w.tracker.current)
    && !Reachability.AttachmentTimedOut(w.tracker, t)
    && Reassembly.Observed(w.reassembler, t).1.None?
    && Prediction.Expire(w.prediction, t).0 == w.prediction
    && !Prediction.UpdatePolicy(w.prediction, t, w.frameInterval).1
    && Scheduler.PollAt(w.sched, t, w.link).1 == Scheduler.PollAt(w.sched, now, w.link).1
    && (t >= w.receiveNotBefore <==> now >= w.receiveNotBefore)
  }

  /** Quiet, and the policy has nothing left to note. */
  predicate Settled<T(==)>(w: Waiting<T>, now: nat) {
    Quiet(w, now, now) && Prediction.UpdatePolicy(w.prediction, now, w.frameInterval).0 == w.prediction
  }

  /** The top of the loop settles everything for its own instant. */
  lemma TopOfLoopSettles<T>(w: Waiting<T>, now: nat)
    requires TopOfLoop(w, now).Some?
    ensures Settled(TopOfLoop(w, now).value.next, now)
    ensures Scheduler.PollAt(TopOfLoop(w, now).value.next.sched, now, w.link).1 == Ok(TopOfLoop(w, now).value.poll)
  {
    hide Scheduler.AllDeadlines, Scheduler.Due, Scheduler.Earliest;
    if now >= w.sched.lastObserved { AlikePolls(w.sched, now, now, w.link); }
    PolicyIsSettled(Prediction.Expire(w.prediction, now).0, now, w.frameInterval);
    ExpiryIsSettled(w.prediction, now, w.frameInterval);
    ObservedTwice(w.reassembler, now, now);
  }

  lemma PolicyIsSettled<T>(p: Prediction.Prediction<T>, now: nat, frameInterval: Option<nat>)
    ensures
      var next := Prediction.UpdatePolicy(p, now, frameInterval).0;
      Prediction.UpdatePolicy(next, now, frameInterval) == (next, false)
  {
  }

  lemma ExpiryIsSettled<T>(p: Prediction.Prediction<T>, now: nat, frameInterval: Option<nat>)
    ensures
      var next := Prediction.UpdatePolicy(Prediction.Expire(p, now).0, now, frameInterval).0;
      Prediction.Expire(next, now).0 == next
  {
  }

  // ----------------------------------------------------------- the first change

  /** The prediction is expired or newly displayed at its deadline and not before;
      until then the policy may only note a glitch of one that is displayed. */
  lemma PredictionIsExact<T>(p: Prediction.Prediction<T>, now: nat, frameInterval: Option<nat>, t: nat)
    requires Prediction.Expire(p, now).0 == p && !Prediction.UpdatePolicy(p, now, frameInterval).1 && now <= t
    ensures
      var due := Prediction.NextDeadline(p);
      && (due.Some? ==> now < due.value)
      && ((due.Some? ==> t < due.value) ==>
            var settled := Prediction.UpdatePolicy(p, now, frameInterval).0;
            && Prediction.Expire(p, t).0 == p && !Prediction.UpdatePolicy(p, t, frameInterval).1
            && Prediction.UpdatePolicy(p, t, frameInterval).0
               == if Prediction.GlitchDue(settled, t) then settled.(glitch := true) else settled)
      && (due == Some(t) ==> Prediction.Expire(p, t).0 != p || Prediction.UpdatePolicy(p, t, frameInterval).1)
  {
  }

  lemma ReachabilityIsExact(r: Reachability.Tracker, now: nat, t: nat)
    requires Reachability.Calculate(r, now) == Ok(r.current) && !Reachability.AttachmentTimedOut(r, now) && now <= t
    requires Reachability.NextStatusDeadline(r).Ok?
    ensures
      var due := Reachability.NextStatusDeadline(r).value;
      && (due.Some? ==> now < due.value)
      && ((due.Some? ==> t < due.value) ==>
            Reachability.Calculate(r, t) == Ok(r.current) && !Reachability.AttachmentTimedOut(r, t))
      && (due == Some(t) ==> Reachability.Calculate(r, t) != Ok(r.current) || Reachability.AttachmentTimedOut(r, t))
  {
  }

  lemma SchedulerIsExact(s: Scheduler.Sched, link: Scheduler.Link, now: nat, t: nat)
    requires Scheduler.PollAt(s, now, link).1.Ok? && Scheduler.PollAt(s, now, link).1.value.Pending? && now <= t
    ensures
      var due := Scheduler.PollAt(s, now, link).1.value.wakeAt;
      && now < due
      && (t < due ==> Scheduler.PollAt(s, t, link).1 == Scheduler.PollAt(s, now, link).1)
      && (t == due ==> Scheduler.PollAt(s, t, link).1 != Scheduler.PollAt(s, now, link).1)
  {
    hide Scheduler.AllDeadlines, Scheduler.Earliest;
    var d := Scheduler.AllDeadlines(s, link).value;
    Scheduler.DueIffEarliest(d, now);
    Scheduler.DueIffEarliest(d, t);
  }

  /** An expiry that did not fail cannot fail later. */
  lemma ObservingStaysFine(r: Reassembly.Reassembler, now: nat, t: nat)
    requires Reassembly.Observed(r, now).1.None? && now <= t
    ensures Reassembly.Observed(r, t).1.None?
  {
  }

  /** The loop neither spins nor sleeps past anything it acts on: the wake is later
      than now, nothing of that changes before it, and something does at it. */
  lemma WakeIsTheFirstChange<T>(w: Waiting<T>, now: nat, t: nat)
    requires Quiet(w, now, now) && WakeTime(w, now).Some? && now <= t
    ensures
      var wake := WakeTime(w, now).value;
      && now < wake
      && (t < wake ==> Quiet(w, now, t))
      && (t == wake ==> !Quiet(w, now, t))
  {
    hide Scheduler.PollAt, Prediction.NextDeadline, Reachability.NextStatusDeadline, Prediction.Expire,
      Prediction.UpdatePolicy, Reachability.Calculate, Reachability.AttachmentTimedOut, Reassembly.Observed;
    ObservingStaysFine(w.reassembler, now, t);
    SchedulerIsExact(w.sched, w.link, now, t);
    PredictionIsExact(w.prediction, now, w.frameInterval, t);
    ReachabilityIsExact(w.tracker, now, t);
  }

  // ------------------------------------------------------ what changes silently

  /** An incomplete instruction has outlived its time. */
  predicate SlotDue(r: Reassembly.Reassembler, now: nat) {
    r.incomplete.Some? && r.incomplete.value.createdAt + Fragments.LIFETIME_MS <= now
  }

  /** A turn of the loop before the wake does nothing and changes exactly this: two
      clocks, an incomplete instruction whose time is over, and a glitch noted while
      the prediction is displayed on a slow link. */
  lemma SilentChanges<T>(w: Waiting<T>, now: nat, t: nat)
    requires Settled(w, now) && WakeTime(w, now).Some? && now <= t < WakeTime(w, now).value
    ensures
      var slot := if SlotDue(w.reassembler, t) then None else w.reassembler.incomplete;
      TopOfLoop(w, t) == Some(Turn(
        w.(reassembler := Reassembly.Reassembler(slot, t),
           prediction := if Prediction.GlitchDue(w.prediction, t) then w.prediction.(glitch := true) else w.prediction,
           sched := w.sched.(lastObserved := t)),
        None, false, Scheduler.PollAt(w.sched, now, w.link).1.value))
  {
    hide Scheduler.AllDeadlines, Scheduler.Due, Scheduler.Earliest, Prediction.NextDeadline, Prediction.Expire,
      Prediction.UpdatePolicy, Prediction.GlitchDue, Reachability.NextStatusDeadline, Reachability.Calculate;
    WakeIsTheFirstChange(w, now, t);
    Prediction.SilentGlitchIff(w.prediction, now, w.frameInterval, t);
    ExactSlot(w.reassembler, t);
  }

  lemma ExactSlot(r: Reassembly.Reassembler, t: nat)
    requires Reassembly.Observed(r, t).1.None?
    ensures Reassembly.Observed(r, t).0 == Reassembly.Reassembler(if SlotDue(r, t) then None else r.incomplete, t)
  {
  }

  /** What the loop waits on at first in the two examples. */
  const IDLE: Scheduler.Link := Scheduler.Link(50, 1_000, None)

  /** A prediction displayed on a slow link since 0 and waited for at 100: the
      heartbeat at 3,000 wakes the loop, but the policy would note a glitch at 250. */
  lemma GlitchNotedSilently()
    ensures
      var entry := Prediction.Entry(0, 0, 0x41);
      var shown := Prediction.Prediction(
        Prediction.Adaptive, Prediction.Confirmed, true, false, [entry], Some(0), Some(1));
      var w := Waiting(Reachability.Tracker(Reachability.Responsive, Some(0), 0),
                       Reassembly.Reassembler(None, 100), shown,
                       Scheduler.Sched(0, 100, Some(0), None, None, None, 0), IDLE, Some(50), 0);
      && Settled(w, 100) && WakeTime(w, 100) == Some(3_000) && Prediction.NextDeadline(shown) == Some(10_000)
      && TopOfLoop(w, 250).Some? && TopOfLoop(w, 250).value.next.prediction != shown
  {
  }

  /** The first fragment of an instruction came at 0 and the rest is waited for at 9,500:
      the heartbeat at 12,000 wakes the loop, but its time is over at 10,000. */
  lemma SlotDroppedSilently()
    ensures
      var first := Fragments.Fragment(0, None, 7, 0, false, [0x41]);
      var slot := Reassembly.Push(Reassembly.Reassembler(None, 0), 0, first).0.incomplete;
      var w := Waiting(Reachability.Tracker(Reachability.Responsive, Some(9_000), 9_000),
                       Reassembly.Reassembler(slot, 9_500), Prediction.Fresh<nat>(Prediction.Adaptive),
                       Scheduler.Sched(0, 9_500, Some(9_000), None, None, None, 0), IDLE, None, 0);
      && slot.Some? && slot.value.fragments.Keys == {0}
      && Settled(w, 9_500) && WakeTime(w, 9_500) == Some(12_000)
      && TopOfLoop(w, 10_000).Some? && TopOfLoop(w, 10_000).value.next.reassembler.incomplete.None?
  {
  }

  // ---------------------------------------------------------- no run can tell

  /** Expiring early is expiring later. */
  lemma ObservedTwice(r: Reassembly.Reassembler, t: nat, later: nat)
    requires Reassembly.Observed(r, t).1.None? && t <= later
    ensures Reassembly.Observed(Reassembly.Observed(r, t).0, later) == Reassembly.Observed(r, later)
    ensures forall f :: Reassembly.Push(Reassembly.Observed(r, t).0, later, f) == Reassembly.Push(r, later, f)
  {
    hide Reassembly.PushKnown, Reassembly.PushNew;
  }

  /** What may happen to the loop: one of its turns, which may send what is due, a
      fragment, an event of the prediction, an output, a note to the scheduler, contact
      with the peer, a new measurement. */
  datatype Happening<+T> =
    | Looped(now: nat, sent: bool)
    | Arrived(now: nat, f: Fragments.Fragment)
    | Felt(event: Prediction.Event<T>)
    | Painted(authoritative: T)
    | Changed(now: nat)
    | Owed(now: nat)
    | Postponed(now: nat, delay: nat)
    | Heard(contact: nat, reply: nat)
    | Measured(link: Scheduler.Link, frameInterval: Option<nat>, receiveNotBefore: nat)

  predicate NotBefore<T>(h: Happening<T>, t: nat) {
    match h
    case Looped(now, _) => now >= t
    case Arrived(now, _) => now >= t
    case Changed(now) => now >= t
    case Owed(now) => now >= t
    case Postponed(now, _) => now >= t
    case _ => true
  }

  /** What it shows. */
  datatype Visible<+T> =
    | Turned(published: Option<Reachability.Status>, refresh: bool, poll: Scheduler.Poll, wake: Option<nat>)
    | Took(outcome: Result<Reassembly.Outcome, Reassembly.ReassemblyError>)
    | Refreshed(output: bool)
    | Displayed(terminal: T)
    | Nothing

  function Rescheduled<T>(w: Waiting<T>, sched: Result<Scheduler.Sched, TimingError>)
    : Option<(Waiting<T>, Visible<T>)>
  {
    match sched
    case Err(_) => None
    case Ok(next) => Some((w.(sched := next), Nothing))
  }

  function Looping<T>(w: Waiting<T>, now: nat, sent: bool): Option<(Waiting<T>, Visible<T>)> {
    match TopOfLoop(w, now)
    case None => None
    case Some(turn) =>
      var seen := Turned(turn.published, turn.refresh, turn.poll, WakeTime(turn.next, now));
      if turn.poll.Send? && sent then
        match Scheduler.CommitWake(turn.next.sched, turn.poll.plan)
        case Err(_) => None
        case Ok(sched) => Some((turn.next.(sched := sched), seen))
      else Some((turn.next, seen))
  }

  /** `None` when the session ends. */
  function Happen<T(==)>(w: Waiting<T>, terminals: Prediction.Terminals<T>, h: Happening<T>)
    : Option<(Waiting<T>, Visible<T>)>
    requires Prediction.Sound(w.prediction, terminals)
  {
    match h
    case Looped(now, sent) => Looping(w, now, sent)
    case Arrived(now, f) =>
      var (reassembler, outcome) := Reassembly.Push(w.reassembler, now, f);
      Some((w.(reassembler := reassembler), Took(outcome)))
    case Felt(event) =>
      (match Prediction.Step(w.prediction, terminals, event)
       case None => None
       case Some(next) =>
         Some((w.(prediction := next), Refreshed(Prediction.Refreshes(w.prediction, terminals, event)))))
    case Painted(authoritative) => Some((w, Displayed(Prediction.Display(w.prediction, authoritative))))
    case Changed(now) => Rescheduled(w, Scheduler.NoteLocalChange(w.sched, now))
    case Owed(now) => Rescheduled(w, Scheduler.NoteAcknowledgement(w.sched, now))
    case Postponed(now, delay) => Rescheduled(w, Scheduler.DeferSend(w.sched, now, delay))
    case Heard(contact, reply) =>
      Some((w.(tracker := w.tracker.(lastContact := Some(contact), lastReply := reply)), Nothing))
    case Measured(link, frameInterval, receiveNotBefore) =>
      Some((w.(link := link, frameInterval := frameInterval, receiveNotBefore := receiveNotBefore), Nothing))
  }

  /** `v` is `w` after a silent turn at `t`, or as good as. */
  predicate Alike<T(==)>(w: Waiting<T>, v: Waiting<T>, t: nat) {
    && v == w.(reassembler := v.reassembler, prediction := v.prediction, sched := v.sched)
    && Prediction.AlikeButGlitch(w.prediction, v.prediction)
    && (v.reassembler == w.reassembler
        || (v.reassembler == Reassembly.Observed(w.reassembler, t).0 && Reassembly.Observed(w.reassembler, t).1.None?))
    && (v.sched == w.sched || (v.sched == w.sched.(lastObserved := t) && w.sched.lastObserved <= t))
  }

  lemma AlikePolls(s: Scheduler.Sched, t: nat, later: nat, link: Scheduler.Link)
    requires s.lastObserved <= t <= later
    ensures Scheduler.PollAt(s.(lastObserved := t), later, link) == Scheduler.PollAt(s, later, link)
  {
    hide Scheduler.Due, Scheduler.Earliest;
  }

  lemma AlikeExpires<T>(p: Prediction.Prediction<T>, q: Prediction.Prediction<T>, now: nat, frameInterval: Option<nat>)
    requires Prediction.AlikeButGlitch(p, q)
    ensures
      var (a, b) := (Prediction.Expire(p, now), Prediction.Expire(q, now));
      var c := Prediction.UpdatePolicy(a.0, now, frameInterval);
      var d := Prediction.UpdatePolicy(b.0, now, frameInterval);
      && a.1 == b.1 && c.1 == d.1 && Prediction.AlikeButGlitch(c.0, d.0)
      && Prediction.NextDeadline(c.0) == Prediction.NextDeadline(d.0)
  {
  }

  /** A real turn makes everything equal again but the glitch. */
  lemma TurnKeepsAlike<T>(w: Waiting<T>, v: Waiting<T>, t: nat, now: nat, sent: bool)
    requires Alike(w, v, t) && now >= t
    ensures Looping(w, now, sent).Some? <==> Looping(v, now, sent).Some?
    ensures Looping(w, now, sent).Some? ==>
      && Looping(w, now, sent).value.1 == Looping(v, now, sent).value.1
      && Alike(Looping(w, now, sent).value.0, Looping(v, now, sent).value.0, t)
  {
    hide Scheduler.PollAt, Reassembly.Observed, Prediction.Expire, Prediction.UpdatePolicy, Prediction.NextDeadline,
      Prediction.AlikeButGlitch, Reachability.Update, Reachability.NextStatusDeadline, Reachability.AttachmentTimedOut;
    AlikeExpires(w.prediction, v.prediction, now, w.frameInterval);
    if v.reassembler != w.reassembler { ObservedTwice(w.reassembler, t, now); }
    if v.sched != w.sched { AlikePolls(w.sched, t, now, w.link); }
  }

  lemma HappenKeepsAlike<T>(w: Waiting<T>, v: Waiting<T>, t: nat, terminals: Prediction.Terminals<T>, h: Happening<T>)
    requires Prediction.Sound(w.prediction, terminals) && Alike(w, v, t) && NotBefore(h, t)
    ensures Prediction.Sound(v.prediction, terminals)
    ensures Happen(w, terminals, h).Some? <==> Happen(v, terminals, h).Some?
    ensures Happen(w, terminals, h).Some? ==>
      && Happen(w, terminals, h).value.1 == Happen(v, terminals, h).value.1
      && Alike(Happen(w, terminals, h).value.0, Happen(v, terminals, h).value.0, t)
  {
    hide Looping, Reassembly.Observed, Reassembly.Push, Prediction.Step, Prediction.Refreshes,
      Prediction.AlikeButGlitch, Prediction.Display;
    Prediction.StepKeepsAlike(w.prediction, v.prediction, terminals, Prediction.Reset);
    match h
    case Looped(now, sent) => TurnKeepsAlike(w, v, t, now, sent);
    case Arrived(now, f) => if v.reassembler != w.reassembler { ObservedTwice(w.reassembler, t, now); }
    case Felt(event) => Prediction.StepKeepsAlike(w.prediction, v.prediction, terminals, event);
    case Painted(authoritative) => Prediction.AlikeLooksTheSame(w.prediction, v.prediction, authoritative);
    case _ =>
  }

  lemma HappenKeepsSound<T>(w: Waiting<T>, terminals: Prediction.Terminals<T>, h: Happening<T>)
    requires Prediction.Sound(w.prediction, terminals) && Happen(w, terminals, h).Some?
    ensures Prediction.Sound(Happen(w, terminals, h).value.0.prediction, terminals)
  {
    hide Prediction.Step, Scheduler.PollAt, Reassembly.Push, Prediction.Expire, Prediction.UpdatePolicy;
    match h
    case Looped(now, _) => JudgingKeepsSound(w.prediction, terminals, now, w.frameInterval);
    case Felt(event) => Prediction.StepKeepsSound(w.prediction, terminals, event);
    case _ =>
  }

  lemma JudgingKeepsSound<T>(p: Prediction.Prediction<T>, t: Prediction.Terminals<T>, now: nat,
                             frameInterval: Option<nat>)
    requires Prediction.Sound(p, t)
    ensures Prediction.Sound(Prediction.UpdatePolicy(Prediction.Expire(p, now).0, now, frameInterval).0, t)
  {
    hide Prediction.UpdatePolicy, Prediction.Fold;
    Prediction.PolicyNeverRetracts(Prediction.Expire(p, now).0, t, now, frameInterval);
  }

  /** Everything seen of a run, up to the end of the session. */
  function Trace<T(==)>(w: Waiting<T>, terminals: Prediction.Terminals<T>, hs: seq<Happening<T>>): seq<Visible<T>>
    requires Prediction.Sound(w.prediction, terminals)
    decreases |hs|
  {
    if hs == [] || Happen(w, terminals, hs[0]).None? then []
    else
      HappenKeepsSound(w, terminals, hs[0]);
      [Happen(w, terminals, hs[0]).value.1] + Trace(Happen(w, terminals, hs[0]).value.0, terminals, hs[1..])
  }

  lemma {:induction false} AlikeTraces<T>(w: Waiting<T>, v: Waiting<T>, t: nat, terminals: Prediction.Terminals<T>,
                                          hs: seq<Happening<T>>)
    requires Prediction.Sound(w.prediction, terminals) && Alike(w, v, t)
    requires forall i :: 0 <= i < |hs| ==> NotBefore(hs[i], t)
    ensures Prediction.Sound(v.prediction, terminals) && Trace(w, terminals, hs) == Trace(v, terminals, hs)
    decreases |hs|
  {
    hide Happen, Alike, NotBefore;
    assert Prediction.Sound(v.prediction, terminals) by { AlikeIsSound(w, v, t, terminals); }
    if hs != [] {
      HappenKeepsAlike(w, v, t, terminals, hs[0]);
      if Happen(w, terminals, hs[0]).Some? {
        HappenKeepsSound(w, terminals, hs[0]);
        AlikeTraces(Happen(w, terminals, hs[0]).value.0, Happen(v, terminals, hs[0]).value.0, t, terminals, hs[1..]);
      }
    }
  }

  lemma AlikeIsSound<T>(w: Waiting<T>, v: Waiting<T>, t: nat, terminals: Prediction.Terminals<T>)
    requires Prediction.Sound(w.prediction, terminals) && Alike(w, v, t)
    ensures Prediction.Sound(v.prediction, terminals)
  {
    hide Prediction.Fold, Reassembly.Observed;
  }

  /** Sleeping until the wake loses nothing: had the loop turned at any instant before
      it, that turn would have done nothing, and every run from then on would show
      exactly the same, though a glitch or an expiry was noted later. */
  lemma SleepingLosesNothing<T>(w: Waiting<T>, now: nat, t: nat, terminals: Prediction.Terminals<T>,
                                hs: seq<Happening<T>>)
    requires Settled(w, now) && WakeTime(w, now).Some? && now <= t < WakeTime(w, now).value
    requires Prediction.Sound(w.prediction, terminals)
    requires forall i :: 0 <= i < |hs| ==> NotBefore(hs[i], t)
    ensures TopOfLoop(w, t).Some? && Prediction.Sound(TopOfLoop(w, t).value.next.prediction, terminals)
    ensures
      var turn := TopOfLoop(w, t).value;
      && turn.published.None? && !turn.refresh && turn.poll.Pending?
      && Trace(turn.next, terminals, hs) == Trace(w, terminals, hs)
  {
    hide Scheduler.AllDeadlines, Scheduler.Due, Scheduler.Earliest, Prediction.NextDeadline, Prediction.Expire,
      Prediction.UpdatePolicy, Reachability.NextStatusDeadline, Reachability.Calculate, Trace, NotBefore;
    SilentChanges(w, now, t);
    WakeIsTheFirstChange(w, now, t);
    ExactSlot(w.reassembler, t);
    AlikeTraces(w, TopOfLoop(w, t).value.next, t, terminals, hs);
  }
}
