/** Whether the peer can be reached (`src/session/reachability.rs`). */
module Reachability {
  import opened Wrappers

  const ATTACHMENT_MS: nat := 15_000
  const CONTACT_MS: nat := 6_500
  const REPLY_MS: nat := 10_000

  datatype Status = AwaitingPeer | Responsive | NoRecentContact | NoRecentReply

  datatype ReachabilityError = ClockMovedBackwards | DeadlineExhausted

  datatype Tracker = Tracker(current: Status, lastContact: Option<nat>, lastReply: nat)

  const INITIAL_TRACKER: Tracker := Tracker(AwaitingPeer, None, 0)

  function Calculate(t: Tracker, now: nat): Result<Status, ReachabilityError> {
    match t.lastContact
    case None => Ok(AwaitingPeer)
    case Some(contact) =>
      if now < contact then Err(ClockMovedBackwards)
      else if now - contact >= CONTACT_MS then Ok(NoRecentContact)
      else if now < t.lastReply then Err(ClockMovedBackwards)
      else if now - t.lastReply >= REPLY_MS then Ok(NoRecentReply)
      else Ok(Responsive)
  }

  function Update(t: Tracker, now: nat): Result<Tracker, ReachabilityError> {
    match Calculate(t, now)
    case Err(e) => Err(e)
    case Ok(next) => Ok(t.(current := next))
  }

  predicate AttachmentTimedOut(t: Tracker, now: nat) {
    t.lastContact.None? && now >= ATTACHMENT_MS
  }

  function ContactDeadline(t: Tracker): Result<nat, ReachabilityError> {
    if t.lastContact.None? then Err(ClockMovedBackwards)
    else if t.lastContact.value + CONTACT_MS > U64_MAX then Err(DeadlineExhausted)
    else Ok(t.lastContact.value + CONTACT_MS)
  }

  function NextStatusDeadline(t: Tracker): Result<Option<nat>, ReachabilityError> {
    match t.current
    case AwaitingPeer => Ok(Some(ATTACHMENT_MS))
    case Responsive =>
      (match ContactDeadline(t)
       case Err(e) => Err(e)
       case Ok(contact) =>
         if t.lastReply + REPLY_MS > U64_MAX then Err(DeadlineExhausted)
         else Ok(Some(if contact < t.lastReply + REPLY_MS then contact else t.lastReply + REPLY_MS)))
    case NoRecentReply => (match ContactDeadline(t) case Err(e) => Err(e) case Ok(contact) => Ok(Some(contact)))
    case NoRecentContact => Ok(None)
  }

  /** Which status holds at which distance: without any contact the peer is awaited;
      6,500 ms after the last contact there is none; 10,000 ms after the last state was
      sent that the peer replied to, no reply. */
  lemma StatusSays(t: Tracker, now: nat)
    ensures Update(t, now).Ok? ==> Update(t, now).value == t.(current := Update(t, now).value.current)
    ensures Update(t, now).Ok? <==>
      t.lastContact.Some? ==>
        now >= t.lastContact.value && (now < t.lastContact.value + 6_500 ==> now >= t.lastReply)
    ensures Update(t, now).Ok? ==>
      var status := Update(t, now).value.current;
      && (status == AwaitingPeer <==> t.lastContact.None?)
      && (status == NoRecentContact <==> t.lastContact.Some? && now >= t.lastContact.value + 6_500)
      && (status == NoRecentReply <==>
            t.lastContact.Some? && now < t.lastContact.value + 6_500 && now >= t.lastReply + 10_000)
      && (status == Responsive <==>
            t.lastContact.Some? && now < t.lastContact.value + 6_500 && now < t.lastReply + 10_000)
    ensures AttachmentTimedOut(t, now) <==> t.lastContact.None? && now >= 15_000
  {
  }

  /** The next deadline of each status; a reply cannot come before a contact fails. */
  lemma DeadlinesSay(t: Tracker)
    ensures
      var r := NextStatusDeadline(t);
      && (t.current == AwaitingPeer ==> r == Ok(Some(15_000)))
      && (t.current == NoRecentContact ==> r == Ok(None))
      && (t.current == NoRecentReply && t.lastContact.Some? ==>
            r == if t.lastContact.value + 6_500 <= U64_MAX then Ok(Some(t.lastContact.value + 6_500))
                 else Err(DeadlineExhausted))
      && (t.current == Responsive && t.lastContact.Some? ==>
            && (r.Ok? <==> t.lastContact.value + 6_500 <= U64_MAX && t.lastReply + 10_000 <= U64_MAX)
            && (r.Ok? ==>
                  && r.value.Some?
                  && r.value.value <= t.lastContact.value + 6_500 && r.value.value <= t.lastReply + 10_000
                  && (r.value.value == t.lastContact.value + 6_500 || r.value.value == t.lastReply + 10_000)))
  {
  }

  class ReachabilityTracker {
    var current: Status
    var lastContactMs: Option<nat>
    var lastReplyMs: nat

    function View(): Tracker
      reads this
    {
      Tracker(current, lastContactMs, lastReplyMs)
    }

    constructor ()
      ensures View() == INITIAL_TRACKER
    {
      current, lastContactMs, lastReplyMs := AwaitingPeer, None, 0;
    }

    method NoteContact(now: nat)
      modifies this
      ensures View() == old(View()).(lastContact := Some(now))
    {
      lastContactMs := Some(now);
    }

    /** Replies count from when the acknowledged state was sent, and never go back. */
    method NoteReply(sentAt: nat)
      modifies this
      ensures View() == old(View()).(lastReply := lastReplyMs)
      ensures lastReplyMs >= sentAt && lastReplyMs >= old(lastReplyMs) && lastReplyMs in {sentAt, old(lastReplyMs)}
    {
      lastReplyMs := if sentAt > lastReplyMs then sentAt else lastReplyMs;
    }

    method Refresh(now: nat) returns (r: Result<Option<Status>, ReachabilityError>)
      modifies this
      ensures
        match Update(old(View()), now)
        case Err(e) => r == Err(e) && View() == old(View())
        case Ok(next) => View() == next && r == Ok(if next == old(View()) then None else Some(next.current))
    {
      var next := Calculate(View(), now);
      if next.Err? {
        return Err(next.error);
      }
      if next.value == current {
        return Ok(None);
      }
      current := next.value;
      return Ok(Some(next.value));
    }
  }
}
