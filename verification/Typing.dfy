/** What local prediction remembers of the typing, and what becomes of it. */
module Typing {
  import opened Wrappers
  import opened Bytes
  import opened Prediction

  /** A single printable byte, the only input that is predicted. */
  predicate IsKey(bytes: seq<Byte>) {
    |bytes| == 1 && 0x20 <= bytes[0] <= 0x7e
  }

  // --------------------------------------------------------------------- one event

  /** Forgotten, with the mode and the state of the link kept. */
  predicate Forgotten<T(==)>(p: Prediction<T>, next: Prediction<T>) {
    next == Prediction(p.mode, Tentative, p.slowLink, false, [], None, None)
  }

  /** Input, from the fields before it: a key is drawn on what is predicted so far and
      pending as the newest entry; any other input, or a thirty-third key, forgets. */
  lemma InputSays<T>(p: Prediction<T>, t: Terminals<T>, clientState: nat, bytes: seq<Byte>, authoritative: T, now: nat)
    requires Sound(p, t)
    ensures
      var r := ObserveInput(p, t, clientState, bytes, authoritative, now);
      if p.mode == Never then r == Some((p, false))
      else if !IsKey(bytes) || |p.pending| == 32 then
        r.Some? && Forgotten(p, r.value.0) && r.value.1 == Displaying(p)
      else
        var drawn := t.predict(if p.pending == [] then authoritative else p.projected.value, bytes[0]);
        && (r.None? <==> drawn.None?)
        && (r.Some? ==>
              && r.value.0 == p.(pending := p.pending + [Entry(clientState, now, bytes[0])], projected := drawn,
                                 base := if p.pending == [] then Some(authoritative) else p.base)
              && r.value.1 == Displaying(r.value.0))
  {
    hide Fold;
  }

  /** An entry that the server says it has echoed. */
  predicate Echoed<T>(t: Terminals<T>, authoritative: T, entry: Entry) {
    t.echoed(authoritative).Some? && entry.clientState <= t.echoed(authoritative).value
  }

  predicate StatesAscend(entries: seq<Entry>) {
    forall i, j :: 0 <= i <= j < |entries| ==> entries[i].clientState <= entries[j].clientState
  }

  predicate Drawable<T>(t: Terminals<T>, base: T, entries: seq<Entry>) {
    forall k :: 0 <= k <= |entries| ==> Prefix(t, base, entries, k).Some?
  }

  predicate Matches<T>(t: Terminals<T>, base: T, entries: seq<Entry>, authoritative: T, k: nat)
    requires k <= |entries|
  {
    Prefix(t, base, entries, k).Some? && t.same(Prefix(t, base, entries, k).value, authoritative)
  }

  /** An authoritative terminal, when states ascend: with no match all is forgotten, and
      so it is when an echoed entry does not match; without an echo nothing changes;
      otherwise exactly the longest match goes, and with it every echoed entry, and the
      rest is drawn on the authoritative terminal. */
  lemma AuthoritySays<T>(p: Prediction<T>, t: Terminals<T>, authoritative: T, m: nat)
    requires Sound(p, t) && p.pending != [] && StatesAscend(p.pending)
    ensures
      var (r, base, pending) := (ObserveAuthoritative(p, t, authoritative), p.base.value, p.pending);
      && ((forall k :: 0 <= k <= |pending| ==> !Matches(t, base, pending, authoritative, k)) ==>
            r.Some? && Forgotten(p, r.value))
      && (IsLongestMatch(t, base, pending, authoritative, m) ==>
            if exists i :: m <= i < |pending| && Echoed(t, authoritative, pending[i]) then
              r.Some? && Forgotten(p, r.value)
            else if !Echoed(t, authoritative, pending[0]) then r == Some(p)
            else if m == |pending| then
              r == Some(Prediction(p.mode, Confirmed, p.slowLink, false, [], None, None))
            else
              var drawn := Fold(t, authoritative, pending[m..]);
              && (r.None? <==> drawn.None?)
              && (r.Some? ==> r.value == Prediction(p.mode, Confirmed, p.slowLink, p.glitch, pending[m..],
                                                    Some(authoritative), drawn)))
  {
    hide LongestMatch, Fold, Prefix;
    var base := p.base.value;
    DrawableBySound(p, t);
    FoldsOfPrefixes(t, base, p.pending, authoritative);
    var found := LongestMatch(t, base, p.pending, authoritative);
    if found.value.Some? {
      LongestMatchIsLongest(t, base, p.pending, authoritative, found.value.value);
      assert Matches(t, base, p.pending, authoritative, found.value.value);
    }
    LongestMatchIsLongest(t, base, p.pending, authoritative, m);
    var acknowledged := AcknowledgedPrefix(p.pending, t.echoed(authoritative));
    forall i | 0 <= i < |p.pending| ensures Echoed(t, authoritative, p.pending[i]) <==> i < acknowledged {
      if acknowledged < |p.pending| && i >= acknowledged {
        assert p.pending[acknowledged].clientState <= p.pending[i].clientState;
      }
    }
    if IsLongestMatch(t, base, p.pending, authoritative, m) {
      assert m <= |p.pending|;
      if acknowledged > m { assert Echoed(t, authoritative, p.pending[m]); }
    }
  }

  lemma DrawableBySound<T>(p: Prediction<T>, t: Terminals<T>)
    requires Sound(p, t) && p.pending != []
    ensures Drawable(t, p.base.value, p.pending)
  {
    hide Fold;
    forall k | 0 <= k <= |p.pending| ensures Prefix(t, p.base.value, p.pending, k).Some? {
      if Prefix(t, p.base.value, p.pending, k).None? { FoldFails(t, p.base.value, p.pending, k); }
    }
  }

  /** Pending predictions go at 10,000 ms after the oldest was typed, and not before. */
  lemma ExpirySays<T>(p: Prediction<T>, now: nat)
    requires p.pending != [] && p.mode != Never && p.pending[0].createdAt + 10_000 <= U64_MAX
    ensures
      var r := Expire(p, now);
      if now >= p.pending[0].createdAt + 10_000 then Forgotten(p, r.0) && r.1 == Displaying(p) else r == (p, false)
  {
  }

  /** The policy in adaptive mode: a frame interval above 30 ms makes the link slow, one
      up to 20 ms makes it fast again unless something is displayed, one in between
      decides nothing; an entry pending for 250 ms after a confirmation is a glitch,
      until nothing is pending. */
  lemma PolicySays<T>(p: Prediction<T>, now: nat, frameInterval: Option<nat>)
    requires p.pending != [] ==> p.pending[0].createdAt + 250 <= U64_MAX
    ensures
      var (next, asked) := UpdatePolicy(p, now, frameInterval);
      if p.mode != Adaptive then next == p && !asked
      else
        && next == p.(slowLink := next.slowLink, glitch := next.glitch)
        && (next.slowLink <==>
              if frameInterval.Some? && frameInterval.value > 30 then true
              else p.slowLink && (frameInterval.None? || frameInterval.value > 20 || Displaying(p)))
        && (next.glitch <==>
              p.pending != [] && (p.glitch || (p.confidence == Confirmed && now >= p.pending[0].createdAt + 250)))
        && (asked <==> Displaying(next) != Displaying(p))
  {
  }

  /** What is displayed: only confirmed predictions, in adaptive mode only on a slow link
      or after a glitch. */
  lemma DisplayedIff<T>(p: Prediction<T>, t: Terminals<T>, authoritative: T)
    requires Sound(p, t)
    ensures Displaying(p) <==>
      && p.pending != [] && p.confidence == Confirmed && p.mode != Never
      && (p.mode == Adaptive ==> p.slowLink || p.glitch)
    ensures Display(p, authoritative) == if Displaying(p) then p.projected.value else authoritative
  {
    hide Fold;
  }

  // -------------------------------------------------------------------- whole runs

  /** The keys of a run, as they were typed. */
  function Keys<T>(events: seq<Event<T>>): seq<Entry> {
    if events == [] then []
    else
      (if events[0].Typed? && IsKey(events[0].bytes) then
         [Entry(events[0].clientState, events[0].now, events[0].bytes[0])]
       else [])
      + Keys(events[1..])
  }

  /** Nothing but the last of `typed` is pending. */
  predicate Last(pending: seq<Entry>, typed: seq<Entry>) {
    |pending| <= |typed| && pending == typed[|typed| - |pending|..]
  }

  /** An authoritative terminal takes pending entries from the front only. */
  lemma AuthorityKeepsRest<T>(p: Prediction<T>, t: Terminals<T>, authoritative: T) returns (m: nat)
    requires Sound(p, t) && ObserveAuthoritative(p, t, authoritative).Some?
    ensures m <= |p.pending| && ObserveAuthoritative(p, t, authoritative).value.pending == p.pending[m..]
  {
    hide Fold, LongestMatch, AcknowledgedPrefix;
    var next := ObserveAuthoritative(p, t, authoritative).value;
    if next.pending == p.pending {
      m := 0;
    } else if next.pending == [] {
      m := |p.pending|;
    } else {
      m := LongestMatch(t, p.base.value, p.pending, authoritative).value.value;
    }
  }

  lemma RestIsLast(pending: seq<Entry>, typed: seq<Entry>, m: nat)
    requires Last(pending, typed) && m <= |pending|
    ensures Last(pending[m..], typed)
  {
  }

  lemma OneKey<T>(event: Event<T>)
    ensures Keys([event]) ==
      if event.Typed? && IsKey(event.bytes) then [Entry(event.clientState, event.now, event.bytes[0])] else []
  {
    assert [event][1..] == [];
    assert Keys<T>([]) == [];
  }

  lemma StepKeepsLast<T>(p: Prediction<T>, t: Terminals<T>, event: Event<T>, typed: seq<Entry>)
    requires Sound(p, t) && Step(p, t, event).Some? && Last(p.pending, typed)
    ensures Last(Step(p, t, event).value.pending, typed + Keys([event]))
  {
    hide Fold, ObserveInput, ObserveAuthoritative, SaturatingAdd, Keys;
    OneKey(event);
    match event
    case Typed(clientState, bytes, authoritative, now) =>
      InputSays(p, t, clientState, bytes, authoritative, now);
    case Authority(authoritative) =>
      var m := AuthorityKeepsRest(p, t, authoritative);
      RestIsLast(p.pending, typed, m);
      assert typed + [] == typed;
    case _ => assert typed + [] == typed;
  }

  lemma {:induction false} RunKeepsLast<T>(p: Prediction<T>, t: Terminals<T>, events: seq<Event<T>>, typed: seq<Entry>)
    requires Sound(p, t) && After(p, t, events).Some? && Last(p.pending, typed)
    ensures Last(After(p, t, events).value.pending, typed + Keys(events))
    decreases |events|
  {
    hide Step, Keys, Last;
    if events == [] {
      assert typed + Keys(events) == typed by { assert Keys(events) == [] by { NoKeys(events); } }
    } else {
      KeysSplit(events);
      StepKeepsSound(p, t, events[0]);
      StepKeepsLast(p, t, events[0], typed);
      RunKeepsLast(Step(p, t, events[0]).value, t, events[1..], typed + Keys([events[0]]));
      assert typed + (Keys([events[0]]) + Keys(events[1..])) == (typed + Keys([events[0]])) + Keys(events[1..]);
    }
  }

  lemma NoKeys<T>(events: seq<Event<T>>)
    requires events == []
    ensures Keys(events) == []
  {
  }

  lemma KeysSplit<T>(events: seq<Event<T>>)
    requires events != []
    ensures Keys(events) == Keys([events[0]]) + Keys(events[1..])
  {
    assert [events[0]][1..] == [];
    assert Keys<T>([]) == [];
  }

  /** Over every run what is pending is the last keys typed, in order, each with the
      client state it was typed as, its time and its byte; at most thirty-two of them,
      and none in the mode that never predicts. */
  lemma PendingIsTyped<T>(mode: Mode, t: Terminals<T>, events: seq<Event<T>>)
    requires After(Fresh<T>(mode), t, events).Some?
    ensures
      var p := After(Fresh<T>(mode), t, events).value;
      && Last(p.pending, Keys(events)) && |p.pending| <= 32
      && (mode == Never ==> p.pending == [])
  {
    hide Step, Fold, Keys;
    RunKeepsLast(Fresh<T>(mode), t, events, []);
    assert [] + Keys(events) == Keys(events);
    RunIsSound(Fresh<T>(mode), t, events);
  }

  lemma {:induction false} RunIsSound<T>(p: Prediction<T>, t: Terminals<T>, events: seq<Event<T>>)
    requires Sound(p, t) && After(p, t, events).Some?
    ensures Sound(After(p, t, events).value, t) && After(p, t, events).value.mode == p.mode
    decreases |events|
  {
    hide Step, Fold;
    if events != [] {
      StepKeepsSound(p, t, events[0]);
      StepKeepsMode(p, t, events[0]);
      RunIsSound(Step(p, t, events[0]).value, t, events[1..]);
    }
  }

  lemma StepKeepsMode<T>(p: Prediction<T>, t: Terminals<T>, event: Event<T>)
    requires Sound(p, t) && Step(p, t, event).Some?
    ensures Step(p, t, event).value.mode == p.mode
  {
    hide Fold, LongestMatch, SaturatingAdd;
  }

  /** If the states typed as ascend, so do those pending: then an echo covers the first
      of them. */
  lemma PendingAscends<T>(mode: Mode, t: Terminals<T>, events: seq<Event<T>>)
    requires After(Fresh<T>(mode), t, events).Some? && StatesAscend(Keys(events))
    ensures StatesAscend(After(Fresh<T>(mode), t, events).value.pending)
  {
    hide After, Keys;
    PendingIsTyped(mode, t, events);
  }

  /** Nothing is displayed before the server confirmed a prediction. */
  lemma {:induction false} UnconfirmedIsHidden<T>(p: Prediction<T>, t: Terminals<T>, events: seq<Event<T>>,
                                                  authoritative: T)
    requires Sound(p, t) && p.confidence == Tentative && After(p, t, events).Some?
    requires forall event :: event in events ==> !event.Authority?
    ensures
      var last := After(p, t, events).value;
      last.confidence == Tentative && Display(last, authoritative) == authoritative
    decreases |events|
  {
    hide Fold, LongestMatch, SaturatingAdd;
    if events != [] {
      StepKeepsSound(p, t, events[0]);
      UnconfirmedIsHidden(Step(p, t, events[0]).value, t, events[1..], authoritative);
    }
  }
}
