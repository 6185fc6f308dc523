/** Speculative local echo (`src/prediction.rs`).  Terminals are a parameter:
    how a typed byte changes one, when two look the same, and which client state
    the server says it has echoed. */
module Prediction {
  import opened Wrappers
  import opened Bytes

  const MAX_PENDING: nat := 32
  const MAX_AGE_MS: nat := 10_000
  const GLITCH_MS: nat := 250
  const SLOW_FRAME_MS: nat := 30
  const FAST_FRAME_MS: nat := 20

  datatype Mode = Adaptive | Always | Never

  datatype Confidence = Tentative | Confirmed

  datatype Entry = Entry(clientState: nat, createdAt: nat, byte: Byte)

  /** `predict` draws a typed byte on a terminal or fails. */
  datatype Terminals<!T> = Terminals(
    predict: (T, Byte) -> Option<T>, same: (T, T) -> bool, echoed: T -> Option<nat>)

  datatype Prediction<+T> = Prediction(
    mode: Mode,
    confidence: Confidence,
    slowLink: bool,
    glitch: bool,
    pending: seq<Entry>,
    base: Option<T>,
    projected: Option<T>)

  function Fresh<T>(mode: Mode): Prediction<T> {
    Prediction(mode, Tentative, false, false, [], None, None)
  }

  predicate Displaying<T>(p: Prediction<T>) {
    && p.confidence == Confirmed
    && p.pending != []
    && match p.mode
       case Adaptive => p.slowLink || p.glitch
       case Always => true
       case Never => false
  }

  function Display<T>(p: Prediction<T>, authoritative: T): T {
    if Displaying(p) && p.projected.Some? then p.projected.value else authoritative
  }

  function Cleared<T>(p: Prediction<T>): Prediction<T> {
    p.(confidence := Tentative, glitch := false, pending := [], base := None, projected := None)
  }

  predicate Printable(byte: Byte) {
    0x20 <= byte <= 0x7e
  }

  /** The byte of an input that may be predicted. */
  function Predictable(bytes: seq<Byte>): Option<Byte> {
    if |bytes| == 1 && Printable(bytes[0]) then Some(bytes[0]) else None
  }

  /** Drawing every pending byte on a terminal. */
  function Fold<T>(t: Terminals<T>, base: T, pending: seq<Entry>): Option<T> {
    if pending == [] then Some(base)
    else
      match Fold(t, base, pending[..|pending| - 1])
      case None => None
      case Some(drawn) => t.predict(drawn, pending[|pending| - 1].byte)
  }

  // ---------------------------------------------------------------- operations

  /** A failed prediction ends the session; otherwise the next state and whether
      the output must be refreshed. */
  function ObserveInput<T>(p: Prediction<T>, t: Terminals<T>, clientState: nat, bytes: seq<Byte>, authoritative: T,
                           now: nat)
    : Option<(Prediction<T>, bool)>
  {
    if p.mode == Never then Some((p, false))
    else if Predictable(bytes).None? || |p.pending| == MAX_PENDING then Some((Cleared(p), Displaying(p)))
    else
      var base := if p.pending == [] || p.base.None? then authoritative else p.base.value;
      var shown := if p.pending == [] || p.projected.None? then authoritative else p.projected.value;
      match t.predict(shown, Predictable(bytes).value)
      case None => None
      case Some(projected) =>
        var next := p.(base := Some(base), projected := Some(projected),
                       pending := p.pending + [Entry(clientState, now, Predictable(bytes).value)]);
        Some((next, Displaying(next)))
  }

  /** The longest prefix of the pending bytes whose drawing looks like the
      authoritative terminal; every prefix is drawn, so any failure counts. */
  function LongestMatch<T>(t: Terminals<T>, base: T, pending: seq<Entry>, authoritative: T): (r: Option<Option<nat>>)
    ensures r.Some? && r.value.Some? ==> r.value.value <= |pending|
  {
    if pending == [] then Some(if t.same(base, authoritative) then Some(0) else None)
    else
      match LongestMatch(t, base, pending[..|pending| - 1], authoritative)
      case None => None
      case Some(shorter) =>
        match Fold(t, base, pending)
        case None => None
        case Some(drawn) => Some(if t.same(drawn, authoritative) then Some(|pending|) else shorter)
  }

  /** How many leading entries the server has acknowledged. */
  function AcknowledgedPrefix(pending: seq<Entry>, echoed: Option<nat>): (n: nat)
    ensures n <= |pending|
    ensures forall i :: 0 <= i < n ==> echoed.Some? && pending[i].clientState <= echoed.value
    ensures n < |pending| ==> echoed.None? || pending[n].clientState > echoed.value
  {
    if pending == [] || echoed.None? || pending[0].clientState > echoed.value then 0
    else 1 + AcknowledgedPrefix(pending[1..], echoed)
  }

  function ObserveAuthoritative<T>(p: Prediction<T>, t: Terminals<T>, authoritative: T): Option<Prediction<T>>
    requires p.pending != [] ==> p.base.Some?
  {
    if p.mode == Never || p.pending == [] then Some(p)
    else
      match LongestMatch(t, p.base.value, p.pending, authoritative)
      case None => None
      case Some(None) => Some(Cleared(p))
      case Some(Some(matched)) =>
        var acknowledged := AcknowledgedPrefix(p.pending, t.echoed(authoritative));
        if acknowledged > matched then Some(Cleared(p))
        else if acknowledged == 0 then Some(p)
        else
          var rest := p.pending[matched..];
          if rest == [] then
            Some(p.(confidence := Confirmed, pending := [], base := None, projected := None, glitch := false))
          else
            match Fold(t, authoritative, rest)
            case None => None
            case Some(projected) =>
              Some(p.(confidence := Confirmed, pending := rest, base := Some(authoritative),
                      projected := Some(projected)))
  }

  function SaturatingAdd(a: nat, b: nat): nat {
    if a + b > U64_MAX then U64_MAX else a + b
  }

  function ExpiryDeadline<T>(p: Prediction<T>): Option<nat> {
    if p.mode == Never || p.pending == [] then None else Some(SaturatingAdd(p.pending[0].createdAt, MAX_AGE_MS))
  }

  function GlitchDeadline<T>(p: Prediction<T>): Option<nat> {
    if p.mode == Adaptive && p.confidence == Confirmed && !p.slowLink && !p.glitch && p.pending != [] then
      Some(SaturatingAdd(p.pending[0].createdAt, GLITCH_MS))
    else None
  }

  function NextDeadline<T>(p: Prediction<T>): Option<nat> {
    match (ExpiryDeadline(p), GlitchDeadline(p))
    case (Some(expiry), Some(glitch)) => Some(if expiry < glitch then expiry else glitch)
    case (Some(expiry), None) => Some(expiry)
    case (None, glitch) => glitch
  }

  function Expire<T>(p: Prediction<T>, now: nat): (Prediction<T>, bool) {
    if ExpiryDeadline(p).Some? && now >= ExpiryDeadline(p).value then (Cleared(p), Displaying(p)) else (p, false)
  }

  function UpdatePolicy<T>(p: Prediction<T>, now: nat, frameInterval: Option<nat>): (Prediction<T>, bool) {
    if p.mode != Adaptive then (p, false)
    else
      var slowLink :=
        if frameInterval.None? then p.slowLink
        else if frameInterval.value > SLOW_FRAME_MS then true
        else if frameInterval.value <= FAST_FRAME_MS && !Displaying(p) then false
        else p.slowLink;
      var glitch :=
        if p.pending == [] then false
        else if p.confidence == Confirmed && now >= SaturatingAdd(p.pending[0].createdAt, GLITCH_MS) then true
        else p.glitch;
      var next := p.(slowLink := slowLink, glitch := glitch);
      (next, Displaying(p) != Displaying(next))
  }

  // ------------------------------------------------------------------- soundness

  /** The projection is the fold of all pending bytes over the base. */
  predicate Sound<T(==)>(p: Prediction<T>, t: Terminals<T>) {
    && |p.pending| <= MAX_PENDING
    && (p.base.Some? <==> p.pending != []) && (p.projected.Some? <==> p.pending != [])
    && (p.pending != [] ==> Fold(t, p.base.value, p.pending) == p.projected)
    && (p.mode == Never ==> p.pending == [])
  }

  /** The terminal with the first `k` pending bytes drawn. */
  function Prefix<T>(t: Terminals<T>, base: T, pending: seq<Entry>, k: nat): Option<T>
    requires k <= |pending|
  {
    Fold(t, base, pending[..k])
  }

  /** `m` is the longest prefix that looks like the authoritative terminal. */
  predicate IsLongestMatch<T>(t: Terminals<T>, base: T, pending: seq<Entry>, authoritative: T, m: nat) {
    && m <= |pending|
    && (forall k :: 0 <= k <= |pending| ==> Prefix(t, base, pending, k).Some?)
    && t.same(Prefix(t, base, pending, m).value, authoritative)
    && forall k :: m < k <= |pending| ==> !t.same(Prefix(t, base, pending, k).value, authoritative)
  }

  lemma PrefixOfFront<T>(t: Terminals<T>, base: T, pending: seq<Entry>)
    requires pending != []
    ensures forall k :: 0 <= k < |pending| ==>
      Prefix(t, base, pending[..|pending| - 1], k) == Prefix(t, base, pending, k)
    ensures Prefix(t, base, pending, |pending|) == Fold(t, base, pending)
  {
    hide Fold;
    assert pending[..|pending|] == pending;
    forall k | 0 <= k < |pending| ensures Prefix(t, base, pending[..|pending| - 1], k) == Prefix(t, base, pending, k) {
      assert pending[..|pending| - 1][..k] == pending[..k];
    }
  }

  lemma {:induction false} LongestMatchIsLongest<T>(t: Terminals<T>, base: T, pending: seq<Entry>, authoritative: T,
                                                    m: nat)
    ensures LongestMatch(t, base, pending, authoritative) == Some(Some(m)) <==>
      IsLongestMatch(t, base, pending, authoritative, m)
  {
    hide Fold, Prefix;
    if pending == [] {
      PrefixOfNothing(t, base, pending);
    } else {
      var n, front := |pending|, pending[..|pending| - 1];
      LongestMatchIsLongest(t, base, front, authoritative, m);
      FoldsOfPrefixes(t, base, front, authoritative);
      PrefixOfFront(t, base, pending);
      assert forall k :: 0 <= k < n ==> Prefix(t, base, pending, k) == Prefix(t, base, front, k);
      assert Prefix(t, base, pending, n) == Fold(t, base, pending);
    }
  }

  lemma PrefixOfNothing<T>(t: Terminals<T>, base: T, pending: seq<Entry>)
    requires pending == []
    ensures Prefix(t, base, pending, 0) == Some(base)
  {
  }

  /** The search fails exactly when some prefix cannot be drawn. */
  lemma {:induction false} FoldsOfPrefixes<T>(t: Terminals<T>, base: T, pending: seq<Entry>, authoritative: T)
    ensures LongestMatch(t, base, pending, authoritative).Some? <==>
      forall k :: 0 <= k <= |pending| ==> Prefix(t, base, pending, k).Some?
  {
    hide Fold, Prefix;
    if pending == [] {
      PrefixOfNothing(t, base, pending);
    } else {
      var n, front := |pending|, pending[..|pending| - 1];
      FoldsOfPrefixes(t, base, front, authoritative);
      PrefixOfFront(t, base, pending);
      assert forall k :: 0 <= k < n ==> Prefix(t, base, pending, k) == Prefix(t, base, front, k);
      assert Prefix(t, base, pending, n) == Fold(t, base, pending);
    }
  }

  lemma InputKeepsSound<T>(p: Prediction<T>, t: Terminals<T>, clientState: nat, bytes: seq<Byte>, authoritative: T,
                           now: nat)
    requires Sound(p, t) && ObserveInput(p, t, clientState, bytes, authoritative, now).Some?
    ensures Sound(ObserveInput(p, t, clientState, bytes, authoritative, now).value.0, t)
  {
    hide Fold, Printable;
    if p.mode != Never && Predictable(bytes).Some? && |p.pending| < MAX_PENDING {
      var entry := Entry(clientState, now, Predictable(bytes).value);
      if p.pending == [] {
        FoldNothing(t, authoritative);
        FoldAppend(t, authoritative, p.pending, entry);
      } else {
        FoldAppend(t, p.base.value, p.pending, entry);
      }
    }
  }

  lemma FoldNothing<T>(t: Terminals<T>, base: T)
    ensures Fold(t, base, []) == Some(base)
  {
  }

  lemma FoldAppend<T>(t: Terminals<T>, base: T, pending: seq<Entry>, entry: Entry)
    ensures Fold(t, base, pending + [entry]) ==
      match Fold(t, base, pending) case None => None case Some(drawn) => t.predict(drawn, entry.byte)
  {
    assert (pending + [entry])[..|pending|] == pending;
  }

  /** After an authoritative update the projection is still the fold; whatever
      survives had a longest matching prefix covering every acknowledged entry,
      all of which are gone; and confidence is gained only from an entry that was
      both matched and acknowledged. */
  lemma AuthorityKeepsSound<T>(p: Prediction<T>, t: Terminals<T>, authoritative: T)
    requires Sound(p, t) && ObserveAuthoritative(p, t, authoritative).Some?
    ensures
      var next := ObserveAuthoritative(p, t, authoritative).value;
      var acknowledged := AcknowledgedPrefix(p.pending, t.echoed(authoritative));
      && Sound(next, t)
      && (next.pending != [] ==>
            exists m :: acknowledged <= m && IsLongestMatch(t, p.base.value, p.pending, authoritative, m)
              && next.pending == if acknowledged == 0 then p.pending else p.pending[m..])
      && (next.confidence == Confirmed != p.confidence ==>
            && acknowledged > 0
            && exists m :: acknowledged <= m && IsLongestMatch(t, p.base.value, p.pending, authoritative, m))
  {
    hide LongestMatch, Fold, Prefix;
    if p.mode != Never && p.pending != [] {
      var found := LongestMatch(t, p.base.value, p.pending, authoritative).value;
      FoldsOfPrefixes(t, p.base.value, p.pending, authoritative);
      if found.Some? {
        LongestMatchIsLongest(t, p.base.value, p.pending, authoritative, found.value);
      }
    }
  }

  /** A policy update never takes a displayed projection away, and reports
      exactly whether it started displaying one. */
  lemma PolicyNeverRetracts<T>(p: Prediction<T>, t: Terminals<T>, now: nat, frameInterval: Option<nat>)
    requires Sound(p, t)
    ensures
      var (next, changed) := UpdatePolicy(p, now, frameInterval);
      && Sound(next, t)
      && (Displaying(p) ==> Displaying(next))
      && changed == (!Displaying(p) && Displaying(next))
      && next.pending == p.pending && next.projected == p.projected
  {
  }

  datatype Event<+T> =
    | Typed(clientState: nat, bytes: seq<Byte>, authoritative: T, now: nat)
    | Authority(authoritative: T)
    | Tick(now: nat)
    | Policy(now: nat, frameInterval: Option<nat>)
    | Reset

  /** One successful operation; `None` when drawing failed and the session ends. */
  function Step<T(==)>(p: Prediction<T>, t: Terminals<T>, event: Event<T>): Option<Prediction<T>>
    requires Sound(p, t)
  {
    match event
    case Typed(clientState, bytes, authoritative, now) =>
      (match ObserveInput(p, t, clientState, bytes, authoritative, now)
       case None => None
       case Some((next, _)) => Some(next))
    case Authority(authoritative) => ObserveAuthoritative(p, t, authoritative)
    case Tick(now) => Some(Expire(p, now).0)
    case Policy(now, frameInterval) => Some(UpdatePolicy(p, now, frameInterval).0)
    case Reset => Some(Cleared(p))
  }

  lemma StepKeepsSound<T>(p: Prediction<T>, t: Terminals<T>, event: Event<T>)
    requires Sound(p, t) && Step(p, t, event).Some?
    ensures Sound(Step(p, t, event).value, t)
  {
    hide ObserveInput, ObserveAuthoritative, Fold;
    match event
    case Typed(clientState, bytes, authoritative, now) => InputKeepsSound(p, t, clientState, bytes, authoritative, now);
    case Authority(authoritative) => AuthorityKeepsSound(p, t, authoritative);
    case Tick(now) =>
    case Policy(now, frameInterval) => PolicyNeverRetracts(p, t, now, frameInterval);
    case Reset =>
  }

  /** The state after a run of operations; `None` when one of them failed. */
  function After<T(==)>(p: Prediction<T>, t: Terminals<T>, events: seq<Event<T>>): Option<Prediction<T>>
    requires Sound(p, t)
    decreases |events|
  {
    if events == [] then Some(p)
    else
      match Step(p, t, events[0])
      case None => None
      case Some(next) =>
        StepKeepsSound(p, t, events[0]);
        After(next, t, events[1..])
  }

  /** Over every run what is displayed is either the authoritative terminal or the
      pending bytes drawn on the terminal they were predicted from. */
  lemma {:induction false} DisplayIsFold<T>(p: Prediction<T>, t: Terminals<T>, events: seq<Event<T>>, authoritative: T)
    requires Sound(p, t) && After(p, t, events).Some?
    ensures
      var last := After(p, t, events).value;
      && Sound(last, t)
      && if Displaying(last) then Fold(t, last.base.value, last.pending) == Some(Display(last, authoritative))
         else Display(last, authoritative) == authoritative
    decreases |events|
  {
    hide Step;
    if events != [] {
      StepKeepsSound(p, t, events[0]);
      DisplayIsFold(Step(p, t, events[0]).value, t, events[1..], authoritative);
    }
  }

  // ------------------------------------------------------------ the silent glitch

  /** The two differ at most in a glitch, while the prediction is displayed because
      the link is slow. */
  predicate AlikeButGlitch<T(==)>(p: Prediction<T>, q: Prediction<T>) {
    q == p || (q == p.(glitch := q.glitch) && p.mode == Adaptive && p.slowLink && Displaying(p))
  }

  /** Alike predictions look the same and have the same deadline. */
  lemma AlikeLooksTheSame<T>(p: Prediction<T>, q: Prediction<T>, authoritative: T)
    requires AlikeButGlitch(p, q)
    ensures Display(p, authoritative) == Display(q, authoritative) && NextDeadline(p) == NextDeadline(q)
  {
  }

  /** Whether an event asks for the output to be refreshed. */
  predicate Refreshes<T(==)>(p: Prediction<T>, t: Terminals<T>, event: Event<T>)
    requires Sound(p, t) && Step(p, t, event).Some?
  {
    match event
    case Typed(clientState, bytes, authoritative, now) =>
      ObserveInput(p, t, clientState, bytes, authoritative, now).value.1
    case Authority(_) => false
    case Tick(now) => Expire(p, now).1
    case Policy(now, frameInterval) => UpdatePolicy(p, now, frameInterval).1
    case Reset => false
  }

  /** Every event keeps alike predictions alike and reports the same. */
  lemma StepKeepsAlike<T>(p: Prediction<T>, q: Prediction<T>, t: Terminals<T>, event: Event<T>)
    requires Sound(p, t) && AlikeButGlitch(p, q)
    ensures Sound(q, t) && (Step(p, t, event).Some? <==> Step(q, t, event).Some?)
    ensures Step(p, t, event).Some? ==>
      && AlikeButGlitch(Step(p, t, event).value, Step(q, t, event).value)
      && Refreshes(p, t, event) == Refreshes(q, t, event)
  {
    hide Fold, LongestMatch, Printable, SaturatingAdd;
  }

  /** What a run reports, up to the failure that ends it. */
  function Reports<T(==)>(p: Prediction<T>, t: Terminals<T>, events: seq<Event<T>>): seq<bool>
    requires Sound(p, t)
    decreases |events|
  {
    if events == [] || Step(p, t, events[0]).None? then []
    else
      StepKeepsSound(p, t, events[0]);
      [Refreshes(p, t, events[0])] + Reports(Step(p, t, events[0]).value, t, events[1..])
  }

  /** No run can tell alike predictions apart: it reports the same, ends the same,
      and reaches predictions that look the same. */
  lemma {:induction false} RunKeepsAlike<T>(p: Prediction<T>, q: Prediction<T>, t: Terminals<T>, events: seq<Event<T>>,
                                            authoritative: T)
    requires Sound(p, t) && AlikeButGlitch(p, q)
    ensures Sound(q, t) && Reports(p, t, events) == Reports(q, t, events)
    ensures After(p, t, events).Some? <==> After(q, t, events).Some?
    ensures After(p, t, events).Some? ==>
      var (last, other) := (After(p, t, events).value, After(q, t, events).value);
      && AlikeButGlitch(last, other) && NextDeadline(last) == NextDeadline(other)
      && Display(last, authoritative) == Display(other, authoritative)
    decreases |events|
  {
    hide Step, Refreshes, NextDeadline, Display;
    if events == [] {
      AlikeLooksTheSame(p, q, authoritative);
    } else {
      StepKeepsAlike(p, q, t, events[0]);
      if Step(p, t, events[0]).Some? {
        StepKeepsSound(p, t, events[0]);
        RunKeepsAlike(Step(p, t, events[0]).value, Step(q, t, events[0]).value, t, events[1..], authoritative);
      }
    }
  }

  /** A glitch that would be noted although the prediction is displayed already. */
  predicate GlitchDue<T>(p: Prediction<T>, now: nat) {
    && p.mode == Adaptive && p.confidence == Confirmed && p.slowLink && !p.glitch && p.pending != []
    && now >= SaturatingAdd(p.pending[0].createdAt, GLITCH_MS)
  }

  /** Before its deadline a settled prediction changes exactly by such a glitch. */
  lemma SilentGlitchIff<T>(p: Prediction<T>, now: nat, frameInterval: Option<nat>, t: nat)
    requires Expire(p, now).0 == p && UpdatePolicy(p, now, frameInterval).0 == p && now <= t
    requires NextDeadline(p).Some? ==> t < NextDeadline(p).value
    ensures Expire(p, t) == (p, false)
    ensures UpdatePolicy(p, t, frameInterval) == (if GlitchDue(p, t) then p.(glitch := true) else p, false)
    ensures AlikeButGlitch(p, UpdatePolicy(p, t, frameInterval).0)
  {
  }

  // --------------------------------------------------------------------- in place

  class LocalPrediction<T> {
    const mode: Mode
    const terminals: Terminals<T>
    var confidence: Confidence
    var adaptiveSlowLink: bool
    var adaptiveGlitch: bool
    var pending: seq<Entry>
    var base: Option<T>
    var projected: Option<T>

    function View(): Prediction<T>
      reads this
    {
      Prediction(mode, confidence, adaptiveSlowLink, adaptiveGlitch, pending, base, projected)
    }

    constructor (mode: Mode, terminals: Terminals<T>)
      ensures View() == Fresh<T>(mode) && this.terminals == terminals
    {
      this.mode, this.terminals := mode, terminals;
      confidence, adaptiveSlowLink, adaptiveGlitch, pending, base, projected := Tentative, false, false, [], None, None;
    }

    method Clear() returns (displayed: bool)
      modifies this
      ensures displayed == Displaying(old(View())) && View() == Cleared(old(View()))
    {
      displayed := Displaying(View());
      confidence, adaptiveGlitch, pending, base, projected := Tentative, false, [], None, None;
    }

    /** False when drawing the byte failed. */
    method Input(clientState: nat, bytes: seq<Byte>, authoritative: T, now: nat) returns (ok: bool, refresh: bool)
      requires base.Some? <==> pending != []
      requires projected.Some? <==> pending != []
      modifies this
      ensures
        match ObserveInput(old(View()), terminals, clientState, bytes, authoritative, now)
        case None => !ok
        case Some((next, shown)) => ok && refresh == shown && View() == next
    {
      if mode == Never {
        return true, false;
      }
      var byte := Predictable(bytes);
      if byte.None? || |pending| == MAX_PENDING {
        refresh := Clear();
        return true, refresh;
      }
      var drawn := terminals.predict(if pending == [] then authoritative else projected.value, byte.value);
      if drawn.None? {
        return false, false;
      }
      if pending == [] {
        base := Some(authoritative);
      }
      projected := drawn;
      pending := pending + [Entry(clientState, now, byte.value)];
      return true, Displaying(View());
    }

    /** Drawing the pending bytes one after another, remembering the last match. */
    method LongestMatchingPrefix(authoritative: T) returns (r: Option<Option<nat>>)
      requires base.Some?
      ensures r == LongestMatch(terminals, base.value, pending, authoritative)
    {
      var drawn := base.value;
      var matched: Option<nat> := if terminals.same(drawn, authoritative) then Some(0) else None;
      for i := 0 to |pending|
        invariant Fold(terminals, base.value, pending[..i]) == Some(drawn)
        invariant LongestMatch(terminals, base.value, pending[..i], authoritative) == Some(matched)
      {
        assert pending[..i + 1][..i] == pending[..i];
        var next := terminals.predict(drawn, pending[i].byte);
        if next.None? {
          FailureLasts(terminals, base.value, pending, authoritative, i + 1);
          return None;
        }
        drawn := next.value;
        if terminals.same(drawn, authoritative) {
          matched := Some(i + 1);
        }
      }
      assert pending[..|pending|] == pending;
      return Some(matched);
    }

    method CountAcknowledged(echoed: Option<nat>) returns (n: nat)
      ensures n == AcknowledgedPrefix(pending, echoed)
    {
      n := 0;
      if echoed.None? {
        return;
      }
      while n < |pending| && pending[n].clientState <= echoed.value
        invariant n <= |pending|
        invariant forall i :: 0 <= i < n ==> pending[i].clientState <= echoed.value
      {
        n := n + 1;
      }
      var expected := AcknowledgedPrefix(pending, echoed);
      assert n == expected;
    }

    /** Drawing what is left over again, on the authoritative terminal. */
    method Replay(authoritative: T, rest: seq<Entry>) returns (r: Option<T>)
      ensures r == Fold(terminals, authoritative, rest)
    {
      var drawn := authoritative;
      for i := 0 to |rest|
        invariant Fold(terminals, authoritative, rest[..i]) == Some(drawn)
      {
        assert rest[..i + 1][..i] == rest[..i];
        var next := terminals.predict(drawn, rest[i].byte);
        if next.None? {
          FoldFails(terminals, authoritative, rest, i + 1);
          return None;
        }
        drawn := next.value;
      }
      assert rest[..|rest|] == rest;
      return Some(drawn);
    }

    method Authoritative(authoritative: T) returns (ok: bool)
      requires pending != [] ==> base.Some?
      modifies this
      ensures
        match ObserveAuthoritative(old(View()), terminals, authoritative)
        case None => !ok
        case Some(next) => ok && View() == next
    {
      hide LongestMatch, Fold, AcknowledgedPrefix;
      if mode == Never || pending == [] {
        return true;
      }
      var found := LongestMatchingPrefix(authoritative);
      if found.None? {
        return false;
      }
      if found.value.None? {
        var _ := Clear();
        return true;
      }
      var acknowledged := CountAcknowledged(terminals.echoed(authoritative));
      if acknowledged > found.value.value {
        var _ := Clear();
        return true;
      }
      if acknowledged == 0 {
        return true;
      }
      confidence := Confirmed;
      pending := pending[found.value.value..];
      if pending == [] {
        base, projected, adaptiveGlitch := None, None, false;
      } else {
        var drawn := Replay(authoritative, pending);
        if drawn.None? {
          return false;
        }
        base, projected := Some(authoritative), drawn;
      }
      return true;
    }

    method ExpireAt(now: nat) returns (refresh: bool)
      modifies this
      ensures (View(), refresh) == Expire(old(View()), now)
    {
      var deadline := ExpiryDeadline(View());
      if deadline.Some? && now >= deadline.value {
        refresh := Clear();
      } else {
        refresh := false;
      }
    }

    method Policy(now: nat, frameInterval: Option<nat>) returns (refresh: bool)
      modifies this
      ensures (View(), refresh) == UpdatePolicy(old(View()), now, frameInterval)
    {
      var was := Displaying(View());
      if mode != Adaptive {
        return false;
      }
      if frameInterval.Some? {
        if frameInterval.value > SLOW_FRAME_MS {
          adaptiveSlowLink := true;
        } else if frameInterval.value <= FAST_FRAME_MS && !was {
          adaptiveSlowLink := false;
        }
      }
      if pending == [] {
        adaptiveGlitch := false;
      } else if confidence == Confirmed && now >= SaturatingAdd(pending[0].createdAt, GLITCH_MS) {
        adaptiveGlitch := true;
      }
      return was != Displaying(View());
    }
  }

  lemma {:induction false} FoldFails<T>(t: Terminals<T>, base: T, pending: seq<Entry>, k: nat)
    requires k <= |pending| && Fold(t, base, pending[..k]).None?
    ensures Fold(t, base, pending).None?
    decreases |pending|
  {
    if k == |pending| {
      assert pending[..k] == pending;
    } else {
      assert pending[..|pending| - 1][..k] == pending[..k];
      FoldFails(t, base, pending[..|pending| - 1], k);
    }
  }

  lemma FailureLasts<T>(t: Terminals<T>, base: T, pending: seq<Entry>, authoritative: T, k: nat)
    requires k <= |pending| && Fold(t, base, pending[..k]).None?
    ensures LongestMatch(t, base, pending, authoritative).None?
  {
    FoldsOfPrefixes(t, base, pending, authoritative);
    assert Prefix(t, base, pending, k).None?;
  }
}
