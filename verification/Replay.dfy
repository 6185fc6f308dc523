/** The replay window (`ReplayWindow` and `SendSequence` in `src/packet.rs`) is a
    set of seen sequence numbers. */
module Replay {
  import opened Wrappers
  import opened Bits

  const WINDOW: nat := 64
  const MAX_SEQUENCE: nat := 0x7FFF_FFFF_FFFF_FFFF

  datatype PacketError =
    | DatagramTooShort | DatagramTooLarge | PlaintextTooLarge | OutputTooSmall
    | InvalidSequence | WrongDirection | AuthenticationFailed
    | Replayed | TooOld | SequenceExhausted

  /** `seen` is a 64-bit mask: bit `d` stands for the sequence `highest - d`. */
  datatype Window = Window(highest: Option<nat>, seen: nat)

  const EMPTY_WINDOW: Window := Window(None, 0)

  function Accept(w: Window, sequence: nat): (Window, Result<(), PacketError>) {
    match w.highest
    case None => (Window(Some(sequence), 1), Ok(()))
    case Some(highest) =>
      if sequence > highest then
        var shift := sequence - highest;
        (Window(Some(sequence), if shift >= WINDOW then 1 else WithBit(ShiftLeft(w.seen, shift), 0)), Ok(()))
      else
        var distance := highest - sequence;
        if distance >= WINDOW then (w, Err(TooOld))
        else if Bit(w.seen, distance) then (w, Err(Replayed))
        else (Window(w.highest, WithBit(w.seen, distance)), Ok(()))
  }

  class ReplayWindow {
    var highest: Option<nat>
    var seen: nat

    function View(): Window
      reads this
    {
      Window(highest, seen)
    }

    constructor ()
      ensures View() == EMPTY_WINDOW
    {
      highest, seen := None, 0;
    }

    method AcceptSequence(sequence: nat) returns (r: Result<(), PacketError>)
      modifies this
      ensures (View(), r) == Accept(old(View()), sequence)
    {
      if highest.None? {
        highest, seen := Some(sequence), 1;
        return Ok(());
      }
      if sequence > highest.value {
        var shift := sequence - highest.value;
        seen := if shift >= WINDOW then 1 else WithBit(ShiftLeft(seen, shift), 0);
        highest := Some(sequence);
        return Ok(());
      }
      var distance := highest.value - sequence;
      if distance >= WINDOW {
        return Err(TooOld);
      }
      if Bit(seen, distance) {
        return Err(Replayed);
      }
      seen := WithBit(seen, distance);
      return Ok(());
    }
  }

  // ----------------------------------------------------------------- refinement

  /** The window and the set of all accepted sequences tell the same story. */
  ghost predicate Agrees(w: Window, accepted: set<nat>) {
    match w.highest
    case None => accepted == {}
    case Some(highest) =>
      && highest in accepted
      && (forall n :: n in accepted ==> n <= highest)
      && forall d: nat :: d < WINDOW && d <= highest ==> (Bit(w.seen, d) <==> highest - d in accepted)
  }

  /** The answer a plain set gives. */
  function Verdict(highest: Option<nat>, accepted: set<nat>, sequence: nat): Result<(), PacketError> {
    if highest.Some? && sequence + WINDOW <= highest.value then Err(TooOld)
    else if sequence in accepted then Err(Replayed)
    else Ok(())
  }

  lemma FirstBit(d: nat)
    ensures Bit(1, d) <==> d == 0
  {
    if d > 0 { NoBits(d - 1); }
  }

  lemma {:induction false} NoBits(d: nat)
    ensures !Bit(0, d)
  {
    if d > 0 { NoBits(d - 1); }
  }

  lemma NewestAgrees(w: Window, accepted: set<nat>, sequence: nat)
    requires Agrees(w, accepted) && w.highest.Some? && sequence > w.highest.value
    ensures Agrees(Accept(w, sequence).0, accepted + {sequence})
  {
    hide Bit, WithBit, ShiftLeft;
    var highest, next := w.highest.value, Accept(w, sequence).0;
    var shift := sequence - highest;
    forall d: nat | d < WINDOW && d <= sequence
      ensures Bit(next.seen, d) <==> sequence - d in accepted + {sequence}
    {
      if shift >= WINDOW {
        FirstBit(d);
      } else {
        WithBitSets(ShiftLeft(w.seen, shift), 0, d);
        ShiftMovesDigits(w.seen, shift, d);
        if d >= shift { assert highest - (d - shift) == sequence - d; }
      }
    }
  }

  lemma OlderAgrees(w: Window, accepted: set<nat>, sequence: nat)
    requires Agrees(w, accepted) && w.highest.Some? && sequence <= w.highest.value < sequence + WINDOW
    requires !Bit(w.seen, w.highest.value - sequence)
    ensures Agrees(Accept(w, sequence).0, accepted + {sequence})
  {
    hide Bit, WithBit, ShiftLeft;
    var highest, next := w.highest.value, Accept(w, sequence).0;
    forall d: nat | d < WINDOW && d <= highest
      ensures Bit(next.seen, d) <==> highest - d in accepted + {sequence}
    {
      WithBitSets(w.seen, highest - sequence, d);
    }
  }

  /** One packet: the mask answers as the set would, and the two stay in step. */
  lemma AcceptRefinesSet(w: Window, accepted: set<nat>, sequence: nat)
    requires Agrees(w, accepted)
    ensures
      var (next, verdict) := Accept(w, sequence);
      && verdict == Verdict(w.highest, accepted, sequence)
      && Agrees(next, if verdict.Ok? then accepted + {sequence} else accepted)
  {
    hide Bit, WithBit, ShiftLeft;
    match w.highest
    case None =>
      forall d: nat | d < WINDOW && d <= sequence ensures Bit(1, d) <==> sequence - d in {sequence} { FirstBit(d); }
    case Some(highest) =>
      if sequence > highest {
        NewestAgrees(w, accepted, sequence);
      } else if highest < sequence + WINDOW {
        assert highest - (highest - sequence) == sequence;
        if !Bit(w.seen, highest - sequence) { OlderAgrees(w, accepted, sequence); }
      }
  }

  // ------------------------------------------------------------------- every run

  /** A datagram after decryption: forged, or authentic with its sequence.  Only
      an authentic one reaches the window. */
  datatype Datagram = Forged | Authentic(sequence: nat)

  function Open(w: Window, d: Datagram): (Window, Result<nat, PacketError>) {
    match d
    case Forged => (w, Err(AuthenticationFailed))
    case Authentic(sequence) =>
      var (next, verdict) := Accept(w, sequence);
      (next, match verdict case Err(e) => Err(e) case Ok(_) => Ok(sequence))
  }

  function OpenAll(w: Window, ds: seq<Datagram>): (r: (Window, seq<Result<nat, PacketError>>))
    ensures |r.1| == |ds|
  {
    if ds == [] then (w, [])
    else
      var (before, results) := OpenAll(w, ds[..|ds| - 1]);
      var (after, result) := Open(before, ds[|ds| - 1]);
      (after, results + [result])
  }

  function AcceptedIn(results: seq<Result<nat, PacketError>>): set<nat> {
    set i | 0 <= i < |results| && results[i].Ok? :: results[i].value
  }

  lemma {:induction false} RunRefinesSet(ds: seq<Datagram>)
    ensures
      var (w, results) := OpenAll(EMPTY_WINDOW, ds);
      Agrees(w, AcceptedIn(results))
  {
    hide Accept;
    if ds != [] {
      var front, last := ds[..|ds| - 1], ds[|ds| - 1];
      RunRefinesSet(front);
      var (before, results) := OpenAll(EMPTY_WINDOW, front);
      AcceptedGrows(results, Open(before, last).1);
      if last.Authentic? { AcceptRefinesSet(before, AcceptedIn(results), last.sequence); }
    }
  }

  lemma AcceptedGrows(results: seq<Result<nat, PacketError>>, result: Result<nat, PacketError>)
    ensures AcceptedIn(results + [result]) == AcceptedIn(results) + if result.Ok? then {result.value} else {}
  {
    var both := results + [result];
    forall n | n in AcceptedIn(results) ensures n in AcceptedIn(both) {
      var i :| 0 <= i < |results| && results[i].Ok? && results[i].value == n;
      assert both[i] == results[i];
    }
    if result.Ok? { assert both[|results|] == result; }
  }

  /** After any run the next authentic packet is accepted exactly when its
      sequence was never accepted and is less than 64 below the highest accepted
      one; a forged packet changes nothing. */
  lemma NextVerdict(ds: seq<Datagram>, sequence: nat)
    ensures
      var (w, results) := OpenAll(EMPTY_WINDOW, ds);
      var accepted := AcceptedIn(results);
      var verdict := Open(w, Authentic(sequence)).1;
      && (verdict.Ok? <==> sequence !in accepted && forall n :: n in accepted ==> n < sequence + WINDOW)
      && (verdict == Err(Replayed) <==> sequence in accepted && forall n :: n in accepted ==> n < sequence + WINDOW)
      && (verdict.Err? ==> verdict.error == Replayed || verdict.error == TooOld)
  {
    hide Accept, OpenAll, AcceptedIn;
    var (w, results) := OpenAll(EMPTY_WINDOW, ds);
    RunRefinesSet(ds);
    AcceptRefinesSet(w, AcceptedIn(results), sequence);
  }

  /** No sequence is ever accepted twice. */
  lemma {:induction false} NeverTwice(ds: seq<Datagram>, i: nat, j: nat)
    requires i < j < |ds|
    requires OpenAll(EMPTY_WINDOW, ds).1[i].Ok? && OpenAll(EMPTY_WINDOW, ds).1[j].Ok?
    ensures OpenAll(EMPTY_WINDOW, ds).1[i].value != OpenAll(EMPTY_WINDOW, ds).1[j].value
    decreases |ds|
  {
    hide Accept;
    var front, last := ds[..|ds| - 1], ds[|ds| - 1];
    var (before, results) := OpenAll(EMPTY_WINDOW, front);
    if j < |front| {
      NeverTwice(front, i, j);
    } else {
      RunRefinesSet(front);
      assert results[i].value in AcceptedIn(results);
      AcceptRefinesSet(before, AcceptedIn(results), last.sequence);
    }
  }

  // ---------------------------------------------------------------- the sender

  /** The next sequence to use, if any is left. */
  function Take(next: Option<nat>): (Option<nat>, Result<nat, PacketError>) {
    match next
    case None => (None, Err(SequenceExhausted))
    case Some(sequence) => (if sequence + 1 <= MAX_SEQUENCE then Some(sequence + 1) else None, Ok(sequence))
  }

  function TakeTimes(n: nat): Option<nat> {
    if n == 0 then Some(0) else Take(TakeTimes(n - 1)).0
  }

  /** Sequences are used once each, in order, until none is left. */
  lemma {:induction false} SequencesAreFresh(n: nat)
    ensures TakeTimes(n) == if n <= MAX_SEQUENCE then Some(n) else None
    ensures Take(TakeTimes(n)).1 == if n <= MAX_SEQUENCE then Ok(n) else Err(SequenceExhausted)
  {
    if n > 0 { SequencesAreFresh(n - 1); }
  }
}
