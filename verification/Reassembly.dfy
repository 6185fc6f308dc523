/** The one-slot reassembler (`src/fragment.rs`) and the round trip of a message
    through splitting, headers and reassembly in any order. */
module Reassembly {
  import opened Wrappers
  import opened Bytes
  import opened Fragments

  datatype ReassemblyError =
    | NumberOutOfRange
    | ConflictingFragment
    | InstructionTooLarge
    | TooManyIncompleteInstructions
    | TimeMovedBackwards
    | TimerExhausted

  datatype Outcome = Pending | Duplicate | Complete(payload: seq<Byte>)

  datatype Stored = Stored(body: seq<Byte>, isFinal: bool)

  datatype Incomplete = Incomplete(
    identifier: nat, createdAt: nat, storedBytes: nat, finalNumber: Option<nat>, fragments: map<nat, Stored>)

  datatype Reassembler = Reassembler(incomplete: Option<Incomplete>, lastObserved: nat)

  // ------------------------------------------------------------ one instruction

  /** Whether a fragment is new; a different fragment of the same number, or one
      that contradicts where the message ends, is a conflict. */
  function Classify(inc: Incomplete, f: Fragment): Result<bool, ReassemblyError> {
    if f.number in inc.fragments then
      if inc.fragments[f.number] == Stored(f.body, f.isFinal) then Ok(false) else Err(ConflictingFragment)
    else if (inc.finalNumber.Some? && f.number > inc.finalNumber.value)
            || (f.isFinal && (inc.finalNumber.Some? || exists k :: k in inc.fragments && k > f.number))
    then Err(ConflictingFragment)
    else Ok(true)
  }

  function Insert(inc: Incomplete, f: Fragment): Incomplete {
    Incomplete(inc.identifier, inc.createdAt, inc.storedBytes + |f.body|,
               if f.isFinal then Some(f.number) else inc.finalNumber,
               inc.fragments[f.number := Stored(f.body, f.isFinal)])
  }

  predicate IsComplete(inc: Incomplete) {
    && inc.finalNumber.Some?
    && |inc.fragments| == inc.finalNumber.value + 1
    && forall k :: 0 <= k <= inc.finalNumber.value ==> k in inc.fragments
  }

  function Assembled(fragments: map<nat, Stored>, n: nat): seq<Byte>
    requires forall k :: 0 <= k < n ==> k in fragments
  {
    if n == 0 then [] else Assembled(fragments, n - 1) + fragments[n - 1].body
  }

  // ------------------------------------------------------------------- the slot

  function PushNew(r: Reassembler, now: nat, f: Fragment): (Reassembler, Result<Outcome, ReassemblyError>) {
    if f.number == 0 && f.isFinal then
      (r, if |f.body| <= MAX_COMPRESSED_BYTES then Ok(Complete(f.body)) else Err(InstructionTooLarge))
    else if r.incomplete.Some? then (r, Err(TooManyIncompleteInstructions))
    else if |f.body| > MAX_COMPRESSED_BYTES then (r, Err(InstructionTooLarge))
    else (r.(incomplete := Some(Insert(Incomplete(f.identifier, now, 0, None, map[]), f))), Ok(Pending))
  }

  function PushKnown(r: Reassembler, inc: Incomplete, f: Fragment): (Reassembler, Result<Outcome, ReassemblyError>) {
    match Classify(inc, f)
    case Err(e) => (r.(incomplete := None), Err(e))
    case Ok(false) => (r, Ok(Duplicate))
    case Ok(true) =>
      if inc.storedBytes + |f.body| > MAX_COMPRESSED_BYTES then (r, Err(InstructionTooLarge))
      else
        var next := Insert(inc, f);
        if !IsComplete(next) then (r.(incomplete := Some(next)), Ok(Pending))
        else (r.(incomplete := None), Ok(Complete(Assembled(next.fragments, next.finalNumber.value + 1))))
  }

  /** The state after the clock was checked and an expired instruction dropped. */
  function Observed(r: Reassembler, now: nat): (Reassembler, Option<ReassemblyError>) {
    if now < r.lastObserved then (r, Some(TimeMovedBackwards))
    else
      var at := r.(lastObserved := now);
      if at.incomplete.None? then (at, None)
      else if at.incomplete.value.createdAt + LIFETIME_MS > U64_MAX then (at, Some(TimerExhausted))
      else (if at.incomplete.value.createdAt + LIFETIME_MS <= now then at.(incomplete := None) else at, None)
  }

  function Push(r: Reassembler, now: nat, f: Fragment): (Reassembler, Result<Outcome, ReassemblyError>) {
    var (at, failed) := Observed(r, now);
    if failed.Some? then (at, Err(failed.value))
    else if f.number >= MAX_FRAGMENTS then (at, Err(NumberOutOfRange))
    else if at.incomplete.Some? && at.incomplete.value.identifier == f.identifier then
      PushKnown(at, at.incomplete.value, f)
    else PushNew(at, now, f)
  }

  /** The reassembler with its slot and clock updated in place. */
  class FragmentReassembler {
    var incomplete: Option<Incomplete>
    var lastObservedMs: nat

    function View(): Reassembler
      reads this
    {
      Reassembler(incomplete, lastObservedMs)
    }

    constructor (startedAt: nat)
      ensures View() == Reassembler(None, startedAt)
    {
      incomplete, lastObservedMs := None, startedAt;
    }

    static method Assemble(fragments: map<nat, Stored>, n: nat) returns (output: seq<Byte>)
      requires forall k :: 0 <= k < n ==> k in fragments
      ensures output == Assembled(fragments, n)
    {
      output := [];
      for i := 0 to n
        invariant output == Assembled(fragments, i)
      {
        output := output + fragments[i].body;
      }
    }

    method ObserveTime(now: nat) returns (failed: Option<ReassemblyError>)
      modifies this
      ensures (View(), failed) == Observed(old(View()), now)
    {
      if now < lastObservedMs {
        return Some(TimeMovedBackwards);
      }
      lastObservedMs := now;
      if incomplete.Some? {
        if incomplete.value.createdAt + LIFETIME_MS > U64_MAX {
          return Some(TimerExhausted);
        }
        if incomplete.value.createdAt + LIFETIME_MS <= now {
          incomplete := None;
        }
      }
      return None;
    }

    method PushFragment(now: nat, f: Fragment) returns (r: Result<Outcome, ReassemblyError>)
      modifies this
      ensures (View(), r) == Push(old(View()), now, f)
    {
      var failed := ObserveTime(now);
      if failed.Some? {
        return Err(failed.value);
      }
      if f.number >= MAX_FRAGMENTS {
        return Err(NumberOutOfRange);
      }
      if incomplete.None? || incomplete.value.identifier != f.identifier {
        if f.number == 0 && f.isFinal {
          return if |f.body| <= MAX_COMPRESSED_BYTES then Ok(Complete(f.body)) else Err(InstructionTooLarge);
        }
        if incomplete.Some? {
          return Err(TooManyIncompleteInstructions);
        }
        if |f.body| > MAX_COMPRESSED_BYTES {
          return Err(InstructionTooLarge);
        }
        incomplete := Some(Insert(Incomplete(f.identifier, now, 0, None, map[]), f));
        return Ok(Pending);
      }
      var kind := Classify(incomplete.value, f);
      if kind.Err? {
        incomplete := None;
        return Err(kind.error);
      }
      if !kind.value {
        return Ok(Duplicate);
      }
      if incomplete.value.storedBytes + |f.body| > MAX_COMPRESSED_BYTES {
        return Err(InstructionTooLarge);
      }
      var next := Insert(incomplete.value, f);
      incomplete := Some(next);
      if !IsComplete(next) {
        return Ok(Pending);
      }
      incomplete := None;
      var payload := Assemble(next.fragments, next.finalNumber.value + 1);
      return Ok(Complete(payload));
    }
  }

  // -------------------------------------------------------- a message in transit

  datatype Message = Message(payload: seq<Byte>, identifier: nat)

  predicate Allowed(m: Message) {
    1 <= |m.payload| <= MAX_COMPRESSED_BYTES
  }

  predicate IsPieceOf(f: Fragment, m: Message) {
    && f.identifier == m.identifier && f.number < Count(m.payload)
    && f.isFinal == (f.number + 1 == Count(m.payload))
    && f.body == Chunk(m.payload, f.number)
  }

  /** A complete message of another identifier in a single fragment. */
  predicate IsForeign(f: Fragment, m: Message) {
    f.identifier != m.identifier && f.number == 0 && f.isFinal && |f.body| <= MAX_BODY_BYTES
  }

  function Below(n: nat): (numbers: set<nat>)
    ensures |numbers| == n && forall k: nat :: k in numbers <==> k < n
  {
    if n == 0 then {} else Below(n - 1) + {n - 1}
  }

  function All(m: Message): set<nat> {
    Below(Count(m.payload))
  }

  function Size(payload: seq<Byte>, got: set<nat>, n: nat): nat {
    if n == 0 then 0 else Size(payload, got, n - 1) + if n - 1 in got then |Chunk(payload, n - 1)| else 0
  }

  /** The slot holds exactly the pieces in `got`. */
  predicate Holding(r: Reassembler, m: Message, got: set<nat>, since: nat) {
    && got <= All(m)
    && if got == {} then r.incomplete.None?
       else
         && r.incomplete.Some?
         && HoldingPieces(r.incomplete.value, m, got) && since <= r.incomplete.value.createdAt <= r.lastObserved
  }

  predicate HoldingPieces(inc: Incomplete, m: Message, got: set<nat>) {
    && inc.identifier == m.identifier
    && inc.fragments.Keys == got
    && (forall k :: k in got ==> inc.fragments[k] == Stored(Chunk(m.payload, k), k + 1 == Count(m.payload)))
    && inc.finalNumber == (if Count(m.payload) - 1 in got then Some(Count(m.payload) - 1) else None)
    && inc.storedBytes == Size(m.payload, got, Count(m.payload))
  }

  lemma {:induction false} SizeIsBounded(payload: seq<Byte>, got: set<nat>, n: nat)
    ensures Size(payload, got, n) <= ChunkStart(payload, n)
  {
    if n > 0 { SizeIsBounded(payload, got, n - 1); }
  }

  lemma {:induction false} SizeGrows(payload: seq<Byte>, got: set<nat>, k: nat, n: nat)
    requires k !in got
    ensures Size(payload, got + {k}, n) == Size(payload, got, n) + if k < n then |Chunk(payload, k)| else 0
  {
    if n > 0 { SizeGrows(payload, got, k, n - 1); }
  }

  lemma {:induction false} SizeOfNothing(payload: seq<Byte>, n: nat)
    ensures Size(payload, {}, n) == 0
  {
    if n > 0 { SizeOfNothing(payload, n - 1); }
  }

  lemma {:induction false} AssembledIsJoined(fragments: map<nat, Stored>, m: Message, n: nat)
    requires forall k :: 0 <= k < n ==> k in fragments && fragments[k].body == Chunk(m.payload, k)
    ensures Assembled(fragments, n) == Joined(m.payload, n)
  {
    if n > 0 { AssembledIsJoined(fragments, m, n - 1); }
  }

  lemma InsertHolds(inc: Incomplete, m: Message, got: set<nat>, f: Fragment)
    requires HoldingPieces(inc, m, got) && IsPieceOf(f, m) && f.number !in got
    ensures HoldingPieces(Insert(inc, f), m, got + {f.number})
  {
    hide Size, Chunk;
    SizeGrows(m.payload, got, f.number, Count(m.payload));
  }

  lemma CompleteIff(inc: Incomplete, m: Message, got: set<nat>)
    requires HoldingPieces(inc, m, got) && got <= All(m)
    ensures IsComplete(inc) <==> got == All(m) && got != {}
    ensures IsComplete(inc) ==> Assembled(inc.fragments, inc.finalNumber.value + 1) == m.payload
  {
    hide Size, Chunk;
    var n := Count(m.payload);
    if got == All(m) && got != {} {
      assert n - 1 in All(m);
      assert inc.fragments.Keys == All(m);
      AssembledIsJoined(inc.fragments, m, n);
      ChunksCover(m.payload);
    }
  }

  // ----------------------------------------------------------------- one delivery

  /** What delivering `f` should report when the pieces in `got` are there. */
  function Expected(m: Message, got: set<nat>, f: Fragment): Outcome {
    if f.identifier != m.identifier then Complete(f.body)
    else if f.number in got then Duplicate
    else if got + {f.number} == All(m) then Complete(m.payload)
    else Pending
  }

  function GotAfter(m: Message, got: set<nat>, f: Fragment): set<nat> {
    if f.identifier != m.identifier then got
    else if got + {f.number} == All(m) then {}
    else got + {f.number}
  }

  lemma ForeignDelivery(r: Reassembler, m: Message, got: set<nat>, since: nat, now: nat, f: Fragment)
    requires Holding(r, m, got, since) && r.lastObserved <= now < since + LIFETIME_MS <= U64_MAX - LIFETIME_MS
    requires IsForeign(f, m)
    ensures
      var (next, outcome) := Push(r, now, f);
      outcome == Ok(Complete(f.body)) && Holding(next, m, got, since) && next.lastObserved == now
  {
    hide HoldingPieces;
    if got != {} { HeldIdentifier(r, m, got, since); }
  }

  lemma HeldIdentifier(r: Reassembler, m: Message, got: set<nat>, since: nat)
    requires Holding(r, m, got, since) && got != {}
    ensures r.incomplete.value.identifier == m.identifier
  {
  }

  lemma FirstDelivery(r: Reassembler, m: Message, since: nat, now: nat, f: Fragment)
    requires Allowed(m) && r.incomplete.None? && since <= now && r.lastObserved <= now && IsPieceOf(f, m)
    ensures
      var (next, outcome) := Push(r, now, f);
      && outcome == Ok(Expected(m, {}, f)) && Holding(next, m, GotAfter(m, {}, f), since) && next.lastObserved == now
  {
    hide Size;
    var n := Count(m.payload);
    ChunksCover(m.payload);
    if n == 1 {
      assert All(m) == {0};
      assert Chunk(m.payload, 0) == m.payload;
    } else {
      assert 0 in All(m) && 1 in All(m);
      var blank := Incomplete(f.identifier, now, 0, None, map[]);
      SizeOfNothing(m.payload, n);
      assert HoldingPieces(blank, m, {});
      InsertHolds(blank, m, {}, f);
      assert {} + {f.number} == {f.number};
    }
  }

  lemma NextDelivery(r: Reassembler, m: Message, got: set<nat>, since: nat, now: nat, f: Fragment)
    requires Allowed(m) && got != {} && got != All(m) && Holding(r, m, got, since) && IsPieceOf(f, m)
    requires r.lastObserved <= now < since + LIFETIME_MS <= U64_MAX - LIFETIME_MS
    ensures
      var (next, outcome) := Push(r, now, f);
      && outcome == Ok(Expected(m, got, f)) && Holding(next, m, GotAfter(m, got, f), since) && next.lastObserved == now
  {
    hide Size, Chunk, IsComplete, Assembled, Insert;
    ChunksCover(m.payload);
    var inc := r.incomplete.value;
    if f.number in got {
      assert got + {f.number} == got;
    } else {
      InsertHolds(inc, m, got, f);
      CompleteIff(Insert(inc, f), m, got + {f.number});
      SizeIsBounded(m.payload, got + {f.number}, Count(m.payload));
      NoConflict(inc, m, got, f);
      assert Insert(inc, f).storedBytes == inc.storedBytes + |f.body| && Insert(inc, f).createdAt == inc.createdAt by {
        InsertKeeps(inc, f);
      }
    }
  }

  lemma InsertKeeps(inc: Incomplete, f: Fragment)
    ensures Insert(inc, f).storedBytes == inc.storedBytes + |f.body| && Insert(inc, f).createdAt == inc.createdAt
  {
  }

  lemma NoConflict(inc: Incomplete, m: Message, got: set<nat>, f: Fragment)
    requires HoldingPieces(inc, m, got) && got <= All(m) && IsPieceOf(f, m) && f.number !in got
    ensures Classify(inc, f) == Ok(true)
  {
    hide Size, Chunk;
    assert forall k :: k in inc.fragments ==> k in All(m);
  }

  // ------------------------------------------------------------------- any order

  /** A datagram's plaintext and its arrival time. */
  datatype Arrival = Arrival(now: nat, plaintext: seq<Byte>)

  function Receive(r: Reassembler, a: Arrival): (Reassembler, Result<Outcome, ReassemblyError>)
    requires Decode(a.plaintext).Ok?
  {
    Push(r, a.now, Decode(a.plaintext).value)
  }

  predicate Carries(a: Arrival, m: Message) {
    Decode(a.plaintext).Ok? && (IsPieceOf(Decode(a.plaintext).value, m) || IsForeign(Decode(a.plaintext).value, m))
  }

  predicate AllDecode(arrivals: seq<Arrival>) {
    forall i :: 0 <= i < |arrivals| ==> Decode(arrivals[i].plaintext).Ok?
  }

  predicate AllCarry(arrivals: seq<Arrival>, m: Message) {
    forall i :: 0 <= i < |arrivals| ==> Carries(arrivals[i], m)
  }

  function ReceiveAll(r: Reassembler, arrivals: seq<Arrival>): (Reassembler, seq<Result<Outcome, ReassemblyError>>)
    requires AllDecode(arrivals)
    decreases |arrivals|
  {
    if arrivals == [] then (r, [])
    else
      var (next, outcome) := Receive(r, arrivals[0]);
      var (last, outcomes) := ReceiveAll(next, arrivals[1..]);
      (last, [outcome] + outcomes)
  }

  /** The outcomes the message should produce: its payload at the first moment
      all its pieces are there, and again only after a whole second copy. */
  function ExpectedAll(m: Message, got: set<nat>, arrivals: seq<Arrival>): seq<Result<Outcome, ReassemblyError>>
    requires AllDecode(arrivals)
    decreases |arrivals|
  {
    if arrivals == [] then []
    else
      var f := Decode(arrivals[0].plaintext).value;
      [Ok(Expected(m, got, f))] + ExpectedAll(m, GotAfter(m, got, f), arrivals[1..])
  }

  predicate Names(a: Arrival, m: Message) {
    Decode(a.plaintext).Ok? && Decode(a.plaintext).value.identifier == m.identifier
  }

  /** Arrivals in order of time, the message's own not before `since`, all before
      a slot opened at `since` would expire. */
  predicate Timely(arrivals: seq<Arrival>, from: nat, since: nat, m: Message) {
    && (forall i :: 0 <= i < |arrivals| ==> from <= arrivals[i].now < since + LIFETIME_MS)
    && (forall i, j :: 0 <= i <= j < |arrivals| ==> arrivals[i].now <= arrivals[j].now)
    && (forall i :: 0 <= i < |arrivals| && Names(arrivals[i], m) ==> since <= arrivals[i].now)
  }

  /** Fragments in any order, with any repetitions and any complete messages in
      between, all within the lifetime: never an error, and the payload exactly
      when the last missing piece arrives. */
  lemma {:induction false} AnyOrderReassembles(r: Reassembler, m: Message, got: set<nat>, since: nat,
                                               arrivals: seq<Arrival>)
    requires Allowed(m) && Holding(r, m, got, since) && got != All(m) && since + LIFETIME_MS <= U64_MAX - LIFETIME_MS
    requires AllDecode(arrivals) && AllCarry(arrivals, m)
    requires Timely(arrivals, r.lastObserved, since, m)
    ensures ReceiveAll(r, arrivals).1 == ExpectedAll(m, got, arrivals)
    decreases |arrivals|
  {
    hide Push, Decode, Holding, Expected, GotAfter, All, IsPieceOf, IsForeign;
    if arrivals != [] {
      var a, f := arrivals[0], Decode(arrivals[0].plaintext).value;
      var (next, outcome) := Push(r, a.now, f);
      DeliveryStep(r, m, got, since, a.now, f);
      AnyOrderReassembles(next, m, GotAfter(m, got, f), since, arrivals[1..]);
    }
  }

  lemma DeliveryStep(r: Reassembler, m: Message, got: set<nat>, since: nat, now: nat, f: Fragment)
    requires Allowed(m) && Holding(r, m, got, since) && got != All(m)
    requires r.lastObserved <= now < since + LIFETIME_MS <= U64_MAX - LIFETIME_MS
    requires IsPieceOf(f, m) || IsForeign(f, m)
    requires f.identifier == m.identifier ==> since <= now
    ensures
      var (next, outcome) := Push(r, now, f);
      && outcome == Ok(Expected(m, got, f)) && Holding(next, m, GotAfter(m, got, f), since)
      && GotAfter(m, got, f) != All(m) && next.lastObserved == now
  {
    hide Push, HoldingPieces, Chunk;
    ChunksCover(m.payload);
    assert 0 in All(m);
    if f.identifier != m.identifier {
      ForeignDelivery(r, m, got, since, now, f);
    } else if got == {} {
      FirstDelivery(r, m, since, now, f);
    } else {
      NextDelivery(r, m, got, since, now, f);
      assert f.number in got ==> got + {f.number} == got;
    }
  }

  /** The numbers of the message's pieces among the arrivals. */
  function Seen(m: Message, arrivals: seq<Arrival>): set<nat>
    requires AllDecode(arrivals)
    decreases |arrivals|
  {
    if arrivals == [] then {}
    else
      var f := Decode(arrivals[0].plaintext).value;
      (if f.identifier == m.identifier then {f.number} else {}) + Seen(m, arrivals[1..])
  }

  lemma {:induction false} SeenArePieces(m: Message, arrivals: seq<Arrival>)
    requires AllDecode(arrivals) && AllCarry(arrivals, m)
    ensures Seen(m, arrivals) <= All(m)
    decreases |arrivals|
  {
    hide Decode, Chunk;
    if arrivals != [] {
      assert Carries(arrivals[0], m);
      SeenArePieces(m, arrivals[1..]);
    }
  }

  lemma {:induction false} ExpectedAt(m: Message, got: set<nat>, arrivals: seq<Arrival>, k: nat)
    requires AllDecode(arrivals) && AllCarry(arrivals, m) && k < |arrivals| && got <= All(m)
    requires got + Seen(m, arrivals[..k]) != All(m)
    ensures |ExpectedAll(m, got, arrivals)| == |arrivals|
    ensures ExpectedAll(m, got, arrivals)[k]
            == Ok(Expected(m, got + Seen(m, arrivals[..k]), Decode(arrivals[k].plaintext).value))
    decreases |arrivals|
  {
    hide Decode, All, IsPieceOf, IsForeign;
    ExpectedLength(m, got, arrivals);
    if k == 0 {
      assert got + Seen(m, arrivals[..0]) == got;
    } else {
      var rest, f := arrivals[1..], Decode(arrivals[0].plaintext).value;
      assert arrivals[..k][1..] == rest[..k - 1];
      var own := if f.identifier == m.identifier then {f.number} else {};
      assert got + own + Seen(m, rest[..k - 1]) == got + Seen(m, arrivals[..k]);
      SeenArePieces(m, rest[..k - 1]);
      SeenArePieces(m, arrivals[..1]);
      assert own <= All(m) by { assert arrivals[..1][1..] == []; }
      assert GotAfter(m, got, f) == got + own;
      ExpectedAt(m, got + own, rest, k - 1);
    }
  }

  lemma {:induction false} ExpectedLength(m: Message, got: set<nat>, arrivals: seq<Arrival>)
    requires AllDecode(arrivals)
    ensures |ExpectedAll(m, got, arrivals)| == |arrivals|
    decreases |arrivals|
  {
    hide Decode, Expected, GotAfter;
    if arrivals != [] {
      ExpectedLength(m, GotAfter(m, got, Decode(arrivals[0].plaintext).value), arrivals[1..]);
    }
  }

  /** The round trip: starting from an empty slot, the payload comes out exactly
      at the arrival that completes the set of pieces; before that its own pieces
      are pending or duplicates, and other complete messages pass through. */
  lemma FragmentRoundTrip(r: Reassembler, m: Message, since: nat, arrivals: seq<Arrival>, k: nat)
    requires Allowed(m) && r.incomplete.None? && since + LIFETIME_MS <= U64_MAX - LIFETIME_MS
    requires AllDecode(arrivals) && AllCarry(arrivals, m) && Timely(arrivals, r.lastObserved, since, m)
    requires k < |arrivals| && Seen(m, arrivals[..k]) != All(m)
    ensures |ReceiveAll(r, arrivals).1| == |arrivals|
    ensures
      var f, seen := Decode(arrivals[k].plaintext).value, Seen(m, arrivals[..k]);
      ReceiveAll(r, arrivals).1[k] ==
        if f.identifier != m.identifier then Ok(Complete(f.body))
        else if f.number in seen then Ok(Duplicate)
        else if seen + {f.number} == All(m) then Ok(Complete(m.payload))
        else Ok(Pending)
  {
    hide Decode, Push, ReceiveAll, ExpectedAll, Timely, AllCarry, Seen, Count;
    assert {} != All(m) by { ChunksCover(m.payload); assert 0 in All(m); }
    assert {} + Seen(m, arrivals[..k]) == Seen(m, arrivals[..k]);
    AnyOrderReassembles(r, m, {}, since, arrivals);
    ExpectedAt(m, {}, arrivals, k);
  }

  /** What the sender writes for a message carries it. */
  lemma SentPiecesCarry(m: Message, timestamp: nat, reply: Option<nat>, i: nat, now: nat)
    requires Allowed(m) && i < Count(m.payload) && m.identifier < Power256(8)
    requires timestamp <= 0xFFFF && (reply.Some? ==> reply.value < NO_REPLY)
    ensures
      var f := Piece(m.payload, m.identifier, timestamp, reply, i);
      Encode(f, 2048).Ok? && Carries(Arrival(now, Encode(f, 2048).value), m)
  {
    hide Decode, Header, Chunk, Power256;
    ChunksCover(m.payload);
    var f := Piece(m.payload, m.identifier, timestamp, reply, i);
    DecodeInvertsEncode(f, 2048);
  }
}
