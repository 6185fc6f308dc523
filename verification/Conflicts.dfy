/** When the reassembler refuses a fragment: exactly when no message has it together
    with those stored, or a limit is broken. */
module Conflicts {
  import opened Wrappers
  import opened Bytes
  import opened Fragments
  import opened Reassembly

  /** The stored fragments are pieces of a message cut into `pieces`. */
  predicate PiecesOf(fragments: map<nat, Stored>, pieces: seq<seq<Byte>>) {
    forall k :: k in fragments ==> k < |pieces| && fragments[k] == Stored(pieces[k], k + 1 == |pieces|)
  }

  predicate PieceOf(f: Fragment, pieces: seq<seq<Byte>>) {
    f.number < |pieces| && f.body == pieces[f.number] && f.isFinal == (f.number + 1 == |pieces|)
  }

  /** Some message has the stored fragments, and the slot knows its end exactly if the
      last piece is among them. */
  ghost predicate Coherent(inc: Incomplete) {
    && (exists pieces :: PiecesOf(inc.fragments, pieces))
    && (inc.finalNumber.Some? ==>
          inc.finalNumber.value in inc.fragments && inc.fragments[inc.finalNumber.value].isFinal)
    && (inc.finalNumber.None? ==> forall k :: k in inc.fragments ==> !inc.fragments[k].isFinal)
  }

  ghost predicate Compatible(inc: Incomplete, f: Fragment) {
    exists pieces :: PiecesOf(inc.fragments, pieces) && PieceOf(f, pieces)
  }

  /** A message of `n` pieces with those stored, and `f`. */
  function Completed(inc: Incomplete, f: Fragment, n: nat): seq<seq<Byte>> {
    seq(n, k requires 0 <= k =>
      if k in inc.fragments then inc.fragments[k].body else if k == f.number then f.body else [])
  }

  /** Fragments conflict exactly when no message has them all; one stored before is a
      duplicate exactly when it is the same. */
  lemma ConflictIff(inc: Incomplete, f: Fragment)
    requires Coherent(inc)
    ensures Classify(inc, f).Ok? <==> Compatible(inc, f)
    ensures Classify(inc, f).Ok? ==> (Classify(inc, f).value <==> f.number !in inc.fragments)
    ensures Classify(inc, f).Err? ==> Classify(inc, f).error == ConflictingFragment
  {
    var pieces :| PiecesOf(inc.fragments, pieces);
    if Classify(inc, f).Ok? {
      if f.number in inc.fragments {
        assert PieceOf(f, pieces);
      } else {
        NewFits(inc, f, pieces);
      }
    }
    if Compatible(inc, f) {
      var whole :| PiecesOf(inc.fragments, whole) && PieceOf(f, whole);
    }
  }

  lemma NewFits(inc: Incomplete, f: Fragment, pieces: seq<seq<Byte>>)
    requires Coherent(inc) && PiecesOf(inc.fragments, pieces) && f.number !in inc.fragments && Classify(inc, f).Ok?
    ensures Compatible(inc, f)
  {
    var n :=
      if inc.finalNumber.Some? then inc.finalNumber.value + 1
      else if f.isFinal then f.number + 1
      else |pieces| + f.number + 2;
    var whole := Completed(inc, f, n);
    assert PiecesOf(inc.fragments, whole);
    assert PieceOf(f, whole);
  }

  /** A slot holding fragments of some message still does with one more that fits. */
  lemma InsertStaysCoherent(inc: Incomplete, f: Fragment)
    requires Coherent(inc) && Classify(inc, f) == Ok(true)
    ensures Coherent(Insert(inc, f))
  {
    ConflictIff(inc, f);
    var whole :| PiecesOf(inc.fragments, whole) && PieceOf(f, whole);
    assert PiecesOf(Insert(inc, f).fragments, whole);
  }

  lemma FirstIsCoherent(identifier: nat, now: nat, f: Fragment)
    ensures Coherent(Insert(Incomplete(identifier, now, 0, None, map[]), f))
  {
    var inc := Incomplete(identifier, now, 0, None, map[]);
    assert PiecesOf(inc.fragments, []);
    assert Classify(inc, f) == Ok(true);
    InsertStaysCoherent(inc, f);
  }

  ghost predicate Sane(r: Reassembler) {
    r.incomplete.Some? ==> Coherent(r.incomplete.value)
  }

  /** Over every run the slot holds fragments of one message. */
  lemma PushStaysSane(r: Reassembler, now: nat, f: Fragment)
    requires Sane(r)
    ensures Sane(Push(r, now, f).0)
  {
    hide Coherent, Classify, Insert;
    var at := Observed(r, now).0;
    FirstIsCoherent(f.identifier, now, f);
    if at.incomplete.Some? && Classify(at.incomplete.value, f) == Ok(true) {
      InsertStaysCoherent(at.incomplete.value, f);
    }
  }

  /** The slot at `now`: what is older than 10,000 ms is gone. */
  function Slot(r: Reassembler, now: nat): Option<Incomplete> {
    if r.incomplete.Some? && r.incomplete.value.createdAt + 10_000 <= now then None else r.incomplete
  }

  /** Pushing, from the slot alone: which error comes first, and what is done without
      one.  A conflict empties the slot; any other error leaves it. */
  lemma PushSays(r: Reassembler, now: nat, f: Fragment)
    requires Sane(r) && r.lastObserved <= now
    requires r.incomplete.Some? ==> r.incomplete.value.createdAt + 10_000 <= U64_MAX
    ensures
      var (slot, (next, outcome)) := (Slot(r, now), Push(r, now, f));
      var known := slot.Some? && slot.value.identifier == f.identifier;
      && next.lastObserved == now
      && if f.number >= 749 then outcome == Err(NumberOutOfRange) && next.incomplete == slot
         else if !known && f.number == 0 && f.isFinal then
           && next.incomplete == slot
           && outcome == if |f.body| <= 0x10_0000 then Ok(Complete(f.body)) else Err(InstructionTooLarge)
         else if !known && slot.Some? then outcome == Err(TooManyIncompleteInstructions) && next.incomplete == slot
         else if !known && |f.body| > 0x10_0000 then outcome == Err(InstructionTooLarge) && next.incomplete == slot
         else if !known then
           && outcome == Ok(Pending)
           && var end := if f.isFinal then Some(f.number) else None;
              next.incomplete == Some(Incomplete(f.identifier, now, |f.body|, end,
                                                 map[f.number := Stored(f.body, f.isFinal)]))
         else if !Compatible(slot.value, f) then outcome == Err(ConflictingFragment) && next.incomplete.None?
         else if f.number in slot.value.fragments then outcome == Ok(Duplicate) && next.incomplete == slot
         else if slot.value.storedBytes + |f.body| > 0x10_0000 then
           outcome == Err(InstructionTooLarge) && next.incomplete == slot
         else (outcome.Ok? && (outcome.value == Pending <==> next.incomplete.Some?) && outcome.value != Duplicate)
  {
    hide Compatible, Coherent, Classify, IsComplete, Assembled;
    var slot := Slot(r, now);
    if slot.Some? && slot.value.identifier == f.identifier { ConflictIff(slot.value, f); }
  }
}
