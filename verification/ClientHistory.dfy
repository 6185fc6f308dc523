/** The log of unacknowledged client operations with one checkpoint per state
    number (`src/session/client_history.rs`). */
module ClientHistories {
  import opened Wrappers
  import opened ClientOperations
  import opened Synchronization

  /** `DrainPastEnd` stands for the panic of `drain` on a range past the log. */
  datatype HistoryError =
    | EncodingFailed(cause: EncodeError)
    | OperationIndexExhausted
    | MissingClientState
    | DrainPastEnd

  datatype History = History(offset: nat, next: nat, operations: seq<Operation>, checkpoints: map<nat, nat>)

  const EMPTY_HISTORY: History := History(0, 0, [], map[0 := 0])

  function Append(h: History, op: Operation): Result<History, HistoryError> {
    if |h.operations| == MAX_OPERATIONS then Err(EncodingFailed(TooManyClientOperations))
    else if h.next == U64_MAX then Err(OperationIndexExhausted)
    else
      match Encode(h.operations + [op])
      case Err(e) => Err(EncodingFailed(e))
      case Ok(_) => Ok(h.(operations := h.operations + [op], next := h.next + 1))
  }

  function Checkpoint(h: History, state: nat): History {
    h.(checkpoints := h.checkpoints[state := h.next])
  }

  function Difference(h: History, base: nat, target: nat): Result<seq<Operation>, HistoryError> {
    if base !in h.checkpoints || target !in h.checkpoints then Err(MissingClientState)
    else if h.checkpoints[base] < h.offset || h.checkpoints[target] < h.offset then Err(MissingClientState)
    else
      var start, end := h.checkpoints[base] - h.offset, h.checkpoints[target] - h.offset;
      if !(start <= end <= |h.operations|) then Err(MissingClientState)
      else
        match Encode(h.operations[start..end])
        case Err(e) => Err(EncodingFailed(e))
        case Ok(difference) => Ok(difference)
  }

  /** The acknowledged operations leave the log. */
  function Acknowledge(h: History, state: nat): Result<History, HistoryError> {
    if state !in h.checkpoints || h.checkpoints[state] < h.offset then Err(MissingClientState)
    else if h.checkpoints[state] - h.offset > |h.operations| then Err(DrainPastEnd)
    else
      Ok(History(h.checkpoints[state], h.next, h.operations[h.checkpoints[state] - h.offset..],
                 map n | n in h.checkpoints && n >= state :: h.checkpoints[n]))
  }

  function RemoveCheckpoint(h: History, state: nat): History {
    h.(checkpoints := h.checkpoints - {state})
  }

  // ---------------------------------------------------------------- the ledger

  /** Everything the client ever did: all its operations, and how many of them
      each state number contains. */
  datatype Ledger = Ledger(all: seq<Operation>, marks: seq<nat>)

  predicate ValidLedger(l: Ledger) {
    && (forall i, j :: 0 <= i <= j < |l.marks| ==> l.marks[i] <= l.marks[j])
    && (forall i :: 0 <= i < |l.marks| ==> l.marks[i] <= |l.all|)
  }

  /** The log is the tail of the whole history, and its checkpoints are the
      ledger's marks. */
  predicate Tracks(h: History, l: Ledger) {
    && ValidLedger(l)
    && h.next == |l.all|
    && h.offset <= |l.all|
    && h.operations == l.all[h.offset..]
    && Encode(h.operations).Ok?
    && forall n :: n in h.checkpoints ==> n < |l.marks| && h.checkpoints[n] == l.marks[n] && h.offset <= l.marks[n]
  }

  lemma AppendTracks(h: History, l: Ledger, op: Operation)
    requires Tracks(h, l) && Append(h, op).Ok?
    ensures Tracks(Append(h, op).value, l.(all := l.all + [op]))
  {
    assert (l.all + [op])[h.offset..] == l.all[h.offset..] + [op];
  }

  lemma CheckpointTracks(h: History, l: Ledger)
    requires Tracks(h, l)
    ensures Tracks(Checkpoint(h, |l.marks|), l.(marks := l.marks + [|l.all|]))
  {
  }

  /** A difference is exactly the history between two states, and never fails. */
  lemma DifferenceIsHistory(h: History, l: Ledger, base: nat, target: nat)
    requires Tracks(h, l) && base in h.checkpoints && target in h.checkpoints && base <= target
    ensures l.marks[base] <= l.marks[target] <= |l.all|
    ensures Difference(h, base, target) == Ok(l.all[l.marks[base]..l.marks[target]])
  {
    hide Encode;
    var start, end := l.marks[base] - h.offset, l.marks[target] - h.offset;
    SubrangeEncodes(h.operations, start, end);
    assert h.operations[start..end] == l.all[l.marks[base]..l.marks[target]];
  }

  lemma AcknowledgeTracks(h: History, l: Ledger, state: nat)
    requires Tracks(h, l) && state in h.checkpoints
    ensures Acknowledge(h, state).Ok?
    ensures
      var next := Acknowledge(h, state).value;
      && Tracks(next, l) && next.offset == l.marks[state]
      && next.checkpoints.Keys == set n | n in h.checkpoints && n >= state
  {
    hide Encode;
    var next := Acknowledge(h, state).value;
    var drop := h.checkpoints[state] - h.offset;
    SubrangeEncodes(h.operations, drop, |h.operations|);
    assert h.operations[drop..] == h.operations[drop..|h.operations|];
    assert next.operations == l.all[next.offset..];
  }

  lemma RemoveTracks(h: History, l: Ledger, state: nat)
    requires Tracks(h, l)
    ensures Tracks(RemoveCheckpoint(h, state), l)
  {
  }

  // ----------------------------------------------------------- fields in place

  class ClientHistory {
    var operationOffset: nat
    var nextOperation: nat
    var operations: seq<Operation>
    var checkpoints: map<nat, nat>

    function View(): History
      reads this
    {
      History(operationOffset, nextOperation, operations, checkpoints)
    }

    constructor ()
      ensures View() == EMPTY_HISTORY
    {
      operationOffset, nextOperation, operations, checkpoints := 0, 0, [], map[0 := 0];
    }

    method AppendOperation(op: Operation) returns (r: Result<(), HistoryError>)
      modifies this
      ensures
        match Append(old(View()), op)
        case Err(e) => r == Err(e) && View() == old(View())
        case Ok(next) => r == Ok(()) && View() == next
    {
      if |operations| == MAX_OPERATIONS {
        return Err(EncodingFailed(TooManyClientOperations));
      }
      if nextOperation == U64_MAX {
        return Err(OperationIndexExhausted);
      }
      operations := operations + [op];
      var encoded := EncodeClientDifference(operations);
      if encoded.Err? {
        operations := operations[..|operations| - 1];
        return Err(EncodingFailed(encoded.error));
      }
      nextOperation := nextOperation + 1;
      return Ok(());
    }

    method AddCheckpoint(state: nat)
      modifies this
      ensures View() == Checkpoint(old(View()), state)
    {
      checkpoints := checkpoints[state := nextOperation];
    }

    method DifferenceBetween(base: nat, target: nat) returns (r: Result<seq<Operation>, HistoryError>)
      ensures r == Difference(View(), base, target)
    {
      if base !in checkpoints || target !in checkpoints {
        return Err(MissingClientState);
      }
      if checkpoints[base] < operationOffset || checkpoints[target] < operationOffset {
        return Err(MissingClientState);
      }
      var start, end := checkpoints[base] - operationOffset, checkpoints[target] - operationOffset;
      if !(start <= end <= |operations|) {
        return Err(MissingClientState);
      }
      var encoded := EncodeClientDifference(operations[start..end]);
      match encoded
      case Err(e) => return Err(EncodingFailed(e));
      case Ok(difference) => return Ok(difference);
    }

    method AcknowledgeState(state: nat) returns (r: Result<(), HistoryError>)
      modifies this
      ensures
        match Acknowledge(old(View()), state)
        case Err(e) => r == Err(e) && View() == old(View())
        case Ok(next) => r == Ok(()) && View() == next
    {
      if state !in checkpoints || checkpoints[state] < operationOffset {
        return Err(MissingClientState);
      }
      var acknowledged := checkpoints[state];
      if acknowledged - operationOffset > |operations| {
        return Err(DrainPastEnd);
      }
      operations := operations[acknowledged - operationOffset..];
      operationOffset := acknowledged;
      checkpoints := map n | n in checkpoints && n >= state :: checkpoints[n];
      return Ok(());
    }

    method DropCheckpoint(state: nat)
      modifies this
      ensures View() == RemoveCheckpoint(old(View()), state)
    {
      checkpoints := checkpoints - {state};
    }
  }
}
