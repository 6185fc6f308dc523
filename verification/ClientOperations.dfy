/** Client operations and the limits of their encoded form
    (`encode_client_difference` in `src/instruction.rs`).  A difference is the
    operation list itself; the bytes are not modelled, only their number. */
module ClientOperations {
  import opened Wrappers
  import opened Bytes

  datatype Operation = Input(bytes: seq<Byte>) | Resize(columns: nat, rows: nat)

  datatype EncodeError = TooManyClientOperations | InputTooLarge | InvalidTerminalSize | StateDifferenceTooLarge

  const MAX_OPERATIONS: nat := 4096
  const MAX_INPUT_BYTES: nat := 65536
  const MAX_COLUMNS: nat := 500
  const MAX_ROWS: nat := 200
  const MAX_DIFFERENCE_BYTES: nat := 2 * 1024 * 1024

  // ------------------------------------------------------------ encoded length

  function VarintLength(n: nat): (length: nat)
    ensures 1 <= length
  {
    if n < 128 then 1 else 1 + VarintLength(n / 128)
  }

  /** A length-delimited field with a one-byte tag. */
  function Framed(n: nat): nat {
    1 + VarintLength(n) + n
  }

  /** A field left out when it holds its default. */
  function BytesField(n: nat): nat {
    if n == 0 then 0 else Framed(n)
  }

  function NumberField(n: nat): nat {
    if n == 0 then 0 else 1 + VarintLength(n)
  }

  function OperationLength(op: Operation): nat {
    match op
    case Input(bytes) => Framed(BytesField(|bytes|))
    case Resize(columns, rows) => Framed(NumberField(columns) + NumberField(rows))
  }

  function DifferenceLength(ops: seq<Operation>): nat {
    if ops == [] then 0
    else DifferenceLength(ops[..|ops| - 1]) + Framed(OperationLength(ops[|ops| - 1]))
  }

  // -------------------------------------------------------------------- encode

  function OperationError(op: Operation): Option<EncodeError> {
    match op
    case Input(bytes) => if |bytes| > MAX_INPUT_BYTES then Some(InputTooLarge) else None
    case Resize(columns, rows) =>
      if columns == 0 || columns > MAX_COLUMNS || rows == 0 || rows > MAX_ROWS then Some(InvalidTerminalSize) else None
  }

  /** The error of the first operation that breaks a limit. */
  function FirstError(ops: seq<Operation>): Option<EncodeError> {
    if ops == [] then None
    else if FirstError(ops[..|ops| - 1]).Some? then FirstError(ops[..|ops| - 1])
    else OperationError(ops[|ops| - 1])
  }

  function Encode(ops: seq<Operation>): Result<seq<Operation>, EncodeError> {
    if |ops| > MAX_OPERATIONS then Err(TooManyClientOperations)
    else if FirstError(ops).Some? then Err(FirstError(ops).value)
    else if DifferenceLength(ops) > MAX_DIFFERENCE_BYTES then Err(StateDifferenceTooLarge)
    else Ok(ops)
  }

  /** The validating loop over the operations. */
  method EncodeClientDifference(ops: seq<Operation>) returns (r: Result<seq<Operation>, EncodeError>)
    ensures r == Encode(ops)
  {
    hide Framed, OperationLength;
    if |ops| > MAX_OPERATIONS {
      return Err(TooManyClientOperations);
    }
    var wire: seq<Operation> := [];
    var length := 0;
    for i := 0 to |ops|
      invariant wire == ops[..i] && length == DifferenceLength(wire)
      invariant FirstError(wire).None?
    {
      assert ops[..i + 1][..i] == ops[..i];
      match ops[i] {
        case Input(bytes) =>
          if |bytes| > MAX_INPUT_BYTES {
            FirstErrorOfPrefix(ops, i + 1);
            return Err(InputTooLarge);
          }
        case Resize(columns, rows) =>
          if columns == 0 || columns > MAX_COLUMNS || rows == 0 || rows > MAX_ROWS {
            FirstErrorOfPrefix(ops, i + 1);
            return Err(InvalidTerminalSize);
          }
      }
      wire := wire + [ops[i]];
      length := length + Framed(OperationLength(ops[i]));
    }
    assert ops[..|ops|] == ops;
    if length > MAX_DIFFERENCE_BYTES {
      return Err(StateDifferenceTooLarge);
    }
    return Ok(wire);
  }

  lemma {:induction false} FirstErrorOfPrefix(ops: seq<Operation>, i: nat)
    requires i <= |ops| && FirstError(ops[..i]).Some?
    ensures FirstError(ops) == FirstError(ops[..i])
    decreases |ops|
  {
    if i == |ops| {
      assert ops[..i] == ops;
    } else {
      var front := ops[..|ops| - 1];
      assert front[..i] == ops[..i];
      FirstErrorOfPrefix(front, i);
    }
  }

  // ------------------------------------------------------------------ sub-ranges

  lemma {:induction false} LengthConcat(a: seq<Operation>, b: seq<Operation>)
    ensures DifferenceLength(a + b) == DifferenceLength(a) + DifferenceLength(b)
    decreases |b|
  {
    if b == [] {
      assert a + b == a;
    } else {
      var front := b[..|b| - 1];
      assert (a + b)[..|a + b| - 1] == a + front;
      LengthConcat(a, front);
    }
  }

  lemma {:induction false} NoErrorMeansAllFit(ops: seq<Operation>)
    ensures FirstError(ops).None? <==> forall i :: 0 <= i < |ops| ==> OperationError(ops[i]).None?
  {
    if ops != [] {
      NoErrorMeansAllFit(ops[..|ops| - 1]);
      assert forall i :: 0 <= i < |ops| - 1 ==> ops[i] == ops[..|ops| - 1][i];
    }
  }

  lemma {:induction false} FirstErrorIsOfAnOperation(ops: seq<Operation>)
    ensures FirstError(ops).Some? ==> FirstError(ops).value in {InputTooLarge, InvalidTerminalSize}
  {
    if ops != [] { FirstErrorIsOfAnOperation(ops[..|ops| - 1]); }
  }

  lemma ShortNumber(n: nat)
    requires n < 16_384
    ensures VarintLength(n) == if n < 128 then 1 else 2
  {
    if n >= 128 { assert VarintLength(n / 128) == 1; }
  }

  /** The encoded length of small operations: a change of size takes at most ten bytes, an
      empty input four, and a key seven. */
  lemma LengthsSay(columns: nat, rows: nat, byte: Byte)
    requires 1 <= columns < 16_384 && 1 <= rows < 16_384
    ensures DifferenceLength([]) == 0
    ensures DifferenceLength([Resize(columns, rows)]) ==
      8 + (if columns < 128 then 0 else 1) + (if rows < 128 then 0 else 1)
    ensures DifferenceLength([Input([])]) == 4 && DifferenceLength([Input([byte])]) == 7
    ensures NumberField(0) == 0
  {
    ShortNumber(columns);
    ShortNumber(rows);
    forall op: Operation ensures DifferenceLength([op]) == Framed(OperationLength(op)) {
      assert [op][..0] == [];
      assert DifferenceLength([]) == 0;
    }
  }

  /** Within the limits for one operation. */
  predicate Allowed(op: Operation) {
    match op
    case Input(bytes) => |bytes| <= 65_536
    case Resize(columns, rows) => 1 <= columns <= 500 && 1 <= rows <= 200
  }

  /** A difference is encoded, and unchanged, exactly when it has at most 4,096
      operations, each within its limits, and at most 2 MiB; otherwise the number of
      operations is refused first, then the first that breaks a limit. */
  lemma EncodeIff(ops: seq<Operation>)
    ensures Encode(ops) == Ok(ops) <==>
      |ops| <= 4_096 && DifferenceLength(ops) <= 0x20_0000 && forall i :: 0 <= i < |ops| ==> Allowed(ops[i])
    ensures Encode(ops) == Err(TooManyClientOperations) <==> |ops| > 4_096
    ensures |ops| <= 4_096 ==>
      forall i :: 0 <= i < |ops| && !Allowed(ops[i]) && (forall j :: 0 <= j < i ==> Allowed(ops[j])) ==>
        Encode(ops) == Err(if ops[i].Input? then InputTooLarge else InvalidTerminalSize)
    ensures |ops| <= 4_096 && DifferenceLength(ops) > 0x20_0000 && (forall i :: 0 <= i < |ops| ==> Allowed(ops[i])) ==>
      Encode(ops) == Err(StateDifferenceTooLarge)
  {
    hide DifferenceLength, FirstError;
    NoErrorMeansAllFit(ops);
    FirstErrorIsOfAnOperation(ops);
    forall i | 0 <= i < |ops| ensures OperationError(ops[i]).None? <==> Allowed(ops[i]) {}
    forall i | 0 <= i < |ops| && !Allowed(ops[i]) && (forall j :: 0 <= j < i ==> Allowed(ops[j]))
      ensures FirstError(ops) == Some(if ops[i].Input? then InputTooLarge else InvalidTerminalSize)
    {
      NoErrorMeansAllFit(ops[..i]);
      FirstErrorIs(ops, i);
    }
  }

  lemma FirstErrorIs(ops: seq<Operation>, i: nat)
    requires i < |ops| && FirstError(ops[..i]).None? && OperationError(ops[i]).Some?
    ensures FirstError(ops) == OperationError(ops[i])
  {
    assert ops[..i + 1][..i] == ops[..i];
    FirstErrorOfPrefix(ops, i + 1);
  }

  /** A log that passed every limit as a whole passes them in every sub-range. */
  lemma SubrangeEncodes(ops: seq<Operation>, from: nat, to: nat)
    requires Encode(ops).Ok? && from <= to <= |ops|
    ensures Encode(ops[from..to]) == Ok(ops[from..to])
  {
    hide DifferenceLength, FirstError, OperationError;
    var part := ops[from..to];
    NoErrorMeansAllFit(ops);
    NoErrorMeansAllFit(part);
    assert ops == ops[..from] + part + ops[to..];
    LengthConcat(ops[..from] + part, ops[to..]);
    LengthConcat(ops[..from], part);
  }
}
