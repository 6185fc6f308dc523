/** Which accepted operation logs an instruction can carry (`encode_zlib` in
    `src/instruction.rs`): its encoding is limited before and after compression.
    The compressor is a parameter. */
module Instructions {
  import opened Wrappers
  import opened Bytes
  import opened ClientOperations
  import opened Synchronization
  import Fragments

  type Outgoing = Instruction<seq<Operation>>

  datatype InstructionError = DecodedTooLarge | CompressedTooLarge

  const MAX_INSTRUCTION_BYTES: nat := 2 * 1024 * 1024
  const CHAFF_BYTES: nat := 1

  /** The numbers fit their fields: 32 bits for the version, 64 for the states. */
  predicate Encodable(m: Outgoing) {
    && m.version <= 0xFFFF_FFFF
    && m.base <= U64_MAX && m.target <= U64_MAX && m.acknowledged <= U64_MAX && m.throwaway <= U64_MAX
  }

  /** The encoded length of everything but the difference. */
  function HeaderLength(m: Outgoing): nat {
    NumberField(m.version) + NumberField(m.base) + NumberField(m.target) + NumberField(m.acknowledged)
    + NumberField(m.throwaway) + BytesField(CHAFF_BYTES)
  }

  function InstructionLength(m: Outgoing): nat {
    HeaderLength(m) + BytesField(DifferenceLength(m.difference))
  }

  /** `compressed` is what the compressor makes of the encoded instruction. */
  function EncodeZlib(m: Outgoing, compressed: seq<Byte>): Result<seq<Byte>, InstructionError> {
    if InstructionLength(m) > MAX_INSTRUCTION_BYTES then Err(DecodedTooLarge)
    else if |compressed| > Fragments.MAX_COMPRESSED_BYTES then Err(CompressedTooLarge)
    else Ok(compressed)
  }

  // ---------------------------------------------------------------- exactly when

  lemma {:induction false} VarintAtMost(n: nat, bytes: nat)
    requires 1 <= bytes && n < Power128(bytes)
    ensures VarintLength(n) <= bytes
    decreases bytes
  {
    if n >= 128 { VarintAtMost(n / 128, bytes - 1); }
  }

  function Power128(n: nat): nat {
    if n == 0 then 1 else 128 * Power128(n - 1)
  }

  lemma NumberAtMost(n: nat)
    requires n <= U64_MAX
    ensures NumberField(n) <= 11
  {
    assert Power128(5) == 0x8_0000_0000 by { assert Power128(3) == 0x20_0000; }
    assert Power128(10) == 0x8_0000_0000 * 0x8_0000_0000 by {
      assert Power128(7) == 128 * 128 * Power128(5);
      assert Power128(9) == 128 * 128 * Power128(7);
    }
    VarintAtMost(n, 10);
  }

  lemma HeaderIsShort(m: Outgoing)
    requires Encodable(m)
    ensures HeaderLength(m) <= 58
  {
    hide VarintLength, NumberField;
    NumberAtMost(m.version);
    NumberAtMost(m.base);
    NumberAtMost(m.target);
    NumberAtMost(m.acknowledged);
    NumberAtMost(m.throwaway);
    assert BytesField(CHAFF_BYTES) == 3 by { ShortVarint(); }
  }

  lemma ShortVarint()
    ensures VarintLength(1) == 1
  {
  }

  /** Four bytes frame a difference that is long enough to matter. */
  lemma FramingIsFour(n: nat)
    ensures BytesField(n) <= n + 4 || n >= 0x20_0000
    ensures 16384 <= n < 0x20_0000 ==> BytesField(n) == n + 4
    ensures n >= 0x20_0000 ==> BytesField(n) > MAX_INSTRUCTION_BYTES
  {
    if 16384 <= n < 0x20_0000 {
      assert VarintLength(n / 16384) == 1;
      assert VarintLength(n) == 3 by { assert n / 128 / 128 == n / 16384; }
    } else if n < 16384 {
      assert n >= 128 ==> VarintLength(n / 128) == 1;
    }
  }

  /** An instruction is encoded exactly when difference, header and four bytes of
      framing fit into 2 MiB and the compressed form fits into 1 MiB; and exactly
      which limit refuses it otherwise. */
  lemma SendableIff(m: Outgoing, compressed: seq<Byte>)
    requires Encodable(m)
    ensures
      var fits := DifferenceLength(m.difference) + 4 + HeaderLength(m) <= MAX_INSTRUCTION_BYTES;
      && (EncodeZlib(m, compressed) == Ok(compressed) <==> fits && |compressed| <= Fragments.MAX_COMPRESSED_BYTES)
      && (EncodeZlib(m, compressed) == Err(DecodedTooLarge) <==> !fits)
      && (EncodeZlib(m, compressed) == Err(CompressedTooLarge) <==>
            fits && |compressed| > Fragments.MAX_COMPRESSED_BYTES)
  {
    hide DifferenceLength, HeaderLength, BytesField;
    HeaderIsShort(m);
    FramingIsFour(DifferenceLength(m.difference));
  }

  /** A compressor that may add up to `overhead` bytes surely leaves an instruction
      sendable exactly when length and overhead fit into 1 MiB together. */
  lemma SurelySendableIff(m: Outgoing, overhead: nat)
    ensures
      (forall compressed: seq<Byte> ::
         |compressed| <= InstructionLength(m) + overhead ==> EncodeZlib(m, compressed) == Ok(compressed)) <==>
      InstructionLength(m) + overhead <= Fragments.MAX_COMPRESSED_BYTES
  {
    hide InstructionLength;
    if InstructionLength(m) + overhead > Fragments.MAX_COMPRESSED_BYTES {
      var worst: seq<Byte> := seq(InstructionLength(m) + overhead, _ => 0);
      assert EncodeZlib(m, worst) != Ok(worst);
    }
  }

  // ------------------------------------------------------ accepted but not sendable

  function Repeated(op: Operation, n: nat): (ops: seq<Operation>)
    ensures |ops| == n && forall i :: 0 <= i < n ==> ops[i] == op
  {
    seq(n, _ => op)
  }

  /** Only the number of bytes typed matters to a log of inputs. */
  predicate TypedEach(ops: seq<Operation>, n: nat) {
    forall i :: 0 <= i < |ops| ==> ops[i].Input? && |ops[i].bytes| == n
  }

  lemma {:induction false} TypedLength(ops: seq<Operation>, n: nat, framed: nat)
    requires TypedEach(ops, n) && framed == Framed(Framed(BytesField(n)))
    ensures DifferenceLength(ops) == |ops| * framed
  {
    hide Framed, BytesField;
    if ops != [] {
      TypedLength(ops[..|ops| - 1], n, framed);
      assert ops[|ops| - 1].Input?;
      assert |ops| * framed == (|ops| - 1) * framed + framed;
    }
  }

  lemma FullInputLength()
    ensures Framed(Framed(BytesField(65536))) == 65548
    ensures Framed(Framed(BytesField(65152))) == 65164
  {
    assert VarintLength(65536) == 3 && VarintLength(65540) == 3 && VarintLength(65544) == 3;
    assert VarintLength(65152) == 3 && VarintLength(65156) == 3 && VarintLength(65160) == 3;
  }

  function Keys(n: nat): (op: Operation)
    ensures op.Input? && |op.bytes| == n
  {
    Input(seq(n, _ => 0))
  }

  /** Thirty-one full inputs and one of 65,152 bytes are accepted into the log,
      yet no instruction can carry them: the difference is exactly 2 MiB. */
  lemma AcceptedLogMayNotFit(m: Outgoing, compressed: seq<Byte>)
    requires Encodable(m) && m.difference == Repeated(Keys(65536), 31) + [Keys(65152)]
    ensures Encode(m.difference).Ok? && DifferenceLength(m.difference) == MAX_DIFFERENCE_BYTES
    ensures EncodeZlib(m, compressed) == Err(DecodedTooLarge)
  {
    hide Framed, BytesField, HeaderLength;
    var ops, full := m.difference, Repeated(Keys(65536), 31);
    FullInputLength();
    TypedLength(full, 65536, 65548);
    assert ops[..31] == full;
    NoErrorMeansAllFit(ops);
    SendableIff(m, compressed);
  }

  // ------------------------------------------------------- what no compressor helps

  const CHUNKS: nat := 24

  /** A log of full inputs that types these bytes. */
  function Typed(bytes: seq<Byte>): (ops: seq<Operation>)
    requires |bytes| == CHUNKS * MAX_INPUT_BYTES
    ensures |ops| == CHUNKS && TypedEach(ops, MAX_INPUT_BYTES)
  {
    seq(CHUNKS, i requires 0 <= i < CHUNKS => Input(bytes[MAX_INPUT_BYTES * i..MAX_INPUT_BYTES * (i + 1)]))
  }

  lemma TypedIsInjective(a: seq<Byte>, b: seq<Byte>)
    requires |a| == |b| == CHUNKS * MAX_INPUT_BYTES && Typed(a) == Typed(b)
    ensures a == b
  {
    forall j | 0 <= j < |a| ensures a[j] == b[j] {
      var i := j / MAX_INPUT_BYTES;
      assert Typed(a)[i].bytes[j - MAX_INPUT_BYTES * i] == Typed(b)[i].bytes[j - MAX_INPUT_BYTES * i];
    }
  }

  lemma TypedIsAccepted(m: Outgoing, bytes: seq<Byte>)
    requires Encodable(m) && |bytes| == CHUNKS * MAX_INPUT_BYTES && m.difference == Typed(bytes)
    ensures Encode(m.difference).Ok? && InstructionLength(m) <= MAX_INSTRUCTION_BYTES
  {
    hide Framed, BytesField, HeaderLength, DifferenceLength;
    FullInputLength();
    TypedLength(m.difference, MAX_INPUT_BYTES, 65548);
    NoErrorMeansAllFit(m.difference);
    HeaderIsShort(m);
    FramingIsFour(DifferenceLength(m.difference));
  }

  /** More numbers than pigeonholes: two of them share one. */
  lemma {:induction false} Pigeonhole(f: nat -> nat, pigeons: nat, holes: nat) returns (i: nat, j: nat)
    requires holes < pigeons && forall k :: 0 <= k < pigeons ==> f(k) < holes
    ensures i < j < pigeons && f(i) == f(j)
    decreases holes
  {
    var last := pigeons - 1;
    if k :| 0 <= k < last && f(k) == f(last) {
      return k, last;
    }
    // Nothing shares the last one's hole: close it by moving the highest hole there.
    var g := (k: nat) => if f(k) == holes - 1 then f(last) else f(k);
    i, j := Pigeonhole(g, last, holes - 1);
  }

  lemma {:induction false} PowerGrows(small: nat, large: nat)
    requires small < large
    ensures 256 * Power256(small) <= Power256(large)
  {
    if small + 1 < large { PowerGrows(small, large - 1); }
  }

  /** A byte string as a number: a leading one keeps its length. */
  function Numbered(bytes: seq<Byte>): nat {
    FromBigEndian([1] + bytes)
  }

  lemma {:induction false} NumberedIs(bytes: seq<Byte>)
    ensures Numbered(bytes) == Power256(|bytes|) + FromBigEndian(bytes)
    decreases |bytes|
  {
    if bytes == [] {
      assert [1] + bytes == [1];
    } else {
      var front := bytes[..|bytes| - 1];
      NumberedIs(front);
      assert ([1] + bytes)[..|bytes|] == [1] + front;
    }
  }

  lemma NumberedIsInjective(a: seq<Byte>, b: seq<Byte>)
    requires Numbered(a) == Numbered(b)
    ensures a == b
  {
    NumberedIs(a);
    NumberedIs(b);
    WritesBack(a);
    WritesBack(b);
    if |a| < |b| { PowerGrows(|a|, |b|); }
    if |b| < |a| { PowerGrows(|b|, |a|); }
  }

  lemma NumberedBound(bytes: seq<Byte>, most: nat)
    requires |bytes| <= most
    ensures Numbered(bytes) < 2 * Power256(most)
  {
    NumberedIs(bytes);
    WritesBack(bytes);
    if |bytes| < most { PowerGrows(|bytes|, most); }
  }

  /** Which instruction was compressed can be told from the result, so that it can be
      undone. */
  ghost predicate Lossless(compress: Outgoing -> seq<Byte>) {
    forall m, k :: Encodable(m) && Encodable(k) && compress(m) == compress(k) ==> m == k
  }

  function Carrying(m: Outgoing, n: nat): Outgoing {
    m.(difference := Typed(BigEndian(n, CHUNKS * MAX_INPUT_BYTES)))
  }

  /** Whatever the compressor, some log of twenty-four full inputs is accepted and
      short enough, yet refused by the limit on its compressed form alone. */
  lemma SomeLogStaysTooLarge(m: Outgoing, compress: Outgoing -> seq<Byte>) returns (k: Outgoing)
    requires Encodable(m) && Lossless(compress)
    ensures k == m.(difference := k.difference) && Encode(k.difference).Ok?
    ensures InstructionLength(k) <= MAX_INSTRUCTION_BYTES && EncodeZlib(k, compress(k)) == Err(CompressedTooLarge)
  {
    hide Power256, BigEndian, Typed, InstructionLength, Encode, Numbered;
    var width := CHUNKS * MAX_INPUT_BYTES;
    var pigeons, holes := Power256(width), 2 * Power256(Fragments.MAX_COMPRESSED_BYTES);
    PowerGrows(Fragments.MAX_COMPRESSED_BYTES, width);
    var f := (n: nat) => Numbered(compress(Carrying(m, n)));
    if n :| 0 <= n < pigeons && |compress(Carrying(m, n))| > Fragments.MAX_COMPRESSED_BYTES {
      k := Carrying(m, n);
      TypedIsAccepted(k, BigEndian(n, width));
    } else {
      forall n | 0 <= n < pigeons ensures f(n) < holes {
        NumberedBound(compress(Carrying(m, n)), Fragments.MAX_COMPRESSED_BYTES);
      }
      var i, j := Pigeonhole(f, pigeons, holes);
      NumberedIsInjective(compress(Carrying(m, i)), compress(Carrying(m, j)));
      TypedIsInjective(BigEndian(i, width), BigEndian(j, width));
      ReadsBack(i, width);
      ReadsBack(j, width);
      assert false;
    }
  }
}
