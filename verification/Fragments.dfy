/** Fragment headers and the splitting of an instruction
    (`encode` and `decode` in `src/fragment.rs`, the chunking loop of
    `send_transport_instruction` in `src/session/driver.rs`). */
module Fragments {
  import opened Wrappers
  import opened Bytes

  const HEADER_BYTES: nat := 14
  const MAX_BODY_BYTES: nat := 1400
  const MAX_FRAGMENTS: nat := 749
  const MAX_COMPRESSED_BYTES: nat := 1024 * 1024
  const FINAL_BIT: nat := 0x8000
  const NO_REPLY: nat := 0xFFFF
  const LIFETIME_MS: nat := 10_000

  datatype FragmentError = TooShort | BodyTooLarge | FragmentNumberOutOfRange | OutputTooSmall

  datatype Fragment = Fragment(
    timestamp: nat, reply: Option<nat>, identifier: nat, number: nat, isFinal: bool, body: seq<Byte>)

  /** The ranges of the fields: 16-bit times, a 64-bit identifier, a 15-bit number. */
  predicate InRange(f: Fragment) {
    && f.timestamp <= 0xFFFF && (f.reply.Some? ==> f.reply.value <= 0xFFFF)
    && f.identifier < Power256(8)
    && f.number < FINAL_BIT && |f.body| <= MAX_BODY_BYTES
  }

  function Header(f: Fragment): (bytes: seq<Byte>)
    ensures |bytes| == HEADER_BYTES
  {
    BigEndian(f.timestamp, 2) + BigEndian(if f.reply.Some? then f.reply.value else NO_REPLY, 2)
    + BigEndian(f.identifier, 8) + BigEndian(f.number + if f.isFinal then FINAL_BIT else 0, 2)
  }

  function Encode(f: Fragment, capacity: nat): Result<seq<Byte>, FragmentError> {
    if f.number >= FINAL_BIT then Err(FragmentNumberOutOfRange)
    else if |f.body| > MAX_BODY_BYTES then Err(BodyTooLarge)
    else if capacity < HEADER_BYTES + |f.body| then Err(OutputTooSmall)
    else Ok(Header(f) + f.body)
  }

  function Decode(plaintext: seq<Byte>): Result<Fragment, FragmentError> {
    if |plaintext| < HEADER_BYTES then Err(TooShort)
    else if |plaintext| - HEADER_BYTES > MAX_BODY_BYTES then Err(BodyTooLarge)
    else
      var reply := FromBigEndian(plaintext[2..4]);
      var word := FromBigEndian(plaintext[12..14]);
      Ok(Fragment(FromBigEndian(plaintext[..2]), if reply == NO_REPLY then None else Some(reply),
                  FromBigEndian(plaintext[4..12]), word % FINAL_BIT, word / FINAL_BIT % 2 == 1,
                  plaintext[HEADER_BYTES..]))
  }

  /** Writing a fragment into a buffer leaves the rest of the buffer alone. */
  method EncodeInto(f: Fragment, output: array<Byte>) returns (r: Result<nat, FragmentError>)
    modifies output
    ensures
      match Encode(f, output.Length)
      case Err(e) => r == Err(e) && output[..] == old(output[..])
      case Ok(bytes) => r == Ok(|bytes|) && output[..] == bytes + old(output[..])[|bytes|..]
  {
    if f.number >= FINAL_BIT {
      return Err(FragmentNumberOutOfRange);
    }
    if |f.body| > MAX_BODY_BYTES {
      return Err(BodyTooLarge);
    }
    hide BigEndian;
    var length := HEADER_BYTES + |f.body|;
    if output.Length < length {
      return Err(OutputTooSmall);
    }
    var word := f.number + if f.isFinal then FINAL_BIT else 0;
    var reply := if f.reply.Some? then f.reply.value else NO_REPLY;
    WriteHeader(f.timestamp, reply, f.identifier, word, output);
    assert output[..HEADER_BYTES] == Header(f);
    CopyInto(f.body, output, HEADER_BYTES);
    assert output[length..] == old(output[..])[length..] by { Suffixes(old(output[..]), HEADER_BYTES, |f.body|); }
    assert output[..] == output[..length] + output[length..];
    return Ok(length);
  }

  lemma Suffixes(bytes: seq<Byte>, at: nat, n: nat)
    requires at + n <= |bytes|
    ensures bytes[at..][n..] == bytes[at + n..]
  {
  }

  method WriteHeader(timestamp: nat, reply: nat, identifier: nat, word: nat, output: array<Byte>)
    requires HEADER_BYTES <= output.Length
    modifies output
    ensures output[..HEADER_BYTES] ==
      BigEndian(timestamp, 2) + BigEndian(reply, 2) + BigEndian(identifier, 8) + BigEndian(word, 2)
    ensures output[HEADER_BYTES..] == old(output[HEADER_BYTES..])
  {
    hide BigEndian;
    ghost var was := output[..];
    CopyInto(BigEndian(timestamp, 2), output, 0);
    CopyInto(BigEndian(reply, 2), output, 2);
    Suffixes(was, 2, 2);
    CopyInto(BigEndian(identifier, 8), output, 4);
    Suffixes(was, 4, 8);
    CopyInto(BigEndian(word, 2), output, 12);
    Suffixes(was, 12, 2);
  }

  method CopyInto(bytes: seq<Byte>, output: array<Byte>, at: nat)
    requires at + |bytes| <= output.Length
    modifies output
    ensures output[..at + |bytes|] == old(output[..at]) + bytes
    ensures output[at + |bytes|..] == old(output[at + |bytes|..])
  {
    for i := 0 to |bytes|
      invariant forall j :: 0 <= j < output.Length ==>
        output[j] == if at <= j < at + i then bytes[j - at] else old(output[j])
    {
      output[at + i] := bytes[i];
    }
  }

  // ----------------------------------------------------------------- round trip

  lemma PowersAre()
    ensures Power256(2) == 0x1_0000
  {
    assert Power256(0) == 1 && Power256(1) == 256;
  }

  lemma HeaderSlices(f: Fragment)
    ensures
      var p := Header(f) + f.body;
      && p[..2] == BigEndian(f.timestamp, 2)
      && p[2..4] == BigEndian(if f.reply.Some? then f.reply.value else NO_REPLY, 2)
      && p[4..12] == BigEndian(f.identifier, 8)
      && p[12..14] == BigEndian(f.number + if f.isFinal then FINAL_BIT else 0, 2)
      && p[HEADER_BYTES..] == f.body
  {
    hide BigEndian;
  }

  /** Decoding inverts encoding exactly when the reply is not the value reserved
      for "no reply". */
  lemma DecodeInvertsEncode(f: Fragment, capacity: nat)
    requires InRange(f) && HEADER_BYTES + |f.body| <= capacity
    ensures Encode(f, capacity).Ok?
    ensures Decode(Encode(f, capacity).value) == Ok(f) <==> f.reply != Some(NO_REPLY)
  {
    hide BigEndian, FromBigEndian, Power256, Header;
    HeaderSlices(f);
    PowersAre();
    ReadsBack(f.timestamp, 2);
    ReadsBack(if f.reply.Some? then f.reply.value else NO_REPLY, 2);
    ReadsBack(f.identifier, 8);
    ReadsBack(f.number + if f.isFinal then FINAL_BIT else 0, 2);
  }

  /** Every plaintext that decodes is the encoding of what it decodes to. */
  lemma EncodeInvertsDecode(plaintext: seq<Byte>)
    requires Decode(plaintext).Ok?
    ensures
      var f := Decode(plaintext).value;
      InRange(f) && f.reply != Some(NO_REPLY) && Encode(f, |plaintext|) == Ok(plaintext)
  {
    hide BigEndian, FromBigEndian, Power256;
    PowersAre();
    WritesBack(plaintext[..2]);
    WritesBack(plaintext[2..4]);
    WritesBack(plaintext[4..12]);
    WritesBack(plaintext[12..14]);
    var word := FromBigEndian(plaintext[12..14]);
    assert word == word % FINAL_BIT + if word / FINAL_BIT % 2 == 1 then FINAL_BIT else 0;
    assert plaintext == plaintext[..2] + plaintext[2..4] + plaintext[4..12] + plaintext[12..14]
      + plaintext[HEADER_BYTES..];
  }

  /** The most significant byte comes first. */
  lemma PairSays(n: nat)
    requires n <= 0xFFFF
    ensures BigEndian(n, 2) == [(n / 256) as Byte, (n % 256) as Byte]
    ensures FromBigEndian(BigEndian(n, 2)) == n
  {
    assert BigEndian(n / 256, 1) == BigEndian(n / 256 / 256, 0) + [(n / 256) as Byte];
    assert BigEndian(n, 2) == BigEndian(n / 256, 1) + [(n % 256) as Byte];
    PowersAre();
    ReadsBack(n, 2);
  }

  /** Byte by byte: two of timestamp, two of reply, eight of identifier, two of number with
      the end marked in the top bit, and the body. */
  lemma LayoutSays(f: Fragment, capacity: nat)
    requires InRange(f)
    ensures Encode(f, capacity).Ok? <==> 14 + |f.body| <= capacity
    ensures Encode(f, capacity).Ok? ==>
      var p := Encode(f, capacity).value;
      && |p| == 14 + |f.body| && p[14..] == f.body
      && p[0] as nat == f.timestamp / 256 && p[1] as nat == f.timestamp % 256
      && p[2] as nat * 256 + p[3] as nat == (if f.reply.Some? then f.reply.value else 0xFFFF)
      && FromBigEndian(p[4..12]) == f.identifier
      && p[12] as nat % 128 * 256 + p[13] as nat == f.number && (p[12] >= 128 <==> f.isFinal)
  {
    hide BigEndian, FromBigEndian, Power256, Header;
    if Encode(f, capacity).Ok? {
      var p := Encode(f, capacity).value;
      HeaderSlices(f);
      PairSays(f.timestamp);
      PairSays(if f.reply.Some? then f.reply.value else NO_REPLY);
      PairSays(f.number + if f.isFinal then FINAL_BIT else 0);
      ReadsBack(f.identifier, 8);
      assert p[0] == p[..2][0] && p[1] == p[..2][1] && p[2] == p[2..4][0] && p[3] == p[2..4][1];
      assert p[12] == p[12..14][0] && p[13] == p[12..14][1];
    }
  }

  /** What is refused, and for what. */
  lemma RefusalsSay(f: Fragment, capacity: nat, plaintext: seq<Byte>)
    ensures Encode(f, capacity) == Err(FragmentNumberOutOfRange) <==> f.number >= 0x8000
    ensures Encode(f, capacity) == Err(BodyTooLarge) <==> f.number < 0x8000 && |f.body| > 1_400
    ensures Encode(f, capacity) == Err(OutputTooSmall) <==>
      f.number < 0x8000 && |f.body| <= 1_400 && capacity < 14 + |f.body|
    ensures Decode(plaintext) == Err(TooShort) <==> |plaintext| < 14
    ensures Decode(plaintext) == Err(BodyTooLarge) <==> |plaintext| > 1_414
    ensures Decode(plaintext).Ok? <==> 14 <= |plaintext| <= 1_414
  {
    hide FromBigEndian, Header;
  }

  // ------------------------------------------------------------------ splitting

  /** How many pieces of at most 1,400 bytes. */
  function Count(payload: seq<Byte>): nat {
    (|payload| + MAX_BODY_BYTES - 1) / MAX_BODY_BYTES
  }

  function ChunkStart(payload: seq<Byte>, i: nat): nat {
    if MAX_BODY_BYTES * i <= |payload| then MAX_BODY_BYTES * i else |payload|
  }

  function Chunk(payload: seq<Byte>, i: nat): (body: seq<Byte>)
    ensures |body| <= MAX_BODY_BYTES
  {
    payload[ChunkStart(payload, i)..ChunkStart(payload, i + 1)]
  }

  /** The fragment number `i` of a message. */
  function Piece(payload: seq<Byte>, identifier: nat, timestamp: nat, reply: Option<nat>, i: nat): Fragment {
    Fragment(timestamp, reply, identifier, i, i + 1 == Count(payload), Chunk(payload, i))
  }

  /** The sending loop: one fragment per chunk, the last one marked. */
  method Split(payload: seq<Byte>, identifier: nat, timestamp: nat, reply: Option<nat>) returns (pieces: seq<Fragment>)
    ensures |pieces| == Count(payload)
    ensures forall i :: 0 <= i < |pieces| ==> pieces[i] == Piece(payload, identifier, timestamp, reply, i)
  {
    pieces := [];
    var rest, number := payload, 0;
    while rest != []
      invariant number == |pieces| <= Count(payload) && ChunkStart(payload, number) <= |payload|
      invariant rest == payload[ChunkStart(payload, number)..]
      invariant rest != [] ==> number < Count(payload)
      invariant rest == [] ==> number == Count(payload)
      invariant forall i :: 0 <= i < |pieces| ==> pieces[i] == Piece(payload, identifier, timestamp, reply, i)
      decreases |rest|
    {
      var size := if |rest| < MAX_BODY_BYTES then |rest| else MAX_BODY_BYTES;
      assert rest[..size] == Chunk(payload, number);
      pieces := pieces + [Fragment(timestamp, reply, identifier, number, number + 1 == Count(payload), rest[..size])];
      rest, number := rest[size..], number + 1;
    }
  }

  function Joined(payload: seq<Byte>, n: nat): seq<Byte> {
    if n == 0 then [] else Joined(payload, n - 1) + Chunk(payload, n - 1)
  }

  lemma {:induction false} JoinedIsPrefix(payload: seq<Byte>, n: nat)
    ensures Joined(payload, n) == payload[..ChunkStart(payload, n)]
  {
    if n > 0 {
      JoinedIsPrefix(payload, n - 1);
      assert payload[..ChunkStart(payload, n - 1)] + Chunk(payload, n - 1) == payload[..ChunkStart(payload, n)];
    }
  }

  /** The chunks make up the payload; an allowed payload has at most 749. */
  lemma ChunksCover(payload: seq<Byte>)
    ensures Joined(payload, Count(payload)) == payload
    ensures |payload| <= MAX_COMPRESSED_BYTES ==> Count(payload) <= MAX_FRAGMENTS
    ensures Count(payload) == 0 <==> payload == []
  {
    JoinedIsPrefix(payload, Count(payload));
    assert MAX_BODY_BYTES * Count(payload) >= |payload|;
  }
}
