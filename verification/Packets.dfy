/** The layout of a sealed datagram (`PacketCodec` and `PacketReceiver` in
    `src/packet.rs`).  The cipher is a parameter. */
module Packets {
  import opened Wrappers
  import opened Bytes
  import opened Replay

  const PACKET_HEADER_BYTES: nat := 8
  const TAG_BYTES: nat := 16
  const MAX_DATAGRAM_BYTES: nat := 2048
  const DIRECTION_BIT: nat := 0x8000_0000_0000_0000

  datatype Direction = ClientToServer | ServerToClient

  /** Sealing gives a ciphertext and a tag; opening gives the plaintext or fails. */
  datatype Cipher = Cipher(
    seal: (seq<Byte>, seq<Byte>) -> (seq<Byte>, seq<Byte>),
    open: (seq<Byte>, seq<Byte>, seq<Byte>) -> Option<seq<Byte>>)

  /** What authenticated encryption promises: lengths, and that opening inverts. */
  ghost predicate Inverts(cipher: Cipher) {
    forall nonce, plaintext :: SealsWell(cipher, nonce, plaintext)
  }

  predicate SealsWell(cipher: Cipher, nonce: seq<Byte>, plaintext: seq<Byte>) {
    var (text, tag) := cipher.seal(nonce, plaintext);
    |text| == |plaintext| && |tag| == TAG_BYTES && cipher.open(nonce, text, tag) == Some(plaintext)
  }

  function HeaderValue(direction: Direction, sequence: nat): nat {
    (if direction == ServerToClient then DIRECTION_BIT else 0) + sequence
  }

  function PacketHeader(direction: Direction, sequence: nat): (bytes: seq<Byte>)
    ensures |bytes| == PACKET_HEADER_BYTES
  {
    BigEndian(HeaderValue(direction, sequence), PACKET_HEADER_BYTES)
  }

  /** Four zero bytes and the header. */
  function Nonce(header: seq<Byte>): seq<Byte> {
    [0, 0, 0, 0] + header
  }

  method NonceOf(header: seq<Byte>) returns (nonce: array<Byte>)
    requires |header| == PACKET_HEADER_BYTES
    ensures fresh(nonce) && nonce[..] == Nonce(header)
  {
    nonce := new Byte[12](_ => 0);
    for i := 0 to |header|
      invariant forall j :: 0 <= j < 12 ==> nonce[j] == if 4 <= j < 4 + i then header[j - 4] else 0
    {
      nonce[i + 4] := header[i];
    }
  }

  function Seal(cipher: Cipher, direction: Direction, sequence: nat, plaintext: seq<Byte>, capacity: nat)
    : Result<seq<Byte>, PacketError>
  {
    if sequence > MAX_SEQUENCE then Err(InvalidSequence)
    else if |plaintext| > MAX_DATAGRAM_BYTES - PACKET_HEADER_BYTES - TAG_BYTES then Err(PlaintextTooLarge)
    else if capacity < PACKET_HEADER_BYTES + TAG_BYTES + |plaintext| then Err(OutputTooSmall)
    else
      var header := PacketHeader(direction, sequence);
      var (text, tag) := cipher.seal(Nonce(header), plaintext);
      Ok(header + text + tag)
  }

  function OpenDatagram(cipher: Cipher, expected: Direction, datagram: seq<Byte>)
    : Result<(nat, seq<Byte>), PacketError>
  {
    if |datagram| > MAX_DATAGRAM_BYTES then Err(DatagramTooLarge)
    else if |datagram| < PACKET_HEADER_BYTES + TAG_BYTES then Err(DatagramTooShort)
    else
      var header := datagram[..PACKET_HEADER_BYTES];
      var value := FromBigEndian(header);
      if (value / DIRECTION_BIT % 2 == 1) != (expected == ServerToClient) then Err(WrongDirection)
      else
        var end := |datagram| - TAG_BYTES;
        match cipher.open(Nonce(header), datagram[PACKET_HEADER_BYTES..end], datagram[end..])
        case None => Err(AuthenticationFailed)
        case Some(plaintext) => Ok((value % DIRECTION_BIT, plaintext))
  }

  /** Opening first, the replay window only for what was authentic. */
  function ReceivePacket(w: Window, cipher: Cipher, expected: Direction, datagram: seq<Byte>)
    : (Window, Result<seq<Byte>, PacketError>)
  {
    match OpenDatagram(cipher, expected, datagram)
    case Err(e) => (w, Err(e))
    case Ok((sequence, plaintext)) =>
      var (next, verdict) := Accept(w, sequence);
      (next, match verdict case Err(e) => Err(e) case Ok(_) => Ok(plaintext))
  }

  lemma HeaderReads(direction: Direction, sequence: nat)
    requires sequence <= MAX_SEQUENCE
    ensures FromBigEndian(PacketHeader(direction, sequence)) == HeaderValue(direction, sequence)
    ensures HeaderValue(direction, sequence) % DIRECTION_BIT == sequence
    ensures HeaderValue(direction, sequence) / DIRECTION_BIT % 2 == 1 <==> direction == ServerToClient
  {
    hide FromBigEndian, BigEndian;
    assert HeaderValue(direction, sequence) < Power256(8) by { EightBytes(); }
    ReadsBack(HeaderValue(direction, sequence), 8);
  }

  lemma EightBytes()
    ensures Power256(8) == 2 * DIRECTION_BIT
  {
    assert Power256(2) == 0x1_0000 by { assert Power256(1) == 256; }
    assert Power256(4) == 0x1_0000_0000 by { assert Power256(3) == 256 * Power256(2); }
    assert Power256(6) == 0x1_0000_0000_0000 by { assert Power256(5) == 256 * Power256(4); }
    assert Power256(7) == 256 * Power256(6);
  }

  /** Exactly what is sealed, and which refusal comes first. */
  lemma SealIff(cipher: Cipher, direction: Direction, sequence: nat, plaintext: seq<Byte>, capacity: nat)
    ensures
      var r := Seal(cipher, direction, sequence, plaintext, capacity);
      && (r.Ok? <==>
            sequence < DIRECTION_BIT && |plaintext| + 24 <= MAX_DATAGRAM_BYTES && |plaintext| + 24 <= capacity)
      && (sequence >= DIRECTION_BIT ==> r == Err(InvalidSequence))
      && (sequence < DIRECTION_BIT && |plaintext| + 24 > MAX_DATAGRAM_BYTES ==> r == Err(PlaintextTooLarge))
      && (sequence < DIRECTION_BIT && capacity < |plaintext| + 24 <= MAX_DATAGRAM_BYTES ==> r == Err(OutputTooSmall))
  {
    hide PacketHeader;
  }

  /** A sealed datagram opens to its sequence and plaintext in its own direction
      and is turned away in the other. */
  lemma SealedOpens(cipher: Cipher, direction: Direction, sequence: nat, plaintext: seq<Byte>, capacity: nat,
                    expected: Direction)
    requires Inverts(cipher) && Seal(cipher, direction, sequence, plaintext, capacity).Ok?
    ensures OpenDatagram(cipher, expected, Seal(cipher, direction, sequence, plaintext, capacity).value) ==
      if expected == direction then Ok((sequence, plaintext)) else Err(WrongDirection)
  {
    hide PacketHeader, FromBigEndian;
    var header := PacketHeader(direction, sequence);
    assert SealsWell(cipher, Nonce(header), plaintext);
    var (text, tag) := cipher.seal(Nonce(header), plaintext);
    var datagram := header + text + tag;
    HeaderReads(direction, sequence);
    assert datagram[..PACKET_HEADER_BYTES] == header;
    assert datagram[PACKET_HEADER_BYTES..|datagram| - TAG_BYTES] == text;
    assert datagram[|datagram| - TAG_BYTES..] == tag;
  }

  /** No two packets of a session, whatever their directions, share a nonce. */
  lemma NoncesDiffer(d: Direction, m: nat, e: Direction, n: nat)
    requires m <= MAX_SEQUENCE && n <= MAX_SEQUENCE
    ensures Nonce(PacketHeader(d, m)) == Nonce(PacketHeader(e, n)) <==> d == e && m == n
  {
    hide PacketHeader;
    HeaderReads(d, m);
    HeaderReads(e, n);
    var a, b := PacketHeader(d, m), PacketHeader(e, n);
    assert Nonce(a)[4..] == a && Nonce(b)[4..] == b;
  }

  /** The window after any datagrams, forged ones included. */
  function ReceiveAll(w: Window, cipher: Cipher, expected: Direction, datagrams: seq<seq<Byte>>): Window
    decreases |datagrams|
  {
    if datagrams == [] then w
    else ReceiveAll(ReceivePacket(w, cipher, expected, datagrams[0]).0, cipher, expected, datagrams[1..])
  }

  /** What was accepted stays accepted. */
  lemma {:induction false} ReceivingOnlyAdds(w: Window, accepted: set<nat>, cipher: Cipher, expected: Direction,
                                             datagrams: seq<seq<Byte>>)
    returns (later: set<nat>)
    requires Agrees(w, accepted)
    ensures accepted <= later && Agrees(ReceiveAll(w, cipher, expected, datagrams), later)
    decreases |datagrams|
  {
    hide Agrees, Accept, OpenDatagram;
    later := accepted;
    if datagrams != [] {
      var now, read := accepted, OpenDatagram(cipher, expected, datagrams[0]);
      if read.Ok? {
        AcceptRefinesSet(w, accepted, read.value.0);
        if Accept(w, read.value.0).1.Ok? { now := accepted + {read.value.0}; }
      }
      later := ReceivingOnlyAdds(ReceivePacket(w, cipher, expected, datagrams[0]).0, now, cipher, expected,
                                 datagrams[1..]);
    }
  }

  /** A sequence that was accepted, or is too old, is refused. */
  predicate Spent(accepted: set<nat>, sequence: nat) {
    sequence in accepted || exists n :: n in accepted && sequence + WINDOW <= n
  }

  lemma SpentIsRefused(w: Window, accepted: set<nat>, sequence: nat)
    requires Agrees(w, accepted) && Spent(accepted, sequence)
    ensures Accept(w, sequence).1.Err?
  {
    hide Accept;
    AcceptRefinesSet(w, accepted, sequence);
  }

  lemma OnceIsSpent(w: Window, accepted: set<nat>, sequence: nat)
    returns (now: set<nat>)
    requires Agrees(w, accepted)
    ensures Agrees(Accept(w, sequence).0, now) && Spent(now, sequence)
  {
    hide Accept;
    AcceptRefinesSet(w, accepted, sequence);
    now := if Accept(w, sequence).1.Ok? then accepted + {sequence} else accepted;
  }

  /** The first copy of a sealed packet delivers its plaintext exactly when it is new
      to the window, and every later copy is refused, whatever arrives in between. */
  lemma DeliveredOnce(w: Window, accepted: set<nat>, cipher: Cipher, direction: Direction, sequence: nat,
                      plaintext: seq<Byte>, capacity: nat, between: seq<seq<Byte>>)
    requires Inverts(cipher) && Seal(cipher, direction, sequence, plaintext, capacity).Ok? && Agrees(w, accepted)
    ensures
      var datagram := Seal(cipher, direction, sequence, plaintext, capacity).value;
      var (next, first) := ReceivePacket(w, cipher, direction, datagram);
      && (first == Ok(plaintext) <==> Verdict(w.highest, accepted, sequence).Ok?)
      && ReceivePacket(ReceiveAll(next, cipher, direction, between), cipher, direction, datagram).1.Err?
  {
    hide Accept, Seal, OpenDatagram, Inverts, Agrees, ReceiveAll;
    SealedOpens(cipher, direction, sequence, plaintext, capacity, direction);
    AcceptRefinesSet(w, accepted, sequence);
    var now := OnceIsSpent(w, accepted, sequence);
    var next := Accept(w, sequence).0;
    var later := ReceivingOnlyAdds(next, now, cipher, direction, between);
    SpentIsRefused(ReceiveAll(next, cipher, direction, between), later, sequence);
  }
}
