/** The 32-byte cell (`src/vt100/cell.rs`): UTF-8 in a fixed buffer of 22 bytes and
    one byte packing its length with the two width flags, proved to be the cell
    the screen model speaks of. */
module PackedCells {
  import opened Bytes
  import opened Attributes
  import opened Cells

  const LENGTHS: nat := 32
  const IS_CONTINUATION: nat := 64
  const IS_WIDE: nat := 128

  // ---------------------------------------------------------------------- UTF-8

  predicate IsScalar(c: Scalar) {
    c.code < 0x11_0000
  }

  function Tail(n: nat): Byte {
    (0x80 + n % 64) as Byte
  }

  function Utf8(c: Scalar): (bytes: seq<Byte>)
    requires IsScalar(c)
    ensures |bytes| == Utf8Length(c)
  {
    if c.code < 0x80 then [c.code as Byte]
    else if c.code < 0x800 then [(0xC0 + c.code / 64) as Byte, Tail(c.code)]
    else if c.code < 0x1_0000 then [(0xE0 + c.code / 4096) as Byte, Tail(c.code / 64), Tail(c.code)]
    else [(0xF0 + c.code / 262144) as Byte, Tail(c.code / 4096), Tail(c.code / 64), Tail(c.code)]
  }

  predicate AreScalars(contents: seq<Scalar>) {
    forall i :: 0 <= i < |contents| ==> IsScalar(contents[i])
  }

  function Encoded(contents: seq<Scalar>): (bytes: seq<Byte>)
    requires AreScalars(contents)
    ensures |bytes| == ByteLength(contents)
  {
    if contents == [] then [] else Encoded(contents[..|contents| - 1]) + Utf8(contents[|contents| - 1])
  }

  /** The code of the first scalar, read from its bytes. */
  function FirstCode(bytes: seq<Byte>): nat
    requires |bytes| >= 4
  {
    var a, b, c, d := bytes[0] as nat, bytes[1] as nat, bytes[2] as nat, bytes[3] as nat;
    if a < 0x80 then a
    else if a < 0xE0 then (a % 32) * 64 + b % 64
    else if a < 0xF0 then (a % 16) * 4096 + (b % 64) * 64 + c % 64
    else (a % 8) * 262144 + (b % 64) * 4096 + (c % 64) * 64 + d % 64
  }

  const PADDING: seq<Byte> := [0, 0, 0, 0]

  lemma TailReads(n: nat)
    ensures Tail(n) as nat % 64 == n % 64
  {
  }

  /** A number in base 64. */
  lemma Base64(n: nat)
    ensures n == n / 64 * 64 + n % 64
    ensures n == n / 4096 * 4096 + n / 64 % 64 * 64 + n % 64
    ensures n == n / 262144 * 262144 + n / 4096 % 64 * 4096 + n / 64 % 64 * 64 + n % 64
  {
    var a, b := n / 64, n / 4096;
    assert a / 64 == b && b / 64 == n / 262144;
    assert n == a * 64 + n % 64 && a == b * 64 + a % 64 && b == n / 262144 * 64 + b % 64;
  }

  lemma LeadReads(n: nat, lead: nat, base: nat)
    requires (base == 32 && n < 32 && lead == 0xC0 + n) || (base == 16 && n < 16 && lead == 0xE0 + n)
      || (base == 8 && n < 8 && lead == 0xF0 + n)
    ensures lead % base == n
  {
  }

  lemma FirstCodeReads(c: Scalar, rest: seq<Byte>)
    requires IsScalar(c) && |Utf8(c) + rest| >= 4
    ensures FirstCode(Utf8(c) + rest) == c.code
  {
    hide Tail;
    var n := c.code;
    Base64(n);
    TailReads(n);
    TailReads(n / 64);
    TailReads(n / 4096);
    if n < 0x80 {
    } else if n < 0x800 {
      LeadReads(n / 64, 0xC0 + n / 64, 32);
    } else if n < 0x1_0000 {
      LeadReads(n / 4096, 0xE0 + n / 4096, 16);
    } else {
      LeadReads(n / 262144, 0xF0 + n / 262144, 8);
    }
  }

  // ------------------------------------------------------------------- the cell

  class PackedCell {
    const contents: array<Byte>
    var len: nat
    var attrs: Attrs

    ghost predicate Valid()
      reads this
    {
      contents.Length == CONTENT_BYTES && len < 256 && len % LENGTHS <= CONTENT_BYTES
    }

    function Length(): nat
      reads this
    {
      len % LENGTHS
    }

    predicate Wide()
      reads this
    {
      len / IS_WIDE % 2 == 1
    }

    predicate Continuation()
      reads this
    {
      len / IS_CONTINUATION % 2 == 1
    }

    /** The buffer and its packed length byte stand for this cell; the spare bit is clear. */
    ghost predicate Represents(cell: Cell)
      reads this, contents
    {
      && Valid() && AreScalars(cell.contents) && len / 32 % 2 == 0
      && Length() == ByteLength(cell.contents) && contents[..Length()] == Encoded(cell.contents)
      && Wide() == cell.wide && Continuation() == cell.continuation && attrs == cell.attrs
    }

    constructor ()
      ensures Represents(EMPTY) && fresh(contents)
    {
      contents := new Byte[CONTENT_BYTES](_ => 0);
      len, attrs := 0, PLAIN;
    }

    /** Writing a scalar's bytes at the end; the length grows inside its five bits. */
    method AppendChar(c: Scalar)
      requires Valid() && IsScalar(c) && Length() + 4 <= CONTENT_BYTES
      modifies this`len, contents
      ensures Valid() && len == old(len) + Utf8Length(c)
      ensures contents[..Length()] == old(contents[..Length()]) + Utf8(c)
      ensures Wide() == old(Wide()) && Continuation() == old(Continuation()) && len / 32 % 2 == old(len) / 32 % 2
    {
      hide Utf8;
      var bytes, start := Utf8(c), Length();
      GrowLength(len, |bytes|);
      for i := 0 to |bytes|
        invariant len == old(len)
        invariant contents[..start] == old(contents[..start])
        invariant contents[start..start + i] == bytes[..i]
      {
        contents[start + i] := bytes[i];
        assert contents[start..start + i + 1] == contents[start..start + i] + [bytes[i]];
        assert bytes[..i + 1] == bytes[..i] + [bytes[i]];
      }
      len := len + |bytes|;
      assert bytes[..|bytes|] == bytes;
      assert contents[..start + |bytes|] == contents[..start] + contents[start..start + |bytes|];
    }

    method Set(c: Scalar, a: Attrs)
      requires Valid() && IsScalar(c)
      modifies this, contents
      ensures Represents(Drawn(c, a))
    {
      len := 0;
      AppendChar(c);
      assert ByteLength([c]) == Utf8Length(c) by { SingleScalar(c); }
      SingleScalar(c);
      if c.width == Cells.Width.Wide {
        len := len + IS_WIDE;
      }
      attrs := a;
    }

    /** A mark is dropped when four more bytes might not fit. */
    method Append(ghost cell: Cell, c: Scalar)
      requires Represents(cell) && IsScalar(c)
      modifies this, contents
      ensures Represents(Cells.Append(cell, c))
    {
      hide Utf8Length, Utf8, Encoded, ByteLength;
      var n := Length();
      if n >= CONTENT_BYTES - 4 {
        return;
      }
      ghost var start := if cell.contents == [] then [SPACE] else cell.contents;
      EmptyIff(cell.contents);
      if n == 0 {
        GrowLength(len, 1);
        contents[0] := 0x20;
        len := len + 1;
        SpaceBytes();
      }
      assert Length() == ByteLength(start) && contents[..Length()] == Encoded(start) && AreScalars(start);
      AppendChar(c);
      AppendedScalar(start, c);
    }

    method Clear(a: Attrs)
      requires Valid()
      modifies this
      ensures Represents(Blank(a))
    {
      len, attrs := 0, a;
    }

    method SetContinuation(ghost cell: Cell, on: bool)
      requires Represents(cell)
      modifies this`len
      ensures Represents(cell.(continuation := on))
    {
      ToggleContinuation(len);
      if on && !Continuation() {
        len := len + IS_CONTINUATION;
      } else if !on && Continuation() {
        len := len - IS_CONTINUATION;
      }
    }

    /** Comparing length byte, attributes and the used part of the buffer. */
    method Equals(other: PackedCell) returns (same: bool)
      requires Valid() && other.Valid()
      ensures same == (len == other.len && attrs == other.attrs
                       && contents[..Length()] == other.contents[..other.Length()])
    {
      if len != other.len || attrs != other.attrs {
        return false;
      }
      for i := 0 to Length()
        invariant contents[..i] == other.contents[..i]
      {
        if contents[i] != other.contents[i] {
          assert contents[..Length()][i] != other.contents[..other.Length()][i];
          return false;
        }
      }
      return true;
    }
  }

  lemma SingleScalar(c: Scalar)
    requires IsScalar(c)
    ensures AreScalars([c]) && ByteLength([c]) == Utf8Length(c) && Encoded([c]) == Utf8(c)
  {
    assert [c][..0] == [];
  }

  lemma SpaceBytes()
    ensures AreScalars([SPACE]) && ByteLength([SPACE]) == 1 && Encoded([SPACE]) == [0x20]
  {
    SingleScalar(SPACE);
  }

  lemma AppendedScalar(contents: seq<Scalar>, c: Scalar)
    requires AreScalars(contents) && IsScalar(c)
    ensures AreScalars(contents + [c])
    ensures ByteLength(contents + [c]) == ByteLength(contents) + Utf8Length(c)
    ensures Encoded(contents + [c]) == Encoded(contents) + Utf8(c)
  {
    assert (contents + [c])[..|contents|] == contents;
  }

  lemma EmptyIff(contents: seq<Scalar>)
    ensures ByteLength(contents) == 0 <==> contents == []
  {
  }

  // ------------------------------------------------------------------- equality

  /** The width of a scalar comes from a table of codes. */
  predicate SameTable(a: seq<Scalar>, b: seq<Scalar>) {
    forall i, j :: 0 <= i < |a| && 0 <= j < |b| && a[i].code == b[j].code ==> a[i] == b[j]
  }

  lemma {:induction false} EncodedFirst(contents: seq<Scalar>)
    requires AreScalars(contents) && contents != []
    ensures AreScalars(contents[1..])
    ensures Encoded(contents) == Utf8(contents[0]) + Encoded(contents[1..])
    decreases |contents|
  {
    hide Utf8, Encoded, ByteLength;
    if |contents| == 1 {
      SingleScalar(contents[0]);
      assert contents == [contents[0]];
      assert contents[1..] == [];
      NothingEncoded();
    } else {
      var front, last := contents[..|contents| - 1], contents[|contents| - 1];
      EncodedFirst(front);
      assert front[1..] + [last] == contents[1..];
      AppendedScalar(front[1..], last);
      assert front + [last] == contents;
      AppendedScalar(front, last);
      Associates(Utf8(contents[0]), Encoded(front[1..]), Utf8(last));
    }
  }

  lemma NothingEncoded()
    ensures AreScalars([]) && Encoded([]) == []
  {
  }

  lemma Associates(a: seq<Byte>, b: seq<Byte>, c: seq<Byte>)
    ensures (a + b) + c == a + (b + c)
  {
  }

  /** UTF-8 text is read back in only one way. */
  lemma {:induction false} EncodingIsInjective(a: seq<Scalar>, b: seq<Scalar>)
    requires AreScalars(a) && AreScalars(b) && SameTable(a, b) && Encoded(a) == Encoded(b)
    ensures a == b
    decreases |a|
  {
    hide Utf8, Encoded, FirstCode;
    EmptyIff(a);
    EmptyIff(b);
    if a != [] && b != [] {
      EncodedFirst(a);
      EncodedFirst(b);
      var restA, restB := Encoded(a[1..]), Encoded(b[1..]);
      assert Utf8(a[0]) + (restA + PADDING) == Encoded(a) + PADDING == Utf8(b[0]) + (restB + PADDING);
      FirstCodeReads(a[0], restA + PADDING);
      FirstCodeReads(b[0], restB + PADDING);
      assert a[0] == b[0];
      var n := |Utf8(a[0])|;
      assert Encoded(a)[n..] == restA && Encoded(b)[n..] == restB;
      EncodingIsInjective(a[1..], b[1..]);
    }
  }

  /** Comparing packed cells compares the cells they stand for. */
  lemma PackedEquality(p: PackedCell, q: PackedCell, a: Cell, b: Cell)
    requires p.Represents(a) && q.Represents(b) && SameTable(a.contents, b.contents)
    ensures a == b <==>
      p.len == q.len && p.attrs == q.attrs && p.contents[..p.Length()] == q.contents[..q.Length()]
  {
    hide Encoded, ByteLength;
    if p.len == q.len && p.attrs == q.attrs && p.contents[..p.Length()] == q.contents[..q.Length()] {
      EncodingIsInjective(a.contents, b.contents);
    }
    if a == b { PackedByte(p.len, q.len); }
  }

  /** Growing the length within its five bits leaves the flags alone. */
  lemma GrowLength(m: nat, n: nat)
    requires m < 256 && m % 32 + n < 32
    ensures m + n < 256 && (m + n) % 32 == m % 32 + n && (m + n) / 32 == m / 32
    ensures (m + n) / 64 == m / 64 && (m + n) / 128 == m / 128
  {
    var q := m / 32;
    assert m == 32 * q + m % 32;
    assert m / 64 == q / 2 && m / 128 == q / 4;
    assert (m + n) / 64 == (m + n) / 32 / 2 && (m + n) / 128 == (m + n) / 32 / 4;
  }

  /** Setting or clearing the continuation bit leaves everything else alone. */
  lemma ToggleContinuation(m: nat)
    requires m < 256
    ensures m / 64 % 2 == 0 ==> m + 64 < 256 && SameBut64(m, m + 64)
    ensures m / 64 % 2 == 1 ==> m >= 64 && SameBut64(m - 64, m)
  {
    var q, r := m / 64, m % 64;
    assert m == 64 * q + r && 0 <= q < 4;
    if q == 0 {
      Around64(r, 0);
    } else if q == 1 {
      Around64(r, 0);
    } else if q == 2 {
      Around64(r, 1);
    } else {
      Around64(r, 1);
    }
  }

  predicate SameBut64(clear: nat, set_: nat) {
    && clear % 32 == set_ % 32 && clear / 32 % 2 == set_ / 32 % 2 && clear / 128 % 2 == set_ / 128 % 2
    && clear / 64 % 2 == 0 && set_ / 64 % 2 == 1
  }

  lemma Around64(r: nat, high: nat)
    requires r < 64 && high <= 1
    ensures SameBut64(128 * high + r, 128 * high + 64 + r)
  {
  }

  /** The byte is determined by its length, flags and clear spare bit. */
  lemma PackedByte(m: nat, n: nat)
    requires m < 256 && n < 256 && m / 32 % 2 == 0 && n / 32 % 2 == 0
    ensures m == n <==> m % 32 == n % 32 && m / 64 % 2 == n / 64 % 2 && m / 128 % 2 == n / 128 % 2
  {
    Digits(m);
    Digits(n);
  }

  lemma Digits(m: nat)
    requires m < 256
    ensures m == m % 32 + 32 * (m / 32 % 2) + 64 * (m / 64 % 2) + 128 * (m / 128 % 2)
  {
    var a, b, c := m / 32, m / 64, m / 128;
    assert m == 32 * a + m % 32 && a == 2 * b + a % 2 && b == 2 * c + b % 2 && c % 2 == c;
  }
}
