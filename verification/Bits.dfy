/** The binary digits of a 64-bit word held as a number, with the word operations
    written out on them. */
module Bits {
  const WORD: nat := 0x1_0000_0000_0000_0000

  function Power2(k: nat): (p: nat)
    ensures p >= 1
  {
    if k == 0 then 1 else 2 * Power2(k - 1)
  }

  /** Digit `d`: the test `x & (1 << d) != 0`. */
  predicate Bit(x: nat, d: nat) {
    if d == 0 then x % 2 == 1 else Bit(x / 2, d - 1)
  }

  /** The word `x | (1 << d)`. */
  function WithBit(x: nat, d: nat): nat {
    if d == 0 then (if x % 2 == 1 then x else x + 1) else 2 * WithBit(x / 2, d - 1) + x % 2
  }

  /** The word `x << s`: digits leaving at the top are lost. */
  function ShiftLeft(x: nat, s: nat): nat {
    if s == 0 then x else 2 * ShiftLeft(x, s - 1) % WORD
  }

  lemma {:induction false} WithBitSets(x: nat, d: nat, e: nat)
    ensures Bit(WithBit(x, d), e) <==> e == d || Bit(x, e)
    decreases d
  {
    if d > 0 {
      var half := WithBit(x / 2, d - 1);
      assert WithBit(x, d) / 2 == half;
      if e > 0 { WithBitSets(x / 2, d - 1, e - 1); }
    } else if e > 0 {
      assert WithBit(x, 0) / 2 == x / 2;
    }
  }

  lemma HalfOfRemainder(x: nat, p: nat)
    requires p >= 1
    ensures x % (2 * p) / 2 == x / 2 % p && x % (2 * p) % 2 == x % 2
  {
    var q, r := x / (2 * p), x % (2 * p);
    assert x == 2 * (q * p) + r;
    assert x / 2 == q * p + r / 2 && x % 2 == r % 2;
    Remainder(q, p, r / 2);
  }

  lemma Remainder(q: nat, p: nat, r: nat)
    requires r < p
    ensures (q * p + r) % p == r
  {
    var n := q * p + r;
    assert n == n / p * p + n % p;
    var d := q - n / p;
    assert d * p == n % p - r;
    if d != 0 {
      NonzeroMultiple(d, p);
      assert false;
    }
  }

  lemma NonzeroMultiple(d: int, p: nat)
    requires d != 0
    ensures d * p >= p || d * p <= -(p as int)
  {
    if d > 0 {
      Product(d - 1, p);
      assert d * p == p + (d - 1) * p;
    } else {
      Product(-d - 1, p);
      assert d * p == -(p as int) - (-d - 1) * p;
    }
  }

  lemma Product(a: nat, b: nat)
    ensures a * b >= 0
  {
  }

  /** Dropping high digits leaves the low ones. */
  lemma {:induction false} LowDigits(x: nat, k: nat, d: nat)
    requires d < k
    ensures Bit(x % Power2(k), d) <==> Bit(x, d)
    decreases d
  {
    HalfOfRemainder(x, Power2(k - 1));
    if d > 0 { LowDigits(x / 2, k - 1, d - 1); }
  }

  lemma WordIsPower()
    ensures Power2(64) == WORD && 2 * Power2(63) == WORD
  {
    assert Power2(1) == 2 by { assert Power2(0) == 1; }
    PowerSquares(1, 2);
    PowerSquares(2, 4);
    PowerSquares(4, 16);
    PowerSquares(8, 256);
    PowerSquares(16, 0x1_0000);
    PowerSquares(32, 0x1_0000_0000);
    assert Power2(64) == 2 * Power2(63);
  }

  lemma PowerSquares(a: nat, p: nat)
    requires Power2(a) == p
    ensures Power2(2 * a) == p * p
  {
    hide Power2;
    PowerSplits(a, a);
  }

  lemma {:induction false} PowerSplits(a: nat, b: nat)
    ensures Power2(a + b) == Power2(a) * Power2(b)
  {
    if b > 0 {
      PowerSplits(a, b - 1);
      assert Power2(a + b) == 2 * Power2(a + (b - 1));
    }
  }

  lemma OneShift(x: nat, d: nat)
    requires d < 64
    ensures Bit(2 * x % WORD, d) <==> d >= 1 && Bit(x, d - 1)
  {
    WordIsPower();
    HalfOfRemainder(2 * x, Power2(63));
    if d >= 1 { LowDigits(x, 63, d - 1); }
  }

  /** Shifting moves every digit up and fills with zeros. */
  lemma {:induction false} ShiftMovesDigits(x: nat, s: nat, d: nat)
    requires d < 64
    ensures Bit(ShiftLeft(x, s), d) <==> d >= s && Bit(x, d - s)
    decreases s
  {
    hide Bit;
    if s > 0 {
      OneShift(ShiftLeft(x, s - 1), d);
      if d >= 1 { ShiftMovesDigits(x, s - 1, d - 1); }
    }
  }
}
