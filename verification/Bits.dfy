/** Bit-level operations on unbounded naturals. */
module Bits {

  /** One more than the largest 64-bit value. */
  const WORD: nat := 0x1_0000_0000_0000_0000

  function Pow2(n: nat): (p: nat)
    ensures p > 0
  {
    if n == 0 then 1 else 2 * Pow2(n - 1)
  }

  function Xor(a: nat, b: nat): nat {
    if a == 0 && b == 0 then 0 else 2 * Xor(a / 2, b / 2) + if a % 2 != b % 2 then 1 else 0
  }

  lemma {:induction false} XorBound(a: nat, b: nat, n: nat)
    requires a < Pow2(n) && b < Pow2(n)
    ensures Xor(a, b) < Pow2(n)
  {
    if n > 0 {
      XorBound(a / 2, b / 2, n - 1);
    }
  }

  /** Equal results with one operand in common come from equal operands. */
  lemma {:induction false} XorCancels(a: nat, b: nat, c: nat)
    requires Xor(a, c) == Xor(b, c)
    ensures a == b
    decreases a + b + c
  {
    if a + b + c > 0 {
      XorCancels(a / 2, b / 2, c / 2);
    }
  }

  // ----- Single bits ------------------------------------------------------------------------

  /** Bit k of a number: 0 or 1. */
  function Bit(x: nat, k: nat): (b: nat)
    ensures b <= 1
  {
    if k == 0 then x % 2 else Bit(x / 2, k - 1)
  }

  lemma HalfQuotient(x: nat, p: nat)
    requires p > 0
    ensures x / (2 * p) == x / 2 / p
  {
    var h := x / 2;
    var q := h / p;
    assert h == p * q + h % p;
    assert x == (2 * p) * q + (2 * (h % p) + x % 2);
    QuotientIs(x, 2 * p, q);
  }

  /** It is the last bit once k others are shifted out. */
  lemma {:induction false} BitMeans(x: nat, k: nat)
    ensures Bit(x, k) == x / Pow2(k) % 2
    decreases k
  {
    if k == 0 {
      QuotientIs(x, 1, x);
    } else {
      var j := k - 1;
      BitMeans(x / 2, j);
      HalfQuotient(x, Pow2(j));
    }
  }

  lemma {:induction false} BitOfZero(k: nat)
    ensures Bit(0, k) == 0
  {
    if k > 0 {
      BitOfZero(k - 1);
    }
  }

  /** Exclusive or works bit by bit. */
  lemma {:induction false} XorBit(a: nat, b: nat, k: nat)
    ensures Bit(Xor(a, b), k) == (Bit(a, k) + Bit(b, k)) % 2
    decreases k
  {
    var x := Xor(a, b);
    assert x / 2 == Xor(a / 2, b / 2) && x % 2 == if a % 2 != b % 2 then 1 else 0;
    if k > 0 {
      var j := k - 1;
      XorBit(a / 2, b / 2, j);
    }
  }

  /** The low n bits of a number are its own, and there are no others. */
  lemma {:induction false} LowBit(x: nat, n: nat, low: nat, k: nat)
    requires low == x % Pow2(n)
    ensures Bit(low, k) == if k < n then Bit(x, k) else 0
    decreases n
  {
    if n == 0 {
      QuotientIs(x, 1, x);
      BitOfZero(k);
    } else {
      var m := n - 1;
      HalfRemainder(x, Pow2(m));
      if k > 0 {
        var j := k - 1;
        LowBit(x / 2, m, low / 2, j);
      }
    }
  }

  lemma HalfRemainder(x: nat, p: nat)
    requires p > 0
    ensures (x % (2 * p)) / 2 == (x / 2) % p && (x % (2 * p)) % 2 == x % 2
  {
    var h := x / 2;
    assert h == p * (h / p) + h % p;
    assert x == (2 * p) * (h / p) + (2 * (h % p) + x % 2);
    QuotientIs(x, 2 * p, h / p);
  }

  /** What is above the low n bits. */
  lemma {:induction false} HighBit(x: nat, n: nat, q: nat, k: nat)
    requires q == x / Pow2(n)
    ensures Bit(q, k) == Bit(x, n + k)
    decreases n
  {
    if n == 0 {
      QuotientIs(x, 1, x);
    } else {
      var m := n - 1;
      HalfQuotient(x, Pow2(m));
      HighBit(x / 2, m, q, k);
    }
  }

  lemma {:induction false} PowSum(a: nat, b: nat)
    ensures Pow2(a + b) == Pow2(a) * Pow2(b)
  {
    if a > 0 {
      PowSum(a - 1, b);
    }
  }

  lemma Pow64()
    ensures Pow2(64) == WORD
  {
    assert Pow2(16) == 65536 by { assert Pow2(8) == 256; PowSum(8, 8); }
    PowSum(16, 16);
    PowSum(32, 32);
  }

  lemma Grows(p: nat, d: int)
    requires d >= 1
    ensures p * d >= p
  {}

  /** The quotient and remainder of a value between two multiples. */
  lemma QuotientIs(x: nat, p: nat, q: nat)
    requires p > 0 && p * q <= x < p * q + p
    ensures x / p == q && x % p == x - p * q
  {
    var d := x / p - q;
    assert x == p * (x / p) + x % p && p * d == p * (x / p) - p * q;
    assert p * -d == -(p * d);
    if d >= 1 { Grows(p, d); }
    if d <= -1 { Grows(p, -d); }
  }

  /** Number of bits needed to write x. */
  function NumBits(x: nat): nat {
    if x == 0 then 0 else 1 + NumBits(x / 2)
  }

  lemma {:induction false} NumBitsBound(x: nat, n: nat)
    ensures NumBits(x) <= n <==> x < Pow2(n)
  {
    if n > 0 && x > 0 {
      NumBitsBound(x / 2, n - 1);
    }
  }

  /** Subtraction and addition of unsigned 64-bit values. */
  function Sub64(a: nat, b: nat): (d: nat)
    requires a < WORD && b < WORD
    ensures d < WORD
  {
    if b <= a then a - b else a + WORD - b
  }

  function Add64(a: nat, b: nat): (s: nat)
    requires a < WORD && b < WORD
    ensures s < WORD
  {
    if a + b < WORD then a + b else a + b - WORD
  }
}
