/**
 * Bit manipulation on unsigned 64-bit values, written over natural numbers one
 * binary digit at a time: `bitRead`, the `bitSetULL`/`bitClearULL` macros, and
 * the bitwise `&`, `|`, `^` operators.
 */
module Bits {

  type U64 = x: nat | x < 0x1_0000_0000_0000_0000

  function Pow2(n: nat): (r: nat)
    ensures r >= 1
  {
    if n == 0 then 1 else 2 * Pow2(n - 1)
  }

  lemma {:induction false} Pow2Add(a: nat, b: nat)
    ensures Pow2(a + b) == Pow2(a) * Pow2(b)
    decreases a
  {
    if a > 0 {
      Pow2Add(a - 1, b);
    }
  }

  lemma Pow2Of64()
    ensures Pow2(64) == 0x1_0000_0000_0000_0000
  {
    assert Pow2(2) == 4;
    Pow2Add(2, 2);
    assert Pow2(4) == 16;
    Pow2Add(4, 4);
    assert Pow2(8) == 256;
    Pow2Add(8, 8);
    assert Pow2(16) == 0x1_0000;
    Pow2Add(16, 16);
    assert Pow2(32) == 0x1_0000_0000;
    Pow2Add(32, 32);
  }

  /** Bit `i` of `v` (0 or 1). */
  function BitOf(v: nat, i: nat): (r: nat)
    ensures r <= 1
  {
    if i == 0 then v % 2 else BitOf(v / 2, i - 1)
  }

  /** `v` with bit `i` set. */
  function SetBit(v: nat, i: nat): nat
  {
    if i == 0 then v - v % 2 + 1 else 2 * SetBit(v / 2, i - 1) + v % 2
  }

  /** `v` with bit `i` cleared. */
  function ClearBit(v: nat, i: nat): nat
  {
    if i == 0 then v - v % 2 else 2 * ClearBit(v / 2, i - 1) + v % 2
  }

  lemma {:induction false} SetBitReads(v: nat, i: nat, j: nat)
    ensures BitOf(SetBit(v, i), j) == if j == i then 1 else BitOf(v, j)
    decreases i
  {
    if i > 0 {
      SetBitReads(v / 2, i - 1, if j == 0 then 0 else j - 1);
    }
  }

  lemma {:induction false} ClearBitReads(v: nat, i: nat, j: nat)
    ensures BitOf(ClearBit(v, i), j) == if j == i then 0 else BitOf(v, j)
    decreases i
  {
    if i > 0 {
      ClearBitReads(v / 2, i - 1, if j == 0 then 0 else j - 1);
    }
  }

  lemma {:induction false} SetBitBound(v: nat, i: nat, n: nat)
    requires v < Pow2(n) && i < n
    ensures SetBit(v, i) < Pow2(n)
    decreases i
  {
    var half := Pow2(n - 1);
    assert Pow2(n) == 2 * half;
    if i > 0 {
      assert v / 2 < half;
      SetBitBound(v / 2, i - 1, n - 1);
      assert SetBit(v, i) == 2 * SetBit(v / 2, i - 1) + v % 2;
    } else {
      assert v - v % 2 == 2 * (v / 2);
      assert v / 2 < half;
    }
  }

  lemma {:induction false} ClearBitBound(v: nat, i: nat)
    ensures ClearBit(v, i) <= v
    decreases i
  {
    if i > 0 {
      ClearBitBound(v / 2, i - 1);
    }
  }

  /** Clearing a bit that was clear before setting it gives back the original value. */
  lemma {:induction false} ClearAfterSet(v: nat, i: nat)
    requires BitOf(v, i) == 0
    ensures ClearBit(SetBit(v, i), i) == v
    decreases i
  {
    if i > 0 {
      ClearAfterSet(v / 2, i - 1);
    }
  }

  datatype BitwiseOp = And | Or | Xor

  function CombineBits(op: BitwiseOp, x: nat, y: nat): nat
    requires x <= 1 && y <= 1
  {
    match op
    case And => x * y
    case Or => if x + y > 0 then 1 else 0
    case Xor => (x + y) % 2
  }

  /** `a & b`, `a | b` or `a ^ b`, digit by digit. */
  function Bitwise(op: BitwiseOp, a: nat, b: nat): nat
    decreases a + b
  {
    if a == 0 && b == 0 then 0
    else 2 * Bitwise(op, a / 2, b / 2) + CombineBits(op, a % 2, b % 2)
  }

  /** Each bit of the result combines the same bit of both operands. */
  lemma {:induction false} BitwiseReads(op: BitwiseOp, a: nat, b: nat, j: nat)
    ensures BitOf(Bitwise(op, a, b), j) == CombineBits(op, BitOf(a, j), BitOf(b, j))
    decreases a + b
  {
    if a == 0 && b == 0 {
      ZeroBits(j);
    } else {
      var rest, low := Bitwise(op, a / 2, b / 2), CombineBits(op, a % 2, b % 2);
      Halves(rest, low);
      if j > 0 {
        BitwiseReads(op, a / 2, b / 2, j - 1);
        assert BitOf(2 * rest + low, j) == BitOf(rest, j - 1);
        assert BitOf(a, j) == BitOf(a / 2, j - 1) && BitOf(b, j) == BitOf(b / 2, j - 1);
      } else {
        assert BitOf(a, 0) == a % 2 && BitOf(b, 0) == b % 2;
      }
    }
  }

  lemma Halves(x: nat, low: nat)
    requires low <= 1
    ensures (2 * x + low) / 2 == x && (2 * x + low) % 2 == low
  {
  }

  lemma {:induction false} ZeroBits(j: nat)
    ensures BitOf(0, j) == 0
  {
    if j > 0 {
      ZeroBits(j - 1);
    }
  }

  lemma {:induction false} BitwiseBound(op: BitwiseOp, a: nat, b: nat, n: nat)
    requires a < Pow2(n) && b < Pow2(n)
    ensures Bitwise(op, a, b) < Pow2(n)
    decreases a + b
  {
    if !(a == 0 && b == 0) {
      BitwiseBound(op, a / 2, b / 2, n - 1);
    }
  }

  /** `bitRead(value, bit)`; a shift by 64 or more is taken to select no bit. */
  function BitRead(v: U64, bit: nat): (r: U64)
    ensures r <= 1
    ensures bit < 64 ==> r == BitOf(v, bit)
  {
    if bit >= 64 then 0 else BitOf(v, bit)
  }

  /** `bitSetULL(value, bit)`; a shift by 64 or more is taken to leave the value alone. */
  function BitSet(v: U64, bit: nat): (r: U64)
    ensures bit < 64 ==> BitRead(r, bit) == 1
    ensures forall j :: j != bit && j < 64 ==> BitRead(r, j) == BitRead(v, j)
  {
    if bit >= 64 then v
    else
      Pow2Of64();
      SetBitBound(v, bit, 64);
      SetBitReads(v, bit, bit);
      assert forall j :: j != bit ==> BitOf(SetBit(v, bit), j) == BitOf(v, j) by {
        forall j | j != bit { SetBitReads(v, bit, j); }
      }
      SetBit(v, bit)
  }

  /** `bitClearULL(value, bit)`. */
  function BitClear(v: U64, bit: nat): (r: U64)
    ensures BitRead(r, bit) == 0
    ensures forall j :: j != bit && j < 64 ==> BitRead(r, j) == BitRead(v, j)
  {
    if bit >= 64 then v
    else
      ClearBitBound(v, bit);
      ClearBitReads(v, bit, bit);
      assert forall j :: j != bit ==> BitOf(ClearBit(v, bit), j) == BitOf(v, j) by {
        forall j | j != bit { ClearBitReads(v, bit, j); }
      }
      ClearBit(v, bit)
  }

  /** A 64-bit bitwise operation. */
  function BitwiseU64(op: BitwiseOp, a: U64, b: U64): (r: U64)
    ensures forall j :: j < 64 ==> BitRead(r, j) == CombineBits(op, BitRead(a, j), BitRead(b, j))
  {
    Pow2Of64();
    BitwiseBound(op, a, b, 64);
    assert forall j :: BitOf(Bitwise(op, a, b), j) == CombineBits(op, BitOf(a, j), BitOf(b, j)) by {
      forall j { BitwiseReads(op, a, b, j); }
    }
    Bitwise(op, a, b)
  }

  /** Clearing a bit that was just set restores a value whose bit was clear. */
  lemma ClearUndoesSet(v: U64, bit: nat)
    requires BitRead(v, bit) == 0
    ensures BitClear(BitSet(v, bit), bit) == v
  {
    if bit < 64 {
      ClearAfterSet(v, bit);
    }
  }
}
