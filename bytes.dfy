/**
 * Unsigned machine integers and the bitwise operators the interpreter
 * applies to them. Values are mathematical integers restricted to their
 * range; every wrap-around is written out where it happens.
 */
module Bytes {

  /** An unsigned 8-bit value (Rust `u8`). */
  type Byte = b: int | 0 <= b < 0x100

  /** An unsigned 16-bit value (Rust `u16`), the width of an opcode. */
  type Word = w: int | 0 <= w < 0x1_0000

  function Pow2(k: nat): (r: nat)
    ensures r >= 1
  {
    if k == 0 then 1 else 2 * Pow2(k - 1)
  }

  /** The three bitwise connectives of the instruction set. */
  datatype BitOp = AndOp | OrOp | XorOp

  function Combine(op: BitOp, p: bool, q: bool): bool
  {
    match op
    case AndOp => p && q
    case OrOp => p || q
    case XorOp => p != q
  }

  /**
   * Applies `op` to the low `width` bits of `a` and `b`, least significant
   * bit first.
   */
  function Bitwise(op: BitOp, a: nat, b: nat, width: nat): nat
    decreases width
  {
    if width == 0 then 0
    else
      2 * Bitwise(op, a / 2, b / 2, width - 1)
      + (if Combine(op, a % 2 == 1, b % 2 == 1) then 1 else 0)
  }

  lemma Pow2Byte()
    ensures Pow2(8) == 0x100
  {
  }

  /** The result of `Bitwise` fits in `width` bits. */
  lemma {:induction false} BitwiseBound(op: BitOp, a: nat, b: nat, width: nat)
    ensures Bitwise(op, a, b, width) < Pow2(width)
    decreases width
  {
    if width > 0 {
      BitwiseBound(op, a / 2, b / 2, width - 1);
    }
  }

  /** Rust `a & b` on `u8`. */
  function And(a: Byte, b: Byte): Byte
  {
    BitwiseBound(AndOp, a, b, 8);
    Pow2Byte();
    Bitwise(AndOp, a, b, 8)
  }

  /** Rust `a | b` on `u8`. */
  function Or(a: Byte, b: Byte): Byte
  {
    BitwiseBound(OrOp, a, b, 8);
    Pow2Byte();
    Bitwise(OrOp, a, b, 8)
  }

  /** Rust `a ^ b` on `u8`. */
  function Xor(a: Byte, b: Byte): Byte
  {
    BitwiseBound(XorOp, a, b, 8);
    Pow2Byte();
    Bitwise(XorOp, a, b, 8)
  }

  /** Bit `k` of `a`, counted from the least significant. */
  predicate Bit(a: nat, k: nat)
  {
    if k == 0 then a % 2 == 1 else Bit(a / 2, k - 1)
  }

  /** `0x80 >> col`: the mask of sprite column `col`, most significant bit first. */
  function ColumnMask(col: nat): Byte
    requires col < 8
  {
    [0x80, 0x40, 0x20, 0x10, 0x08, 0x04, 0x02, 0x01][col]
  }

  /** Sprite column `col` of `b` is set: bit `7 - col`, counted from the least significant. */
  predicate SpriteBit(b: Byte, col: nat)
    requires col < 8
  {
    Bit(b, 7 - col)
  }

  /** A bitwise AND never has bits its second operand lacks, so it is at most that operand. */
  lemma {:induction false} BitwiseAndBound(a: nat, b: nat, width: nat)
    ensures Bitwise(AndOp, a, b, width) <= b
    decreases width
  {
    if width > 0 {
      BitwiseAndBound(a / 2, b / 2, width - 1);
    }
  }

  /** ANDing with zero clears every bit. */
  lemma {:induction false} BitwiseAndZero(a: nat, width: nat)
    ensures Bitwise(AndOp, a, 0, width) == 0
    decreases width
  {
    if width > 0 {
      BitwiseAndZero(a / 2, width - 1);
    }
  }

  /** `v & 0b1` is the lowest bit of `v`. */
  lemma AndOneIsLowBit(v: Byte)
    ensures And(v, 1) == v % 2
  {
    Pow2Byte();
    BitwiseAndZero(v / 2, 7);
  }

  /** A masked byte keeps only the mask's bits: `r & kk <= kk`. */
  lemma AndMaskBound(r: Byte, kk: Byte)
    ensures And(r, kk) <= kk
  {
    BitwiseAndBound(r, kk, 8);
  }

  /** XOR with the same byte twice restores the original. */
  lemma {:induction false} BitwiseXorInvolution(a: nat, b: nat, width: nat)
    requires a < Pow2(width)
    ensures Bitwise(XorOp, Bitwise(XorOp, a, b, width), b, width) == a
    decreases width
  {
    if width > 0 {
      var r := Bitwise(XorOp, a, b, width);
      assert r / 2 == Bitwise(XorOp, a / 2, b / 2, width - 1);
      assert r % 2 == (if (a % 2 == 1) != (b % 2 == 1) then 1 else 0);
      BitwiseXorInvolution(a / 2, b / 2, width - 1);
    }
  }

  lemma XorInvolution(a: Byte, b: Byte)
    ensures Xor(Xor(a, b), b) == a
  {
    Pow2Byte();
    BitwiseXorInvolution(a, b, 8);
  }

  /** OR only adds bits: each operand is at most the result. */
  lemma {:induction false} BitwiseOrBound(a: nat, b: nat, width: nat)
    requires a < Pow2(width) && b < Pow2(width)
    ensures a <= Bitwise(OrOp, a, b, width) && b <= Bitwise(OrOp, a, b, width)
    decreases width
  {
    if width > 0 {
      BitwiseOrBound(a / 2, b / 2, width - 1);
    }
  }

  lemma OrBound(a: Byte, b: Byte)
    ensures a <= Or(a, b) && b <= Or(a, b)
  {
    Pow2Byte();
    BitwiseOrBound(a, b, 8);
  }

  /** `0x80 >> col` is the power of two of bit `7 - col`. */
  lemma ColumnMaskPow2(col: nat)
    requires col < 8
    ensures ColumnMask(col) == Pow2(7 - col)
  {
    assert Pow2(7) == 0x80 && Pow2(0) == 0x01;
  }

  /** ANDing with a power of two keeps exactly that bit of `a`. */
  lemma {:induction false} BitwiseAndPow2(a: nat, k: nat, width: nat)
    ensures Bitwise(AndOp, a, Pow2(k), width)
      == if k < width && Bit(a, k) then Pow2(k) else 0
    decreases width
  {
    if width > 0 {
      if k == 0 {
        BitwiseAndZero(a / 2, width - 1);
      } else {
        assert Pow2(k) / 2 == Pow2(k - 1) && Pow2(k) % 2 == 0;
        BitwiseAndPow2(a / 2, k - 1, width - 1);
      }
    }
  }

  /** The draw loop's test `b & (0x80 >> col) != 0` is the sprite bit of column `col`. */
  lemma SpriteBitIsMask(b: Byte, col: nat)
    requires col < 8
    ensures And(b, ColumnMask(col)) != 0 <==> SpriteBit(b, col)
  {
    ColumnMaskPow2(col);
    Pow2Byte();
    BitwiseAndPow2(b, 7 - col, 8);
  }
}
