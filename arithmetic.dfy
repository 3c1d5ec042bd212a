/**
 * The arithmetic of the register and memory instructions of
 * `execute_instruction` (src/chip8.rs): carries, borrows and shifted-out
 * bits, including the quirks of the order in which VF and Vx are
 * written; the binary-coded decimal store; and the register file stores
 * and loads through the index register.
 */
module Arithmetic {
  import opened Bytes
  import opened Instructions
  import opened Semantics

  // ---------------------------------------------------------------- registers

  /** ADD Vx, Vy with x other than F: Vx and the carry in VF together hold the full sum. */
  lemma AddCarry(v: Registers, x: nat, y: nat)
    requires x < REGISTER_COUNT && y < REGISTER_COUNT && x != FLAG
    ensures AddRegisters(v, x, y)[FLAG] <= 1
    ensures AddRegisters(v, x, y)[x] as int + 0x100 * AddRegisters(v, x, y)[FLAG] as int == v[x] as int + v[y]
    ensures forall k :: 0 <= k < REGISTER_COUNT && k != x && k != FLAG ==> AddRegisters(v, x, y)[k] == v[k]
  {
  }

  /** ADD VF, Vy: the sum is written after the carry, so the carry is lost. */
  lemma AddIntoFlag(v: Registers, y: nat)
    requires y < REGISTER_COUNT
    ensures AddRegisters(v, FLAG, y)[FLAG] == (v[FLAG] as int + v[y]) % 0x100
  {
  }

  /**
   * SUB Vx, Vy with neither operand F: Vx is the difference modulo 256 and
   * VF is 1 iff Vx > Vy (so 0 when they are equal).
   */
  lemma SubBorrow(v: Registers, x: nat, y: nat)
    requires x < REGISTER_COUNT && y < REGISTER_COUNT && x != FLAG && y != FLAG
    ensures SubRegisters(v, x, y)[FLAG] == if v[x] > v[y] then 1 else 0
    ensures SubRegisters(v, x, y)[x] == v[x] as int - v[y] + if v[x] < v[y] then 0x100 else 0
    ensures forall k :: 0 <= k < REGISTER_COUNT && k != x && k != FLAG ==> SubRegisters(v, x, y)[k] == v[k]
  {
  }

  /**
   * SUB Vx, VF subtracts the flag it has just written, not the old VF:
   * with V0 = 5 and VF = 3 the result is V0 = 4.
   */
  lemma SubReadsUpdatedFlag(v: Registers, x: nat)
    requires x < REGISTER_COUNT && x != FLAG
    ensures SubRegisters(v, x, FLAG)[x] == (v[x] as int - SubRegisters(v, x, FLAG)[FLAG]) % 0x100
    ensures v[x] == 5 && v[FLAG] == 3 ==> SubRegisters(v, x, FLAG)[x] == 4
  {
  }

  /** SUBN Vx, Vy with neither operand F: Vx = Vy - Vx modulo 256 and VF = 1 iff Vy > Vx. */
  lemma SubnBorrow(v: Registers, x: nat, y: nat)
    requires x < REGISTER_COUNT && y < REGISTER_COUNT && x != FLAG && y != FLAG
    ensures SubnRegisters(v, x, y)[FLAG] == if v[y] > v[x] then 1 else 0
    ensures SubnRegisters(v, x, y)[x] == v[y] as int - v[x] + if v[y] < v[x] then 0x100 else 0
    ensures forall k :: 0 <= k < REGISTER_COUNT && k != x && k != FLAG ==> SubnRegisters(v, x, y)[k] == v[k]
  {
  }

  /** SHR Vx with x other than F: VF gets the bit shifted out, and `2 * Vx' + VF == Vx`. */
  lemma ShrSplits(v: Registers, x: nat)
    requires x < REGISTER_COUNT && x != FLAG
    ensures ShrRegister(v, x)[FLAG] <= 1
    ensures 2 * ShrRegister(v, x)[x] as int + ShrRegister(v, x)[FLAG] == v[x]
  {
    AndOneIsLowBit(v[x]);
  }

  /**
   * SHL Vx with x other than F: Vx is doubled modulo 256, and VF gets bit
   * 0 of the old Vx (as written), not the bit shifted out.
   */
  lemma ShlLowBit(v: Registers, x: nat)
    requires x < REGISTER_COUNT && x != FLAG
    ensures ShlRegister(v, x)[x] == (2 * v[x] as int) % 0x100
    ensures ShlRegister(v, x)[FLAG] == v[x] % 2
  {
    AndOneIsLowBit(v[x]);
  }

  /** XOR Vx, Vy twice with x != y restores every register. */
  lemma XorTwice(v: Registers, x: nat, y: nat)
    requires x < REGISTER_COUNT && y < REGISTER_COUNT && x != y
    ensures Alu(Alu(v, XORVxVy(x, y)), XORVxVy(x, y)) == v
  {
    XorInvolution(v[x], v[y]);
    var w := Alu(v, XORVxVy(x, y));
    assert w[y] == v[y];
    assert Alu(w, XORVxVy(x, y))[x] == v[x];
  }

  /** OR Vx, Vy never clears a bit: the result is at least each operand. */
  lemma OrGrows(v: Registers, x: nat, y: nat)
    requires x < REGISTER_COUNT && y < REGISTER_COUNT
    ensures Alu(v, ORVxVy(x, y))[x] >= v[x] && Alu(v, ORVxVy(x, y))[x] >= v[y]
  {
    OrBound(v[x], v[y]);
  }

  /** RND Vx, kk: whatever the random byte, the result is at most the mask `kk`. */
  lemma RandomMasked(v: Registers, x: nat, kk: Byte, rnd: Byte, dt: Byte)
    requires x < REGISTER_COUNT
    ensures RegisterOp(v, RNDVxByte(x, kk), rnd, dt)[x] <= kk
    ensures kk == 0 ==> RegisterOp(v, RNDVxByte(x, kk), rnd, dt)[x] == 0
  {
    AndMaskBound(rnd, kk);
  }

  /** ADD Vx, kk wraps modulo 256 and leaves VF alone. */
  lemma AddByteWraps(v: Registers, x: nat, kk: Byte, rnd: Byte, dt: Byte)
    requires x < REGISTER_COUNT && x != FLAG
    ensures RegisterOp(v, ADDVxByte(x, kk), rnd, dt)[x]
      == v[x] as int + kk - if v[x] as int + kk >= 0x100 then 0x100 else 0
    ensures RegisterOp(v, ADDVxByte(x, kk), rnd, dt)[FLAG] == v[FLAG]
  {
  }

  // ---------------------------------------------------------------- memory

  /**
   * LD B, Vx: three decimal digits at I, I + 1, I + 2 whose value is Vx;
   * every other cell is unchanged.
   */
  lemma BcdDigits(mem: Memory, at: nat, value: Byte)
    requires at + 3 <= MEMORY_SIZE
    ensures var m := StoreBcd(mem, at, value);
      && m[at] < 10 && m[at + 1] < 10 && m[at + 2] < 10
      && 100 * m[at] as int + 10 * m[at + 1] as int + m[at + 2] == value
      && forall a :: 0 <= a < MEMORY_SIZE && !(at <= a < at + 3) ==> m[a] == mem[a]
  {
  }

  /** LD [I], Vx: cell `at + k` holds Vk for k up to x; every other cell is unchanged. */
  lemma StoreRegistersCells(mem: Memory, at: nat, v: Registers, x: nat)
    requires x < REGISTER_COUNT && at + x + 1 <= MEMORY_SIZE
    ensures forall k :: 0 <= k <= x ==> StoreRegisters(mem, at, v, x)[at + k] == v[k]
    ensures forall a :: 0 <= a < MEMORY_SIZE && !(at <= a <= at + x) ==> StoreRegisters(mem, at, v, x)[a] == mem[a]
  {
    var m := StoreRegisters(mem, at, v, x);
    forall k | 0 <= k <= x
      ensures m[at + k] == v[k]
    {
      assert m[at + k] == (mem[..at] + v[..x + 1])[at + k];
    }
  }

  /** LD Vx, [I]: Vk holds cell `at + k` for k up to x; the higher registers are unchanged. */
  lemma LoadRegistersCells(v: Registers, mem: Memory, at: nat, x: nat)
    requires x < REGISTER_COUNT && at + x + 1 <= MEMORY_SIZE
    ensures forall k :: 0 <= k <= x ==> LoadRegisters(v, mem, at, x)[k] == mem[at + k]
    ensures forall k :: x < k < REGISTER_COUNT ==> LoadRegisters(v, mem, at, x)[k] == v[k]
  {
  }

  /** Storing V0..Vx and loading them back from the same address restores them. */
  lemma StoreThenLoad(mem: Memory, at: nat, v: Registers, w: Registers, x: nat)
    requires x < REGISTER_COUNT && at + x + 1 <= MEMORY_SIZE
    ensures LoadRegisters(w, StoreRegisters(mem, at, v, x), at, x) == v[..x + 1] + w[x + 1..]
    ensures LoadRegisters(v, StoreRegisters(mem, at, v, x), at, x) == v
  {
    StoreRegistersCells(mem, at, v, x);
    var m := StoreRegisters(mem, at, v, x);
    assert m[at..at + x + 1] == v[..x + 1];
    assert v[..x + 1] + v[x + 1..] == v;
  }

  /**
   * LD F, Vx: I becomes 5 * Vx, the address of the five-byte glyph of
   * digit Vx, which lies inside the font for the digits 0x0..0xF.
   */
  lemma FontGlyph(s: State, x: nat)
    requires x < REGISTER_COUNT
    ensures TimerOrIndex(s, LDFVx(x)).Ok?
    ensures TimerOrIndex(s, LDFVx(x)).value.index == 5 * s.v[x] as int
    ensures s.v[x] < 16 ==> TimerOrIndex(s, LDFVx(x)).value.index + 5 <= FONT_SIZE
  {
  }
}
