/**
 * Properties of `execute_instruction` and `run_cycle` (src/chip8.rs):
 * exactly when an instruction panics and with what reason, which fields
 * each instruction may change, where control goes after a whole cycle,
 * how the timers count down, and how the opcode is fetched.
 */
module Execution {
  import opened Bytes
  import opened Instructions
  import opened Semantics

  datatype Option<T> = None | Some(value: T)

  // ---------------------------------------------------------------- faults

  /**
   * The panic, if any, that `execute_instruction` reaches on `i` in state
   * `s`, listed instruction by instruction: `todo!()`, `unwrap` on an
   * empty stack, `nnn - 2` below zero, a key index past 15, and a memory
   * index past 0xFFF.
   */
  function ExpectedFault(s: State, i: Instruction): Option<Fault>
    requires WellFormed(i)
  {
    match i
    case SYS(_) => Some(Unimplemented)
    case LDVxK(_) => Some(Unimplemented)
    case RET => if s.stack == [] then Some(StackUnderflow) else None
    case JP(nnn) => if nnn < 2 then Some(AddressUnderflow) else None
    case CALL(nnn) => if nnn < 2 then Some(AddressUnderflow) else None
    case SKPVx(x) => if s.v[x] >= KEY_COUNT then Some(KeyOutOfRange) else None
    case SKNPVx(x) => if s.v[x] >= KEY_COUNT then Some(KeyOutOfRange) else None
    case LDBVx(_) => if s.index + 2 >= MEMORY_SIZE then Some(MemoryOutOfBounds) else None
    case LDIVx(x) => if s.index + x >= MEMORY_SIZE then Some(MemoryOutOfBounds) else None
    case LDVxMem(x) => if s.index + x >= MEMORY_SIZE then Some(MemoryOutOfBounds) else None
    case DRWVxVyNibble(_, _, n) =>
      if n > 0 && s.index + n - 1 >= MEMORY_SIZE then Some(MemoryOutOfBounds) else None
    case _ => None
  }

  lemma JumpFaults(s: State, i: Instruction)
    requires WellFormed(i) && IsJump(i)
    ensures Jump(s, i).Err? <==> ExpectedFault(s, i).Some?
    ensures Jump(s, i).Err? ==> Jump(s, i).error == ExpectedFault(s, i).value
  {
  }

  lemma SkipFaults(s: State, i: Instruction)
    requires WellFormed(i) && IsSkip(i)
    ensures Skip(s, i).Err? <==> ExpectedFault(s, i).Some?
    ensures Skip(s, i).Err? ==> Skip(s, i).error == ExpectedFault(s, i).value
  {
  }

  lemma TimerOrIndexFaults(s: State, i: Instruction)
    requires WellFormed(i) && IsTimerOrIndex(i)
    ensures TimerOrIndex(s, i).Err? <==> ExpectedFault(s, i).Some?
    ensures TimerOrIndex(s, i).Err? ==> TimerOrIndex(s, i).error == ExpectedFault(s, i).value
  {
  }

  lemma MemoryFaults(s: State, i: Instruction)
    requires WellFormed(i) && IsMemoryOp(i)
    ensures MemoryOp(s, i).Err? <==> ExpectedFault(s, i).Some?
    ensures MemoryOp(s, i).Err? ==> MemoryOp(s, i).error == ExpectedFault(s, i).value
  {
  }

  lemma ScreenFaults(s: State, i: Instruction)
    requires WellFormed(i) && IsScreenOp(i)
    ensures ScreenOp(s, i).Err? <==> ExpectedFault(s, i).Some?
    ensures ScreenOp(s, i).Err? ==> ScreenOp(s, i).error == ExpectedFault(s, i).value
  {
  }

  /** `Execute` fails exactly on the listed panics, with their reasons. */
  lemma ExecuteFaults(s: State, i: Instruction, rnd: Byte)
    requires WellFormed(i)
    ensures Execute(s, i, rnd).Err? <==> ExpectedFault(s, i).Some?
    ensures Execute(s, i, rnd).Err? ==> Execute(s, i, rnd).error == ExpectedFault(s, i).value
  {
    if IsJump(i) {
      JumpFaults(s, i);
    } else if IsSkip(i) {
      SkipFaults(s, i);
    } else if IsRegisterOp(i) {
    } else if IsTimerOrIndex(i) {
      TimerOrIndexFaults(s, i);
    } else if IsMemoryOp(i) {
      MemoryFaults(s, i);
    } else if IsScreenOp(i) {
      ScreenFaults(s, i);
    }
  }

  /** A cycle fails exactly when its instruction does, and then leaves the state as it was. */
  lemma CycleFaults(s: State, i: Instruction, rnd: Byte)
    requires WellFormed(i)
    ensures Cycle(s, i, rnd).Err? <==> ExpectedFault(s, i).Some?
    ensures Cycle(s, i, rnd).Err? ==> Outcome(s, Cycle(s, i, rnd)) == (Err(ExpectedFault(s, i).value), s)
  {
    ExecuteFaults(s, i, rnd);
  }

  // ---------------------------------------------------------------- footprint

  /**
   * What an instruction that runs to completion may change: the keys and
   * the pause flag never; `pc` only for jumps and skips; the stack only
   * for RET and CALL; memory only for LD B and LD [I]; the screen only for
   * CLS and DRW; each timer only for its own load; the index only for
   * LD I, ADD I and LD F; the registers only for the register
   * instructions, LD Vx, [I] and DRW.
   */
  lemma ExecuteFrame(s: State, i: Instruction, rnd: Byte)
    requires WellFormed(i) && Execute(s, i, rnd).Ok?
    ensures var t := Execute(s, i, rnd).value;
      && t.keys == s.keys && t.paused == s.paused
      && (t.pc != s.pc ==> IsJump(i) || IsSkip(i))
      && (t.stack != s.stack ==> i.RET? || i.CALL?)
      && (t.memory != s.memory ==> i.LDBVx? || i.LDIVx?)
      && (t.screen != s.screen ==> i.CLS? || i.DRWVxVyNibble?)
      && (t.dt != s.dt ==> i.LDDTVx?)
      && (t.st != s.st ==> i.LDSTVx?)
      && (t.index != s.index ==> i.LDI? || i.ADDIVx? || i.LDFVx?)
      && (t.v != s.v ==> IsRegisterOp(i) || i.LDVxMem? || i.DRWVxVyNibble?)
  {
    if IsJump(i) {
    } else if IsSkip(i) {
    } else if IsRegisterOp(i) {
    } else if IsTimerOrIndex(i) {
    } else if IsMemoryOp(i) {
    } else if IsScreenOp(i) {
    }
  }

  /** The flag-setting register instructions of family 0x8. */
  predicate SetsFlag(i: Instruction)
  {
    i.ADDVxVy? || i.SUBVxVy? || i.SUBNVxVy? || i.SHRVx? || i.SHLVx?
  }

  /**
   * A register instruction writes Vx, and VF as well only when it is one
   * of the flag-setting instructions; every other register keeps its value.
   */
  lemma RegisterOpFrame(v: Registers, i: Instruction, rnd: Byte, dt: Byte, k: nat)
    requires WellFormed(i) && IsRegisterOp(i)
    requires k < REGISTER_COUNT && k != i.x && (k == FLAG ==> !SetsFlag(i))
    ensures RegisterOp(v, i, rnd, dt)[k] == v[k]
  {
  }

  // ---------------------------------------------------------------- control flow

  /** Every instruction but the jumps and skips moves `pc` on by one instruction (2 bytes). */
  lemma CycleAdvances(s: State, i: Instruction, rnd: Byte)
    requires WellFormed(i) && !IsJump(i) && !IsSkip(i) && Cycle(s, i, rnd).Ok?
    ensures Cycle(s, i, rnd).value.pc == s.pc + 2
  {
    ExecuteFrame(s, i, rnd);
  }

  /** A skip moves `pc` on by two instructions when its condition holds and by one otherwise. */
  lemma SkipLands(s: State, i: Instruction, rnd: Byte)
    requires WellFormed(i) && IsSkip(i) && !KeyFault(s, i)
    ensures Cycle(s, i, rnd) == Ok(Tick(s).(pc := s.pc + if SkipTaken(s, i) then 4 else 2))
  {
    assert Execute(s, i, rnd) == Ok(SkipIf(s, SkipTaken(s, i)));
  }

  /** JP nnn: after the cycle `pc` is `nnn`; the `- 2` makes up for the cycle's `+ 2`. */
  lemma JumpLands(s: State, nnn: Address, rnd: Byte)
    requires 2 <= nnn < 0x1000
    ensures Cycle(s, JP(nnn), rnd) == Ok(Tick(s).(pc := nnn))
  {
    assert Execute(s, JP(nnn), rnd) == Ok(s.(pc := nnn - 2));
  }

  /** CALL nnn: `pc` is `nnn` after the cycle and the caller's own address is pushed. */
  lemma CallLands(s: State, nnn: Address, rnd: Byte)
    requires 2 <= nnn < 0x1000
    ensures Cycle(s, CALL(nnn), rnd) == Ok(Tick(s).(pc := nnn, stack := s.stack + [s.pc]))
  {
    assert Execute(s, CALL(nnn), rnd) == Ok(s.(stack := s.stack + [s.pc], pc := nnn - 2));
  }

  /** RET: `pc` is the popped return address plus 2 after the cycle. */
  lemma ReturnLands(s: State, rnd: Byte, rest: seq<nat>, top: nat)
    requires s.stack == rest + [top]
    ensures Cycle(s, RET, rnd) == Ok(Tick(s).(pc := top + 2, stack := rest))
  {
    assert s.stack[..|s.stack| - 1] == rest;
  }

  /** RET from the state a CALL cycle leaves: back after the call, two ticks on. */
  lemma ReturnAfterCall(s: State, nnn: Address, rnd: Byte)
    requires 2 <= nnn < 0x1000
    ensures Cycle(Tick(s).(pc := nnn, stack := s.stack + [s.pc]), RET, rnd) == Ok(Ticks(s, 2).(pc := s.pc + 2))
  {
    var t := Tick(s).(pc := nnn, stack := s.stack + [s.pc]);
    ReturnLands(t, rnd, s.stack, s.pc);
    assert Ticks(s, 1) == Tick(s);
  }

  /**
   * RET right after CALL resumes at the instruction after the call, with
   * the stack as before the call.
   */
  lemma CallThenReturn(s: State, nnn: Address, rnd: Byte, rnd': Byte)
    requires 2 <= nnn < 0x1000
    ensures Cycle(s, CALL(nnn), rnd).Ok?
    ensures Cycle(Cycle(s, CALL(nnn), rnd).value, RET, rnd') == Ok(Ticks(s, 2).(pc := s.pc + 2))
  {
    CallLands(s, nnn, rnd);
    ReturnAfterCall(s, nnn, rnd');
  }

  /**
   * JP V0, nnn sets `pc` to `nnn + V0` without the compensating `- 2`, so
   * the cycle's `pc += 2` lands two bytes past the target, as written.
   */
  lemma JumpOffsetLands(s: State, nnn: Address, rnd: Byte)
    requires nnn < 0x1000
    ensures Cycle(s, JP0(nnn), rnd) == Ok(Tick(s).(pc := nnn + s.v[0] + 2))
  {
    assert Execute(s, JP0(nnn), rnd) == Ok(s.(pc := nnn + s.v[0]));
  }

  /** CLS blanks every pixel and changes nothing else; a second CLS changes nothing. */
  lemma ClearScreenIdempotent(s: State, rnd: Byte)
    ensures Execute(s, CLS, rnd) == Ok(s.(screen := BlankScreen()))
    ensures Execute(Execute(s, CLS, rnd).value, CLS, rnd) == Execute(s, CLS, rnd)
  {
  }

  // ---------------------------------------------------------------- timers

  /** `k` calls of `update_timers`. */
  function Ticks(s: State, k: nat): State
  {
    if k == 0 then s else Tick(Ticks(s, k - 1))
  }

  /** Saturating decrement by `k`. */
  function CountDown(b: Byte, k: nat): Byte
  {
    if b > k then b - k else 0
  }

  /** After `k` ticks each timer has counted down by `k` and stopped at zero; nothing else changes. */
  lemma {:induction false} TicksCountDown(s: State, k: nat)
    ensures Ticks(s, k) == s.(dt := CountDown(s.dt, k), st := CountDown(s.st, k))
  {
    if k > 0 {
      TicksCountDown(s, k - 1);
    }
  }

  /** With no other writes, the delay timer reaches zero after exactly `dt` ticks and stays there. */
  lemma TimerExpires(s: State, k: nat)
    ensures Ticks(s, s.dt).dt == 0 && Ticks(s, s.dt + k).dt == 0
    ensures k < s.dt ==> Ticks(s, k).dt > 0
  {
    TicksCountDown(s, s.dt);
    TicksCountDown(s, s.dt + k);
    TicksCountDown(s, k);
  }

  /**
   * Across a cycle each timer counts down by one, from the value LD DT
   * (or LD ST) loaded into it, or else from its old value.
   */
  lemma CycleTimers(s: State, i: Instruction, rnd: Byte)
    requires WellFormed(i) && Cycle(s, i, rnd).Ok?
    ensures Cycle(s, i, rnd).value.dt == CountDown(if i.LDDTVx? then s.v[i.x] else s.dt, 1)
    ensures Cycle(s, i, rnd).value.st == CountDown(if i.LDSTVx? then s.v[i.x] else s.st, 1)
  {
    ExecuteFrame(s, i, rnd);
  }

  // ---------------------------------------------------------------- fetch

  /** ORing with zero keeps a value that fits in `width` bits. */
  lemma {:induction false} BitwiseOrZero(a: nat, width: nat)
    requires a < Pow2(width)
    ensures Bitwise(OrOp, a, 0, width) == a
    decreases width
  {
    if width > 0 {
      BitwiseOrZero(a / 2, width - 1);
    }
  }

  /** ORing a value shifted left by `k` with one below `2^k` is their sum. */
  lemma {:induction false} BitwiseOrShift(a: nat, b: nat, k: nat, width: nat)
    requires k <= width && b < Pow2(k) && a * Pow2(k) < Pow2(width)
    ensures Bitwise(OrOp, a * Pow2(k), b, width) == a * Pow2(k) + b
    decreases k
  {
    if k == 0 {
      BitwiseOrZero(a, width);
    } else {
      var m := a * Pow2(k - 1);
      assert a * Pow2(k) == 2 * m by {
        assert Pow2(k) == 2 * Pow2(k - 1);
      }
      assert Pow2(width) == 2 * Pow2(width - 1);
      BitwiseOrShift(a, b / 2, k - 1, width - 1);
    }
  }

  /** `2^(j + k) == 2^j * 2^k`. */
  lemma {:induction false} Pow2Add(j: nat, k: nat)
    ensures Pow2(j + k) == Pow2(j) * Pow2(k)
    decreases j
  {
    if j > 0 {
      Pow2Add(j - 1, k);
    }
  }

  /** `(hi as u16) << 8 | lo as u16` is `hi * 0x100 + lo`. */
  lemma ShiftOrBytes(hi: Byte, lo: Byte)
    ensures Bitwise(OrOp, hi as int * 0x100, lo, 16) == hi as int * 0x100 + lo
  {
    Pow2Byte();
    Pow2Add(8, 8);
    BitwiseOrShift(hi, lo, 8, 16);
  }

  /** The high and low bytes of `hi * 0x100 + lo`. */
  lemma WordBytes(hi: Byte, lo: Byte)
    ensures (hi as int * 0x100 + lo) / 0x100 == hi && (hi as int * 0x100 + lo) % 0x100 == lo
  {
  }

  /** The fetch `(memory[pc] as u16) << 8 | memory[pc + 1] as u16`: high byte first. */
  lemma FetchIsShiftOr(s: State)
    requires s.pc + 1 < MEMORY_SIZE
    ensures Fetch(s) == Bitwise(OrOp, s.memory[s.pc] as int * 0x100, s.memory[s.pc + 1], 16)
    ensures Fetch(s) / 0x100 == s.memory[s.pc] && Fetch(s) % 0x100 == s.memory[s.pc + 1]
  {
    ShiftOrBytes(s.memory[s.pc], s.memory[s.pc + 1]);
    WordBytes(s.memory[s.pc], s.memory[s.pc + 1]);
  }

  // ---------------------------------------------------------------- run_cycle

  /** A paused machine does nothing. */
  lemma PausedCycle(s: State, rnd: Byte)
    requires s.paused
    ensures RunCycle(s, rnd) == Ok(s)
  {
  }

  /** An undefined opcode is skipped: only the timers and `pc` move on. */
  lemma UndefinedOpcodeCycle(s: State, rnd: Byte)
    requires !s.paused && s.pc + 1 < MEMORY_SIZE && Undefined(Fetch(s))
    ensures RunCycle(s, rnd) == Ok(Tick(s).(pc := s.pc + 2))
  {
    UnknownIffUndefined(Fetch(s));
  }
}
