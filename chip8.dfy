/**
 * The `Chip8` struct of src/chip8.rs as a class over arrays: memory,
 * registers and screen are updated in place, as in the source. Every
 * method is proved to move the abstract state `Abs()` exactly as the
 * matching function of module Semantics says.
 */
module Chip8 {
  import opened Bytes
  import opened Instructions
  import opened Semantics
  import opened Drawing

  class Chip8 {
    const memory: array<Byte>
    const v: array<Byte>
    const screen: array2<bool>
    var pc: nat
    var index: nat
    var stack: seq<nat>
    var dt: Byte
    var st: Byte
    var keys: Keypad
    var paused: bool
    /** The pixels the screen array holds, as a value. */
    ghost var pixels: Screen

    /** The sizes of the fixed arrays; memory and registers are distinct arrays. */
    ghost predicate Sized()
    {
      && memory.Length == MEMORY_SIZE
      && v.Length == REGISTER_COUNT
      && screen.Length0 == SCREEN_HEIGHT && screen.Length1 == SCREEN_WIDTH
      && memory != v
    }

    /** The screen array holds the pixels of `g`. */
    ghost predicate Shows(g: Screen)
      requires Sized()
      reads screen
    {
      forall r, c :: 0 <= r < SCREEN_HEIGHT && 0 <= c < SCREEN_WIDTH ==> screen[r, c] == g[r][c]
    }

    /** The object invariant: sized arrays, and `pixels` is what the screen array holds. */
    ghost predicate Valid()
      reads this, screen
    {
      Sized() && Shows(pixels)
    }

    /** The machine state these fields hold. */
    ghost function Abs(): State
      requires Sized()
      reads this, memory, v
    {
      State(memory[..], pc, index, stack, dt, st, v[..], pixels, keys, paused)
    }

    /** `Chip8::new`, with the font bytes as a parameter. */
    constructor (font: seq<Byte>)
      requires |font| == FONT_SIZE
      ensures Valid() && fresh(memory) && fresh(v) && fresh(screen)
      ensures Abs() == New(font)
    {
      var mem := new Byte[MEMORY_SIZE](_ => 0);
      forall a | 0 <= a < FONT_SIZE {
        mem[a] := font[a];
      }
      memory := mem;
      v := new Byte[REGISTER_COUNT](_ => 0);
      screen := new bool[SCREEN_HEIGHT, SCREEN_WIDTH]((_, _) => false);
      pc := PROGRAM_START;
      index := 0;
      stack := [];
      dt := 0;
      st := 0;
      keys := seq(KEY_COUNT, _ => false);
      paused := false;
      pixels := BlankScreen();
      new;
      assert memory[..] == New(font).memory;
    }

    /** The size check and copy of `load_file`; reading the file is left to the caller. */
    method LoadFile(data: seq<Byte>) returns (r: Result<(), LoadError>)
      requires Valid()
      modifies memory
      ensures Valid()
      ensures r.Ok? == LoadProgram(old(Abs()), data).Ok?
      ensures r.Ok? ==> Abs() == LoadProgram(old(Abs()), data).value
      ensures r.Err? ==> r.error == LoadProgram(old(Abs()), data).error && Abs() == old(Abs())
    {
      if |data| > MEMORY_SIZE - PROGRAM_START {
        return Err(FileTooLarge);
      }
      forall a | 0 <= a < |data| {
        memory[PROGRAM_START + a] := data[a];
      }
      assert memory[..] == old(memory[..])[..PROGRAM_START] + data + old(memory[..])[PROGRAM_START + |data|..];
      r := Ok(());
    }

    /** `update_timers`. */
    method UpdateTimers()
      requires Valid()
      modifies this
      ensures Valid()
      ensures Abs() == Tick(old(Abs()))
    {
      dt := dt - if dt > 0 then 1 else 0;
      st := st - if st > 0 then 1 else 0;
    }

    /** `update_controls`, given the processed key pad and pause request. */
    method UpdateControls(newKeys: Keypad, togglePause: bool)
      requires Valid()
      modifies this
      ensures Valid()
      ensures Abs() == Semantics.UpdateControls(old(Abs()), newKeys, togglePause)
    {
      keys := newKeys;
      if togglePause {
        paused := !paused;
      }
    }

    /**
     * `run_cycle`, with the random byte of `RND` as a parameter: nothing
     * while paused; otherwise fetch, decode and run one cycle.
     */
    method RunCycle(rnd: Byte) returns (r: Result<(), Fault>)
      requires Valid()
      modifies this, memory, v, screen
      ensures Valid()
      ensures (r, Abs()) == Outcome(old(Abs()), Semantics.RunCycle(old(Abs()), rnd))
    {
      if paused {
        return Ok(());
      }
      if pc + 1 >= MEMORY_SIZE {
        return Err(MemoryOutOfBounds);
      }
      var opcode: Word := memory[pc] as int * 0x100 + memory[pc + 1];
      assert opcode == Fetch(Abs());
      var instruction := FromOpcode(opcode);
      r := Step(instruction, rnd);
    }

    /** The rest of `run_cycle` once the instruction is decoded. */
    method Step(i: Instruction, rnd: Byte) returns (r: Result<(), Fault>)
      requires Valid() && WellFormed(i)
      modifies this, memory, v, screen
      ensures Valid()
      ensures (r, Abs()) == Outcome(old(Abs()), Cycle(old(Abs()), i, rnd))
    {
      r := ExecuteInstruction(i, rnd);
      if r.Ok? {
        FinishCycle();
      }
    }

    /** `update_timers` and `pc += 2`, the end of a cycle whose instruction did not fault. */
    method FinishCycle()
      requires Valid()
      modifies this
      ensures Valid()
      ensures Ok(Abs()) == Finish(Ok(old(Abs())))
    {
      UpdateTimers();
      pc := pc + 2;
    }

    /** `execute_instruction`, dispatching on the instruction's group. */
    method ExecuteInstruction(i: Instruction, rnd: Byte) returns (r: Result<(), Fault>)
      requires Valid() && WellFormed(i)
      modifies this, memory, v, screen
      ensures Valid()
      ensures (r, Abs()) == Outcome(old(Abs()), Execute(old(Abs()), i, rnd))
    {
      if IsJump(i) {
        r := ExecuteJump(i);
      } else if IsSkip(i) {
        r := ExecuteSkip(i);
      } else if IsRegisterOp(i) {
        ExecuteRegisters(i, rnd);
        r := Ok(());
      } else if IsTimerOrIndex(i) {
        r := ExecuteTimerOrIndex(i);
      } else if IsMemoryOp(i) {
        r := ExecuteMemory(i);
      } else if IsScreenOp(i) {
        r := ExecuteScreen(i);
      } else {
        r := Ok(());
      }
    }

    /** SYS, RET, JP, CALL and JP V0. */
    method ExecuteJump(i: Instruction) returns (r: Result<(), Fault>)
      requires Valid() && WellFormed(i) && IsJump(i)
      modifies this
      ensures Valid()
      ensures (r, Abs()) == Outcome(old(Abs()), Jump(old(Abs()), i))
    {
      r := Ok(());
      match i {
        case SYS(_) => r := Err(Unimplemented);
        case RET =>
          if |stack| == 0 {
            r := Err(StackUnderflow);
          } else {
            pc := stack[|stack| - 1];
            stack := stack[..|stack| - 1];
          }
        case JP(nnn) =>
          if nnn < 2 {
            r := Err(AddressUnderflow);
          } else {
            pc := nnn - 2;
          }
        case CALL(nnn) =>
          if nnn < 2 {
            r := Err(AddressUnderflow);
          } else {
            stack := stack + [pc];
            pc := nnn - 2;
          }
        case JP0(nnn) => pc := nnn + v[0] as int;
      }
    }

    /** The conditional skips: `pc += 2` when the condition holds. */
    method ExecuteSkip(i: Instruction) returns (r: Result<(), Fault>)
      requires Valid() && WellFormed(i) && IsSkip(i)
      modifies this
      ensures Valid()
      ensures (r, Abs()) == Outcome(old(Abs()), Skip(old(Abs()), i))
    {
      if (i.SKPVx? || i.SKNPVx?) && v[i.x] >= KEY_COUNT {
        return Err(KeyOutOfRange);
      }
      var taken;
      match i {
        case SEVxByte(x, kk) => taken := v[x] == kk;
        case SNEVxByte(x, kk) => taken := v[x] != kk;
        case SEVxVy(x, y) => taken := v[x] == v[y];
        case SNEVxVy(x, y) => taken := v[x] != v[y];
        case SKPVx(x) => taken := keys[v[x]];
        case SKNPVx(x) => taken := !keys[v[x]];
      }
      pc := pc + if taken then 2 else 0;
      r := Ok(());
    }

    /** Instructions that write only registers. */
    method ExecuteRegisters(i: Instruction, rnd: Byte)
      requires Sized() && WellFormed(i) && IsRegisterOp(i)
      modifies v
      ensures v[..] == RegisterOp(old(v[..]), i, rnd, dt)
    {
      if IsAlu(i) {
        ExecuteAlu(i);
      } else {
        match i {
          case LDVxByte(x, kk) => v[x] := kk;
          case ADDVxByte(x, kk) => v[x] := (v[x] as int + kk) % 0x100;
          case RNDVxByte(x, kk) => v[x] := And(rnd, kk);
          case LDVxDT(x) => v[x] := dt;
        }
      }
    }

    /** The register instructions of family 0x8. */
    method ExecuteAlu(i: Instruction)
      requires Sized() && WellFormed(i) && IsAlu(i)
      modifies v
      ensures v[..] == Alu(old(v[..]), i)
    {
      if i.LDVxVy? || i.ORVxVy? || i.ANDVxVy? || i.XORVxVy? {
        ExecuteLogic(i);
      } else {
        ExecuteArithmetic(i);
      }
    }

    /** LD, OR, AND and XOR Vx, Vy: only Vx changes. */
    method ExecuteLogic(i: Instruction)
      requires Sized() && WellFormed(i) && (i.LDVxVy? || i.ORVxVy? || i.ANDVxVy? || i.XORVxVy?)
      modifies v
      ensures v[..] == Alu(old(v[..]), i)
    {
      match i {
        case LDVxVy(x, y) => v[x] := v[y];
        case ORVxVy(x, y) => v[x] := Or(v[x], v[y]);
        case ANDVxVy(x, y) => v[x] := And(v[x], v[y]);
        case XORVxVy(x, y) => v[x] := Xor(v[x], v[y]);
      }
    }

    /** ADD, SUB, SHR, SUBN and SHL: VF is written before Vx, as in the source. */
    method ExecuteArithmetic(i: Instruction)
      requires Sized() && WellFormed(i) && (i.ADDVxVy? || i.SUBVxVy? || i.SHRVx? || i.SUBNVxVy? || i.SHLVx?)
      modifies v
      ensures v[..] == Alu(old(v[..]), i)
    {
      match i {
        case ADDVxVy(x, y) =>
          var result := v[x] as int + v[y];
          v[FLAG] := if result > 255 then 1 else 0;
          v[x] := result % 0x100;
        case SUBVxVy(x, y) =>
          v[FLAG] := if v[x] > v[y] then 1 else 0;
          v[x] := (v[x] as int - v[y]) % 0x100;
        case SHRVx(x) =>
          v[FLAG] := And(v[x], 1);
          v[x] := v[x] / 2;
        case SUBNVxVy(x, y) =>
          v[FLAG] := if v[y] > v[x] then 1 else 0;
          v[x] := (v[y] as int - v[x]) % 0x100;
        case SHLVx(x) =>
          v[FLAG] := And(v[x], 1);
          v[x] := (v[x] as int * 2) % 0x100;
      }
    }

    /** Instructions on the timers and the index register. */
    method ExecuteTimerOrIndex(i: Instruction) returns (r: Result<(), Fault>)
      requires Valid() && WellFormed(i) && IsTimerOrIndex(i)
      modifies this
      ensures Valid()
      ensures (r, Abs()) == Outcome(old(Abs()), TimerOrIndex(old(Abs()), i))
    {
      r := Ok(());
      match i {
        case LDVxK(_) => r := Err(Unimplemented);
        case LDDTVx(x) => dt := v[x];
        case LDSTVx(x) => st := v[x];
        case ADDIVx(x) => index := index + v[x] as int;
        case LDFVx(x) => index := v[x] as int * 5;
        case LDI(nnn) => index := nnn;
      }
    }

    /** LD B, Vx; LD [I], Vx; LD Vx, [I]. */
    method ExecuteMemory(i: Instruction) returns (r: Result<(), Fault>)
      requires Valid() && WellFormed(i) && IsMemoryOp(i)
      modifies memory, v
      ensures Valid()
      ensures (r, Abs()) == Outcome(old(Abs()), MemoryOp(old(Abs()), i))
    {
      r := Ok(());
      match i {
        case LDBVx(x) =>
          if index + 3 > MEMORY_SIZE {
            r := Err(MemoryOutOfBounds);
          } else {
            var value := v[x];
            memory[index] := value / 100;
            memory[index + 1] := (value % 100) / 10;
            memory[index + 2] := value % 10;
          }
        case LDIVx(x) =>
          if index + x + 1 > MEMORY_SIZE {
            r := Err(MemoryOutOfBounds);
          } else {
            StoreRegisterFile(x);
          }
        case LDVxMem(x) =>
          if index + x + 1 > MEMORY_SIZE {
            r := Err(MemoryOutOfBounds);
          } else {
            LoadRegisterFile(x);
          }
      }
    }

    /** The loop of LD [I], Vx: V0..Vx copied to memory from `index`. */
    method StoreRegisterFile(x: nat)
      requires Sized() && x < REGISTER_COUNT && index + x + 1 <= MEMORY_SIZE
      modifies memory
      ensures memory[..] == StoreRegisters(old(memory[..]), index, v[..], x)
    {
      for k := 0 to x + 1
        invariant forall a :: 0 <= a < MEMORY_SIZE ==>
          memory[a] == if index <= a < index + k then v[a - index] else old(memory[a])
      {
        memory[index + k] := v[k];
      }
      assert memory[..] == StoreRegisters(old(memory[..]), index, v[..], x);
    }

    /** The loop of LD Vx, [I]: V0..Vx loaded from memory at `index`. */
    method LoadRegisterFile(x: nat)
      requires Sized() && x < REGISTER_COUNT && index + x + 1 <= MEMORY_SIZE
      modifies v
      ensures v[..] == LoadRegisters(old(v[..]), memory[..], index, x)
    {
      for k := 0 to x + 1
        invariant forall r :: 0 <= r < REGISTER_COUNT ==>
          v[r] == if r < k then memory[index + r] else old(v[r])
      {
        v[k] := memory[index + k];
      }
      assert v[..] == LoadRegisters(old(v[..]), memory[..], index, x);
    }

    /** CLS and DRW. */
    method ExecuteScreen(i: Instruction) returns (r: Result<(), Fault>)
      requires Valid() && WellFormed(i) && IsScreenOp(i)
      modifies this, screen, v
      ensures Valid()
      ensures (r, Abs()) == Outcome(old(Abs()), ScreenOp(old(Abs()), i))
    {
      r := Ok(());
      match i {
        case CLS => ClearScreen();
        case DRWVxVyNibble(x, y, n) =>
          if n > 0 && index + n > MEMORY_SIZE {
            r := Err(MemoryOutOfBounds);
          } else {
            DrawSprite(x, y, n);
          }
      }
    }

    /** CLS: every pixel off. */
    method ClearScreen()
      requires Valid()
      modifies this, screen
      ensures Valid()
      ensures Abs() == old(Abs()).(screen := BlankScreen())
    {
      forall r, c | 0 <= r < SCREEN_HEIGHT && 0 <= c < SCREEN_WIDTH {
        screen[r, c] := false;
      }
      pixels := BlankScreen();
    }

    /** `*pixel ^= true` at `p`, and whether the pixel is now on. */
    method TogglePixel(p: Pos, ghost g: Screen) returns (lit: bool)
      requires Sized() && OnScreen(p) && Shows(g)
      modifies screen
      ensures Shows(Toggle(g, p))
      ensures lit == screen[p.row, p.col]
    {
      screen[p.row, p.col] := !screen[p.row, p.col];
      lit := screen[p.row, p.col];
    }

    /**
     * One pass of the `for col` loop of `draw_sprite`: toggles the pixels of
     * sprite row `row` and carries the collision latch along, from frame `f`.
     */
    method DrawRow(x: nat, y: nat, row: nat, byte: Byte, latch: bool, ghost f: Frame)
      returns (collision: bool)
      requires Sized() && x < REGISTER_COUNT && y < REGISTER_COUNT
      requires Shows(f.pixels) && latch == f.collision
      modifies screen
      ensures Shows(DrawBits(f, v[x], v[y], row, byte, 8).pixels)
      ensures collision == DrawBits(f, v[x], v[y], row, byte, 8).collision
    {
      collision := latch;
      ghost var cur := f;
      for col := 0 to 8
        invariant cur == DrawBits(f, v[x], v[y], row, byte, col)
        invariant Shows(cur.pixels) && collision == cur.collision
      {
        if SpriteBit(byte, col) {
          var p := Pos(Clamp(v[y] as int + row, SCREEN_HEIGHT - 1), Clamp(v[x] as int + col, SCREEN_WIDTH - 1));
          var lit := TogglePixel(p, cur.pixels);
          collision := if lit then true else collision;
          cur := Flip(cur, p);
        }
      }
    }

    /** `draw_sprite`: XOR `n` sprite rows from `index` at (Vx, Vy), then VF = the collision latch. */
    method DrawSprite(x: nat, y: nat, n: nat)
      requires Valid() && x < REGISTER_COUNT && y < REGISTER_COUNT
      requires n == 0 || index + n <= MEMORY_SIZE
      modifies this, screen, v
      ensures Valid()
      ensures Abs() == Draw(old(Abs()), x, y, n)
    {
      ghost var g := pixels;
      ghost var sprite := Sprite(Abs(), n);
      var collision := false;
      for row := 0 to n
        modifies screen
        invariant Shows(DrawRows(g, v[x], v[y], sprite[..row]).pixels)
        invariant collision == DrawRows(g, v[x], v[y], sprite[..row]).collision
      {
        var byte := memory[index + row];
        assert byte == sprite[row];
        collision := DrawRow(x, y, row, byte, collision, DrawRows(g, v[x], v[y], sprite[..row]));
        DrawRowsSnoc(g, v[x], v[y], sprite, row);
      }
      assert sprite[..n] == sprite;
      pixels := DrawRows(g, v[x], v[y], sprite).pixels;
      v[FLAG] := if collision then 1 else 0;
    }
  }
}
