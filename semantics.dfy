/**
 * Reference semantics of the CHIP-8 machine of src/chip8.rs as pure
 * functions on a machine-state value. The class in chip8.dfy runs the same
 * machine on arrays and is proved to agree with these functions; the
 * lemmas at the end of this module state what the functions promise.
 *
 * Where the Rust code panics (an index out of bounds, a `usize`
 * underflow, `unwrap` on an empty stack, `todo!()`) these functions return
 * `Err` with the reason instead.
 */
module Semantics {
  import opened Bytes
  import opened Instructions

  const SCREEN_WIDTH: nat := 64
  const SCREEN_HEIGHT: nat := 32
  const MEMORY_SIZE: nat := 0x1000
  const PROGRAM_START: nat := 0x200
  /** Length of the built-in hexadecimal font, five bytes per digit. */
  const FONT_SIZE: nat := 80
  const REGISTER_COUNT: nat := 16
  const KEY_COUNT: nat := 16
  /** Index of the flag register VF. */
  const FLAG: nat := 0xF

  /** The 4 KB memory. */
  type Memory = m: seq<Byte> | |m| == MEMORY_SIZE witness seq(0x1000, _ => 0)

  /** The registers V0..VF. */
  type Registers = v: seq<Byte> | |v| == REGISTER_COUNT witness seq(16, _ => 0)

  /** The key pad, one flag per key 0x0..0xF. */
  type Keypad = k: seq<bool> | |k| == KEY_COUNT witness seq(16, _ => false)

  /** Rows of pixels, `screen[row][col]`, as in the source's `Screen`: 32 rows of 64. */
  type Screen = g: seq<seq<bool>> | ValidScreen(g) witness seq(32, _ => seq(64, _ => false))

  predicate ValidScreen(g: seq<seq<bool>>)
  {
    |g| == SCREEN_HEIGHT && forall r :: 0 <= r < |g| ==> |g[r]| == SCREEN_WIDTH
  }

  datatype Result<T, E> = Ok(value: T) | Err(error: E)

  /** The reasons the Rust code panics while running a program. */
  datatype Fault =
    | Unimplemented      // `todo!()` for SYS and LD Vx, K
    | StackUnderflow     // `pop().unwrap()` on an empty stack
    | AddressUnderflow   // `nnn - 2` below zero
    | MemoryOutOfBounds  // a memory index at or past 0x1000
    | KeyOutOfRange      // `keys[V[x]]` with V[x] at least 16

  /** The reason `load_file` rejects a program. */
  datatype LoadError = FileTooLarge

  /** The observable fields of `Chip8`; the array sizes are in the field types. */
  datatype State = State(
    memory: Memory,
    pc: nat,
    index: nat,
    stack: seq<nat>,
    dt: Byte,
    st: Byte,
    v: Registers,
    screen: Screen,
    keys: Keypad,
    paused: bool)

  function BlankScreen(): (g: Screen)
    ensures forall r, c :: 0 <= r < SCREEN_HEIGHT && 0 <= c < SCREEN_WIDTH ==> !g[r][c]
  {
    seq(SCREEN_HEIGHT, _ => seq(SCREEN_WIDTH, _ => false))
  }

  /** `Chip8::new`: zeroed machine with the font at address 0 and `pc` at 0x200. */
  function New(font: seq<Byte>): (s: State)
    requires |font| == FONT_SIZE
    ensures s.pc == PROGRAM_START && s.index == 0 && s.stack == [] && s.dt == 0 && s.st == 0
    ensures s.memory[..FONT_SIZE] == font
    ensures forall a :: FONT_SIZE <= a < MEMORY_SIZE ==> s.memory[a] == 0
    ensures forall r :: 0 <= r < REGISTER_COUNT ==> s.v[r] == 0
    ensures forall k :: 0 <= k < KEY_COUNT ==> !s.keys[k]
    ensures s.screen == BlankScreen() && !s.paused
  {
    State(font + seq(MEMORY_SIZE - FONT_SIZE, _ => 0), PROGRAM_START, 0, [], 0, 0,
          seq(REGISTER_COUNT, _ => 0), BlankScreen(), seq(KEY_COUNT, _ => false), false)
  }

  /**
   * The size check and copy of `load_file`: a program longer than
   * 0x1000 - 0x200 bytes is rejected, otherwise it is placed at 0x200.
   */
  function LoadProgram(s: State, data: seq<Byte>): (r: Result<State, LoadError>)
    ensures r.Ok? <==> |data| <= MEMORY_SIZE - PROGRAM_START
    ensures r.Ok? ==> r.value.memory[PROGRAM_START..PROGRAM_START + |data|] == data
    ensures r.Ok? ==> forall a :: 0 <= a < MEMORY_SIZE && !(PROGRAM_START <= a < PROGRAM_START + |data|)
                        ==> r.value.memory[a] == s.memory[a]
    ensures r.Ok? ==> r.value == s.(memory := r.value.memory)
  {
    if |data| > MEMORY_SIZE - PROGRAM_START then Err(FileTooLarge)
    else
      var end := PROGRAM_START + |data|;
      Ok(s.(memory := s.memory[..PROGRAM_START] + data + s.memory[end..]))
  }

  /** `update_timers`: each timer counts down by one and stops at zero. */
  function Tick(s: State): (t: State)
    ensures t.dt == if s.dt > 0 then s.dt - 1 else 0
    ensures t.st == if s.st > 0 then s.st - 1 else 0
    ensures t == s.(dt := t.dt, st := t.st)
  {
    s.(dt := if s.dt > 0 then s.dt - 1 else 0, st := if s.st > 0 then s.st - 1 else 0)
  }

  /** The big-endian opcode at `pc`. */
  function Fetch(s: State): Word
    requires s.pc + 1 < MEMORY_SIZE
  {
    s.memory[s.pc] as int * 0x100 + s.memory[s.pc + 1]
  }

  /**
   * What a step from `s` leaves behind: `Ok` and the new state, or the
   * fault and `s` itself.
   */
  function Outcome(s: State, r: Result<State, Fault>): (Result<(), Fault>, State)
  {
    if r.Ok? then (Ok(()), r.value) else (Err(r.error), s)
  }

  /**
   * `run_cycle`: nothing while paused; otherwise fetch (which faults when
   * `pc + 1` is past the memory), decode and run one cycle.
   */
  function RunCycle(s: State, rnd: Byte): (r: Result<State, Fault>)
  {
    if s.paused then Ok(s)
    else if s.pc + 1 >= MEMORY_SIZE then Err(MemoryOutOfBounds)
    else Cycle(s, FromOpcode(Fetch(s)), rnd)
  }

  /** One cycle on a decoded instruction: execute, count the timers down, step `pc` by 2. */
  function Cycle(s: State, i: Instruction, rnd: Byte): (r: Result<State, Fault>)
    requires WellFormed(i)
  {
    Finish(Execute(s, i, rnd))
  }

  /** What follows `execute_instruction` in `run_cycle`, unless it faulted. */
  function Finish(e: Result<State, Fault>): Result<State, Fault>
  {
    match e
    case Err(f) => Err(f)
    case Ok(t) => var u := Tick(t); Ok(u.(pc := u.pc + 2))
  }

  /** `update_controls` with the processed key pad and pause toggle as inputs. */
  function UpdateControls(s: State, keys: Keypad, togglePause: bool): (t: State)
    ensures t.keys == keys
    ensures t.paused == (s.paused != togglePause)
    ensures t == s.(keys := t.keys, paused := t.paused)
  {
    s.(keys := keys, paused := if togglePause then !s.paused else s.paused)
  }

  /** `pc += 2` when a skip condition holds. */
  function SkipIf(s: State, cond: bool): State
  {
    s.(pc := s.pc + if cond then 2 else 0)
  }

  /** The register instructions of family 0x8. */
  predicate IsAlu(i: Instruction)
  {
    || i.LDVxVy? || i.ORVxVy? || i.ANDVxVy? || i.XORVxVy? || i.ADDVxVy?
    || i.SUBVxVy? || i.SHRVx? || i.SUBNVxVy? || i.SHLVx?
  }

  /** The registers after an instruction of family 0x8. */
  function Alu(v: Registers, i: Instruction): Registers
    requires IsAlu(i) && WellFormed(i)
  {
    match i
    case LDVxVy(x, y) => v[x := v[y]]
    case ORVxVy(x, y) => v[x := Or(v[x], v[y])]
    case ANDVxVy(x, y) => v[x := And(v[x], v[y])]
    case XORVxVy(x, y) => v[x := Xor(v[x], v[y])]
    case ADDVxVy(x, y) => AddRegisters(v, x, y)
    case SUBVxVy(x, y) => SubRegisters(v, x, y)
    case SHRVx(x) => ShrRegister(v, x)
    case SUBNVxVy(x, y) => SubnRegisters(v, x, y)
    case SHLVx(x) => ShlRegister(v, x)
  }

  /** ADD Vx, Vy: the 9-bit sum is taken first, then VF = carry, then Vx = low byte. */
  function AddRegisters(v: Registers, x: nat, y: nat): Registers
    requires x < REGISTER_COUNT && y < REGISTER_COUNT
  {
    var sum := v[x] as int + v[y];
    v[FLAG := if sum > 255 then 1 else 0][x := sum % 0x100]
  }

  /** SUB Vx, Vy: VF = (Vx > Vy) is written, then Vx = Vx - Vy on the updated registers. */
  function SubRegisters(v: Registers, x: nat, y: nat): Registers
    requires x < REGISTER_COUNT && y < REGISTER_COUNT
  {
    var u := v[FLAG := if v[x] > v[y] then 1 else 0];
    u[x := (u[x] as int - u[y]) % 0x100]
  }

  /** SUBN Vx, Vy: VF = (Vy > Vx) is written, then Vx = Vy - Vx on the updated registers. */
  function SubnRegisters(v: Registers, x: nat, y: nat): Registers
    requires x < REGISTER_COUNT && y < REGISTER_COUNT
  {
    var u := v[FLAG := if v[y] > v[x] then 1 else 0];
    u[x := (u[y] as int - u[x]) % 0x100]
  }

  /** SHR Vx: VF = Vx & 1 is written, then Vx is halved. */
  function ShrRegister(v: Registers, x: nat): Registers
    requires x < REGISTER_COUNT
  {
    var u := v[FLAG := And(v[x], 1)];
    u[x := u[x] / 2]
  }

  /** SHL Vx: VF = Vx & 1 (bit 0, as written) is written, then Vx is doubled modulo 256. */
  function ShlRegister(v: Registers, x: nat): Registers
    requires x < REGISTER_COUNT
  {
    var u := v[FLAG := And(v[x], 1)];
    u[x := (u[x] as int * 2) % 0x100]
  }

  /** LD B, Vx: hundreds, tens and units of `value` at `at`, `at + 1`, `at + 2`. */
  function StoreBcd(mem: Memory, at: nat, value: Byte): Memory
    requires at + 3 <= MEMORY_SIZE
  {
    mem[at := value / 100][at + 1 := (value % 100) / 10][at + 2 := value % 10]
  }

  /** LD [I], Vx: V0..Vx stored at `at`..`at + x`. */
  function StoreRegisters(mem: Memory, at: nat, v: Registers, x: nat): Memory
    requires x < REGISTER_COUNT && at + x + 1 <= MEMORY_SIZE
  {
    mem[..at] + v[..x + 1] + mem[at + x + 1..]
  }

  /** LD Vx, [I]: V0..Vx loaded from `at`..`at + x`. */
  function LoadRegisters(v: Registers, mem: Memory, at: nat, x: nat): Registers
    requires x < REGISTER_COUNT && at + x + 1 <= MEMORY_SIZE
  {
    mem[at..at + x + 1] + v[x + 1..]
  }

  /** SYS, RET, the jumps and the call: they change `pc` and `stack` only. */
  predicate IsJump(i: Instruction)
  {
    i.SYS? || i.RET? || i.JP? || i.CALL? || i.JP0?
  }

  /** The conditional skips. */
  predicate IsSkip(i: Instruction)
  {
    || i.SEVxByte? || i.SNEVxByte? || i.SEVxVy? || i.SNEVxVy? || i.SKPVx? || i.SKNPVx?
  }

  /** The instructions that write only V registers. */
  predicate IsRegisterOp(i: Instruction)
  {
    i.LDVxByte? || i.ADDVxByte? || i.RNDVxByte? || i.LDVxDT? || IsAlu(i)
  }

  /** The instructions on the timers and the index register. */
  predicate IsTimerOrIndex(i: Instruction)
  {
    i.LDVxK? || i.LDDTVx? || i.LDSTVx? || i.ADDIVx? || i.LDFVx? || i.LDI?
  }

  /** The instructions that address memory through the index register. */
  predicate IsMemoryOp(i: Instruction)
  {
    i.LDBVx? || i.LDIVx? || i.LDVxMem?
  }

  /** The instructions that change the screen. */
  predicate IsScreenOp(i: Instruction)
  {
    i.CLS? || i.DRWVxVyNibble?
  }

  /** Jumps, call and return. Jumps and calls store `nnn - 2` to make up for the cycle's `pc += 2`. */
  function Jump(s: State, i: Instruction): Result<State, Fault>
    requires WellFormed(i) && IsJump(i)
  {
    match i
    case SYS(_) => Err(Unimplemented)
    case RET =>
      if |s.stack| == 0 then Err(StackUnderflow)
      else Ok(s.(pc := s.stack[|s.stack| - 1], stack := s.stack[..|s.stack| - 1]))
    case JP(nnn) => if nnn < 2 then Err(AddressUnderflow) else Ok(s.(pc := nnn - 2))
    case CALL(nnn) =>
      if nnn < 2 then Err(AddressUnderflow)
      else Ok(s.(stack := s.stack + [s.pc], pc := nnn - 2))
    case JP0(nnn) => Ok(s.(pc := nnn + s.v[0]))
  }

  /** SKP and SKNP index the key pad with V[x], which faults from 16 on. */
  predicate KeyFault(s: State, i: Instruction)
    requires WellFormed(i) && IsSkip(i)
  {
    (i.SKPVx? || i.SKNPVx?) && s.v[i.x] >= KEY_COUNT
  }

  /** Whether a skip instruction skips. */
  predicate SkipTaken(s: State, i: Instruction)
    requires WellFormed(i) && IsSkip(i) && !KeyFault(s, i)
  {
    match i
    case SEVxByte(x, kk) => s.v[x] == kk
    case SNEVxByte(x, kk) => s.v[x] != kk
    case SEVxVy(x, y) => s.v[x] == s.v[y]
    case SNEVxVy(x, y) => s.v[x] != s.v[y]
    case SKPVx(x) => s.keys[s.v[x]]
    case SKNPVx(x) => !s.keys[s.v[x]]
  }

  /** The skips: `pc += 2` when the condition holds. */
  function Skip(s: State, i: Instruction): Result<State, Fault>
    requires WellFormed(i) && IsSkip(i)
  {
    if KeyFault(s, i) then Err(KeyOutOfRange) else Ok(SkipIf(s, SkipTaken(s, i)))
  }

  /** The registers after a register instruction; `rnd` is the random byte, `dt` the delay timer. */
  function RegisterOp(v: Registers, i: Instruction, rnd: Byte, dt: Byte): Registers
    requires WellFormed(i) && IsRegisterOp(i)
  {
    if IsAlu(i) then Alu(v, i)
    else
      match i
      case LDVxByte(x, kk) => v[x := kk]
      case ADDVxByte(x, kk) => v[x := (v[x] as int + kk) % 0x100]
      case RNDVxByte(x, kk) => v[x := And(rnd, kk)]
      case LDVxDT(x) => v[x := dt]
  }

  /** The timer and index instructions; LD Vx, K is `todo!()` in the source. */
  function TimerOrIndex(s: State, i: Instruction): Result<State, Fault>
    requires WellFormed(i) && IsTimerOrIndex(i)
  {
    match i
    case LDVxK(_) => Err(Unimplemented)
    case LDDTVx(x) => Ok(s.(dt := s.v[x]))
    case LDSTVx(x) => Ok(s.(st := s.v[x]))
    case ADDIVx(x) => Ok(s.(index := s.index + s.v[x]))
    case LDFVx(x) => Ok(s.(index := s.v[x] as int * 5))
    case LDI(nnn) => Ok(s.(index := nnn))
  }

  /** The memory instructions; each faults when a cell it writes or reads is past 0xFFF. */
  function MemoryOp(s: State, i: Instruction): Result<State, Fault>
    requires WellFormed(i) && IsMemoryOp(i)
  {
    match i
    case LDBVx(x) =>
      if s.index + 3 > MEMORY_SIZE then Err(MemoryOutOfBounds)
      else Ok(s.(memory := StoreBcd(s.memory, s.index, s.v[x])))
    case LDIVx(x) =>
      if s.index + x + 1 > MEMORY_SIZE then Err(MemoryOutOfBounds)
      else Ok(s.(memory := StoreRegisters(s.memory, s.index, s.v, x)))
    case LDVxMem(x) =>
      if s.index + x + 1 > MEMORY_SIZE then Err(MemoryOutOfBounds)
      else Ok(s.(v := LoadRegisters(s.v, s.memory, s.index, x)))
  }

  /** CLS and DRW; drawing faults when a sprite row lies past 0xFFF. */
  function ScreenOp(s: State, i: Instruction): Result<State, Fault>
    requires WellFormed(i) && IsScreenOp(i)
  {
    match i
    case CLS => Ok(s.(screen := BlankScreen()))
    case DRWVxVyNibble(x, y, n) =>
      if n > 0 && s.index + n > MEMORY_SIZE then Err(MemoryOutOfBounds)
      else Ok(Draw(s, x, y, n))
  }

  /**
   * `execute_instruction`, before the timers and the `pc += 2` of the
   * cycle, by instruction group; an unknown opcode does nothing.
   */
  function Execute(s: State, i: Instruction, rnd: Byte): (r: Result<State, Fault>)
    requires WellFormed(i)
  {
    if IsJump(i) then Jump(s, i)
    else if IsSkip(i) then Skip(s, i)
    else if IsRegisterOp(i) then Ok(s.(v := RegisterOp(s.v, i, rnd, s.dt)))
    else if IsTimerOrIndex(i) then TimerOrIndex(s, i)
    else if IsMemoryOp(i) then MemoryOp(s, i)
    else if IsScreenOp(i) then ScreenOp(s, i)
    else Ok(s)
  }

  // ---------------------------------------------------------------- drawing

  /** A screen coordinate. */
  datatype Pos = Pos(row: nat, col: nat)

  predicate OnScreen(p: Pos)
  {
    p.row < SCREEN_HEIGHT && p.col < SCREEN_WIDTH
  }

  /** `usize::clamp(a, 0, hi)`. */
  function Clamp(a: nat, hi: nat): nat
  {
    if a > hi then hi else a
  }

  /** The pixel that sprite bit (`row`, `col`) lands on: coordinates clamp at the edges. */
  function Target(vx: Byte, vy: Byte, row: nat, col: nat): (p: Pos)
    ensures OnScreen(p)
  {
    Pos(Clamp(vy + row, SCREEN_HEIGHT - 1), Clamp(vx + col, SCREEN_WIDTH - 1))
  }

  /** The pixels toggled by the first `cols` bits of sprite row `row`, in loop order. */
  function RowToggles(vx: Byte, vy: Byte, row: nat, b: Byte, cols: nat): (ts: seq<Pos>)
    requires cols <= 8
    ensures |ts| <= cols
    ensures forall k :: 0 <= k < |ts| ==> OnScreen(ts[k]) && ts[k].row == Clamp(vy + row, SCREEN_HEIGHT - 1)
  {
    if cols == 0 then []
    else
      RowToggles(vx, vy, row, b, cols - 1)
      + (if SpriteBit(b, cols - 1) then [Target(vx, vy, row, cols - 1)] else [])
  }

  /** The pixels toggled by a whole sprite, row by row, in loop order. */
  function SpriteToggles(vx: Byte, vy: Byte, sprite: seq<Byte>): (ts: seq<Pos>)
    ensures |ts| <= 8 * |sprite|
    ensures forall k :: 0 <= k < |ts| ==> OnScreen(ts[k])
  {
    if sprite == [] then []
    else
      var row := |sprite| - 1;
      SpriteToggles(vx, vy, sprite[..row]) + RowToggles(vx, vy, row, sprite[row], 8)
  }

  /** `*pixel ^= true` at `p`. */
  function Toggle(g: Screen, p: Pos): (h: Screen)
    requires OnScreen(p)
  {
    g[p.row := g[p.row][p.col := !g[p.row][p.col]]]
  }

  /** The screen after the toggles `ts`, applied in order. */
  function Redraw(g: Screen, ts: seq<Pos>): (h: Screen)
    requires forall k :: 0 <= k < |ts| ==> OnScreen(ts[k])
  {
    if ts == [] then g else Toggle(Redraw(g, ts[..|ts| - 1]), ts[|ts| - 1])
  }

  /** The collision latch after the toggles `ts`: set once a toggle leaves its pixel on. */
  predicate Latched(g: Screen, ts: seq<Pos>)
    requires forall k :: 0 <= k < |ts| ==> OnScreen(ts[k])
  {
    if ts == [] then false
    else
      var last := ts[|ts| - 1];
      Latched(g, ts[..|ts| - 1]) || Redraw(g, ts)[last.row][last.col]
  }

  /** The pixels and the collision latch while `draw_sprite` runs. */
  datatype Frame = Frame(pixels: Screen, collision: bool)

  /** One set sprite bit: toggle the pixel at `p`, and latch if it is now on. */
  function Flip(f: Frame, p: Pos): Frame
    requires OnScreen(p)
  {
    var pixels := Toggle(f.pixels, p);
    Frame(pixels, if pixels[p.row][p.col] then true else f.collision)
  }

  /** The `for col` loop over the first `cols` bits of sprite row `row`, from frame `f`. */
  function DrawBits(f: Frame, vx: Byte, vy: Byte, row: nat, b: Byte, cols: nat): Frame
    requires cols <= 8
  {
    if cols == 0 then f
    else if SpriteBit(b, cols - 1) then Flip(DrawBits(f, vx, vy, row, b, cols - 1), Target(vx, vy, row, cols - 1))
    else DrawBits(f, vx, vy, row, b, cols - 1)
  }

  /** The `for row` loop over a whole sprite, from screen `g` with the latch clear. */
  function DrawRows(g: Screen, vx: Byte, vy: Byte, sprite: seq<Byte>): Frame
  {
    if sprite == [] then Frame(g, false)
    else
      var row := |sprite| - 1;
      DrawBits(DrawRows(g, vx, vy, sprite[..row]), vx, vy, row, sprite[row], 8)
  }

  /** The sprite `draw_sprite` reads: `n` bytes from `index`. */
  function Sprite(s: State, n: nat): seq<Byte>
    requires n == 0 || s.index + n <= MEMORY_SIZE
  {
    if n == 0 then [] else s.memory[s.index..s.index + n]
  }

  /** DRW Vx, Vy, n: XOR the sprite at (Vx, Vy), then VF = the collision latch. */
  function Draw(s: State, x: nat, y: nat, n: nat): State
    requires x < REGISTER_COUNT && y < REGISTER_COUNT
    requires n == 0 || s.index + n <= MEMORY_SIZE
  {
    var f := DrawRows(s.screen, s.v[x], s.v[y], Sprite(s, n));
    s.(screen := f.pixels, v := s.v[FLAG := if f.collision then 1 else 0])
  }
}

