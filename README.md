# chip8-rs virtual machine core in Dafny

This project models the core of chip8-rs, a CHIP-8 interpreter written in Rust. It has two parts:

- **The opcode decoder.** `Instruction::from_opcode` (src/chip8/instruction.rs) is a pure function. It maps a 16-bit opcode to one of 35 instructions or to `Unknown`.
- **The machine.** The `Chip8` struct (src/chip8.rs) has:
  - 4 KB of memory;
  - the program counter, the index register and a call stack;
  - the delay and sound timers and the sixteen registers V0..VF;
  - a 64×32 monochrome screen, a 16-key pad and a pause flag.

  Its methods create a machine, load a program and run one fetch–decode–execute cycle. They also count the timers down, update the keys and pause flag, and draw sprites.

The project has seven modules:

- `Bytes` (bytes.dfy): `u8` and `u16` values as bounded integers. The bitwise operators `&`, `|` and `^` are defined bit by bit.
- `Instructions` (instruction.dfy): the instruction datatype and the decoder. An encoder built from the same bit fields shows that decoding loses nothing but the bits the decoder ignores.
- `Semantics` (semantics.dfy): the reference semantics. These are pure functions on a `State` value, with one function per operation and per instruction group. A Rust panic becomes an `Err(Fault)` result.
- `Chip8` (chip8.dfy): the machine as a class.
  - Memory and the registers are arrays of bytes; the screen is a two-dimensional array of booleans.
  - The other fields are updated in place.
  - Each method is proved to move the abstract state `Abs()` exactly as the matching `Semantics` function says.
  - The register copies are loops with invariants, and so is the nested row/column loop of `draw_sprite`.
- `Drawing` (drawing.dfy): what a sprite draw does to the screen and to VF.
- `Execution` (execution.dfy): when and why an instruction fails, what each instruction may change, where control goes, the timers and the fetch.
- `Arithmetic` (arithmetic.dfy): carries, borrows, shifts, the decimal store and the register-file copies.

The model reproduces these behaviours of the code as written:

- JP and CALL store `nnn - 2`. This makes up for the `pc += 2` at the end of the cycle.
- JP V0 stores `nnn + V0` with no `- 2`, so it lands two bytes past its target.
- CALL pushes the address of the CALL instruction itself.
- SHL puts bit 0 of the register into VF, not the bit shifted out.
- SUB, SUBN, SHR and SHL write VF before they compute the result, so an operand VF is read after it has changed. ADD computes its sum first.
- SUB sets VF only when `Vx > Vy` strictly.
- LD F, Vx uses the whole register value, setting I to `5 * Vx`.
- The decoder ignores the low nibble of `5xyN`/`9xyN` and the `y` nibble of `8xy6`/`8xyE`.
- Sprite coordinates are clamped to the last row and column rather than wrapped, so several sprite bits can toggle the same edge pixel.
- The collision latch is set as soon as a toggle leaves a pixel on. So VF reports a pixel that was lit (turned on), and a later toggle that turns it off again does not clear the latch.

## Model

| member | source | states |
|---|---|---|
| Instructions.FromOpcode | src/chip8/instruction.rs:43-104 | Every 16-bit opcode decodes to exactly one instruction. Its operands are in range: registers below 16, addresses below 0x1000, a DRW height below 16. |
| Instructions.FieldPositions | src/chip8/instruction.rs:46-50 | Each operand is read from its fixed field: `x` from bits 8-11, `y` from bits 4-7, `kk` from the low byte, `nnn` from the low 12 bits, `n` from the low nibble. |
| Instructions.OperandNibbles | src/chip8/instruction.rs:46-84 | On nibbles: each operand of the decoded instruction is the nibble, byte or 12-bit field it comes from. |
| Instructions.FieldMasks | src/chip8/instruction.rs:49-50 | `kk` is `opcode & 0xFF` and `nnn` is `opcode & 0xFFF`. |
| Instructions.FamilyZero | src/chip8/instruction.rs:53-57 | In family 0x0, `00E0` is CLS, `00EE` is RET and every other `0nnn` is `SYS nnn`. |
| Instructions.UnknownIffUndefined | src/chip8/instruction.rs:65-102 | The decoder gives `Unknown` exactly on the undefined encodings. These are the family-0x8 low nibbles 8, 9, A, B, C, D and F, and the unlisted low bytes of families 0xE and 0xF. |
| Instructions.ShiftsIgnoreY | src/chip8/instruction.rs:74-76 | `8xy6` and `8xyE` decode to SHR Vx and SHL Vx whatever `y` is. |
| Instructions.RegisterComparesIgnoreN | src/chip8/instruction.rs:62-80 | `5xyN` and `9xyN` decode to SE Vx, Vy and SNE Vx, Vy whatever `N` is. |
| Instructions.DecodeEncode | src/chip8/instruction.rs:46-101 | Decoding the encoding of an instruction gives that instruction back. This holds for every defined instruction with in-range operands except `SYS 0E0` and `SYS 0EE`. |
| Instructions.SysAliases | src/chip8/instruction.rs:53-57 | `SYS 0E0` and `SYS 0EE` encode to the opcodes of CLS and RET, and decode as those. |
| Instructions.EncodeDecode | src/chip8/instruction.rs:46-101 | Re-encoding a decoded opcode gives back the opcode with the ignored bits cleared. So those bits are all the decoder discards. |
| Instructions.DecodeExamples | src/chip8/instruction.rs:54-63 | `0x6A3C` decodes to LD VA, 0x3C and `0x00E0` decodes to CLS. |
| Semantics.New | src/chip8.rs:44-65 | A new machine has the font at addresses 0..79 and zeroes elsewhere. `pc` is 0x200; the index, stack, timers and registers are zero or empty. The screen is blank, no key is down and the machine is not paused. |
| Semantics.LoadProgram | src/chip8.rs:72-80 | A program fails to load iff it is longer than 0x1000 - 0x200 bytes. Otherwise it is placed at 0x200, and every other cell and every other field is unchanged. |
| Semantics.Tick | src/chip8.rs:149-152 | Each timer counts down by one and stops at zero; nothing else changes. |
| Semantics.UpdateControls | src/chip8.rs:116-122 | The key pad is replaced and the pause flag is flipped iff a toggle was requested; nothing else changes. |
| Semantics.Target | src/chip8.rs:137-138 | A sprite bit's pixel, with its coordinates clamped, is always on the screen. |
| Semantics.SpriteToggles | src/chip8.rs:132-143 | A sprite toggles at most 8 pixels per row, all of them on the screen. |
| Semantics.BlankScreen | src/chip8.rs:158 | The cleared screen has every pixel off. |
| Chip8.Chip8.constructor | src/chip8.rs:44-65 | The new object's abstract state is `New(font)`, and its arrays are fresh. |
| Chip8.Chip8.LoadFile | src/chip8.rs:67-84 | The method succeeds or fails exactly as `LoadProgram` does. On success memory is written in place; on failure nothing changes. |
| Chip8.Chip8.UpdateTimers | src/chip8.rs:149-152 | The timer fields move as `Tick` says. |
| Chip8.Chip8.UpdateControls | src/chip8.rs:116-122 | The key and pause fields move as `UpdateControls` says. |
| Chip8.Chip8.RunCycle | src/chip8.rs:86-100 | The method does nothing while paused. Otherwise it fetches the big-endian opcode at `pc`, decodes it and runs the cycle. The result and the new state are those of `Semantics.RunCycle`; a fault leaves the state unchanged. |
| Chip8.Chip8.Step | src/chip8.rs:97-99 | The method executes, counts the timers down and adds 2 to `pc`, as `Cycle` says. |
| Chip8.Chip8.FinishCycle | src/chip8.rs:98-99 | After an instruction that did not fault, the timers count down and `pc` moves on by 2, as `Finish` says. |
| Chip8.Chip8.ExecuteInstruction | src/chip8.rs:154-226 | Each instruction changes the object exactly as `Execute` says, or reports its fault. |
| Chip8.Chip8.ExecuteJump | src/chip8.rs:157-197 | SYS, RET, JP, CALL and JP V0 update `pc` and the stack as `Jump` says. |
| Chip8.Chip8.ExecuteSkip | src/chip8.rs:165-201 | The six skips add 2 to `pc` iff their condition holds. A key index of 16 or more faults. |
| Chip8.Chip8.ExecuteRegisters | src/chip8.rs:168-202 | The register array becomes `RegisterOp` of the old registers: LD, ADD kk, RND with the given random byte, LD Vx, DT and the family-0x8 instructions. |
| Chip8.Chip8.ExecuteAlu | src/chip8.rs:170-194 | The family-0x8 instructions leave the registers as `Alu` says. |
| Chip8.Chip8.ExecuteLogic | src/chip8.rs:170-173 | LD, OR, AND and XOR on two registers leave the registers as `Alu` says. |
| Chip8.Chip8.ExecuteArithmetic | src/chip8.rs:174-194 | ADD, SUB, SUBN, SHR and SHL perform their writes in the source's order and leave the registers as `Alu` says. |
| Chip8.Chip8.ExecuteTimerOrIndex | src/chip8.rs:196-207 | LD I, LD DT, LD ST, ADD I and LD F update their field. LD Vx, K faults as unimplemented. |
| Chip8.Chip8.ExecuteMemory | src/chip8.rs:208-223 | LD B, LD [I] and LD Vx, [I] write memory or the registers as `MemoryOp` says. A cell past 0xFFF faults. |
| Chip8.Chip8.StoreRegisterFile | src/chip8.rs:214-218 | The copy loop leaves memory equal to `StoreRegisters`, that is V0..Vx at I..I+x. |
| Chip8.Chip8.LoadRegisterFile | src/chip8.rs:219-223 | The copy loop leaves the registers equal to `LoadRegisters`, that is cells I..I+x in V0..Vx. |
| Chip8.Chip8.ExecuteScreen | src/chip8.rs:158-199 | CLS and DRW change the screen and VF as `ScreenOp` says. The sprite read faults past 0xFFF. |
| Chip8.Chip8.ClearScreen | src/chip8.rs:158 | Every pixel is cleared and nothing else changes. |
| Chip8.Chip8.TogglePixel | src/chip8.rs:139-141 | One pixel is flipped, and its new value is returned. |
| Chip8.Chip8.DrawRow | src/chip8.rs:135-143 | The column loop leaves the screen and latch that `DrawBits` gives for the row. |
| Chip8.Chip8.DrawSprite | src/chip8.rs:129-147 | The nested loops leave the screen and VF as `Draw` says; nothing else changes. |
| Drawing.DrawBitsToggles | src/chip8.rs:135-143 | The column loop applies the row's toggles, in order, to the frame reached so far. |
| Drawing.DrawRowsToggles | src/chip8.rs:132-144 | The row loop applies the whole sprite's toggles in loop order. The latch is set iff some toggle left its pixel on. |
| Drawing.RedrawParity | src/chip8.rs:139-140 | After a list of toggles, a pixel is flipped iff it was toggled an odd number of times. |
| Drawing.LatchedAtMostOnce | src/chip8.rs:141 | When no pixel is toggled twice, the latch is set iff some toggled pixel was off before. |
| Drawing.CountSprite | src/chip8.rs:132-143 | Without clamping, a sprite toggles each pixel it covers exactly once and no other pixel. |
| Drawing.DrawPixels | src/chip8.rs:129-147 | A sprite that fits on the screen is XORed onto it: each pixel flips iff a set sprite bit covers it. |
| Drawing.DrawFlag | src/chip8.rs:141-146 | For a sprite that fits on the screen, VF is 1 iff a set sprite bit lands on a pixel that was off, and 0 otherwise. |
| Drawing.SpriteTogglesTargeted | src/chip8.rs:136-139 | Every toggled pixel is the clamped target of a set sprite bit. |
| Drawing.DrawTouchesTargets | src/chip8.rs:129-147 | DRW leaves unchanged every pixel that no set sprite bit lands on. |
| Drawing.DrawFlagLatched | src/chip8.rs:129-147 | DRW changes only the screen and VF. The screen is the result of the toggles, and VF is 1 iff some toggle left a pixel on. |
| Drawing.ClampAtRightEdge | src/chip8.rs:137-141 | Row `0b1100_0000` drawn at column 63 toggles that pixel twice. An unlit pixel there stays unlit, yet VF is set. |
| Execution.ExecuteFaults | src/chip8.rs:154-226 | `Execute` fails exactly on the panics `ExpectedFault` lists instruction by instruction, and with the same reason: `todo!()`, `unwrap` on an empty stack, `nnn - 2` underflow, a key index past 15, or a memory index past 0xFFF. |
| Execution.CycleFaults | src/chip8.rs:97-99 | A cycle fails iff its instruction does. A failed cycle leaves the state as it was. |
| Execution.ExecuteFrame | src/chip8.rs:154-226 | Which fields each instruction may change. No instruction changes the keys or the pause flag. Only jumps and skips move `pc`; only RET and CALL change the stack; only LD B and LD [I] write memory; only CLS and DRW change the screen; only LD DT and LD ST set the timers; only LD I, ADD I and LD F set I; only register instructions, LD Vx, [I] and DRW write registers. |
| Execution.RegisterOpFrame | src/chip8.rs:168-202 | A register instruction writes Vx, and VF only when it sets a flag; every other register keeps its value. |
| Execution.CycleAdvances | src/chip8.rs:97-99 | An instruction other than a jump or skip leaves `pc` 2 further on after the cycle. |
| Execution.SkipLands | src/chip8.rs:165-201 | After a skip's cycle, `pc` is 4 further on when the condition holds and 2 further on otherwise. |
| Execution.JumpLands | src/chip8.rs:160 | After a JP nnn cycle, `pc` is `nnn`. |
| Execution.CallLands | src/chip8.rs:161-164 | After a CALL nnn cycle, `pc` is `nnn` and the CALL's own address is pushed. |
| Execution.ReturnLands | src/chip8.rs:159 | After a RET cycle, `pc` is the popped address plus 2 and the stack has lost its top. |
| Execution.CallThenReturn | src/chip8.rs:159-164 | A CALL cycle followed by a RET cycle resumes at the instruction after the CALL, with the stack as before. |
| Execution.JumpOffsetLands | src/chip8.rs:197 | After a JP V0, nnn cycle, `pc` is `nnn + V0 + 2`. |
| Execution.ClearScreenIdempotent | src/chip8.rs:158 | CLS blanks the screen and changes nothing else; a second CLS changes nothing. |
| Execution.TicksCountDown | src/chip8.rs:149-152 | After `k` ticks each timer has gone down by `k`, stopping at zero; nothing else changes. |
| Execution.TimerExpires | src/chip8.rs:150 | With no other writes, the delay timer is zero after exactly `dt` ticks and stays there; before that it is positive. |
| Execution.CycleTimers | src/chip8.rs:97-98 | Across a cycle each timer goes down by one. It starts from the value LD DT or LD ST loaded, or else from its old value. |
| Execution.FetchIsShiftOr | src/chip8.rs:91 | The fetched opcode is `mem[pc] << 8` ORed with `mem[pc+1]`. Its high byte is `mem[pc]` and its low byte is `mem[pc+1]`. |
| Execution.ShiftOrBytes | src/chip8.rs:91 | Shifting a byte left by 8 and ORing in a second byte gives `hi * 0x100 + lo`. |
| Execution.PausedCycle | src/chip8.rs:87-89 | A paused machine's cycle changes nothing. |
| Execution.UndefinedOpcodeCycle | src/chip8.rs:86-100 | A cycle on an undefined opcode only counts the timers down and adds 2 to `pc`. |
| Arithmetic.AddCarry | src/chip8.rs:174-178 | ADD Vx, Vy with x not 0xF: Vx plus 256 times VF is the full sum. VF is 0 or 1, and the other registers keep their values. |
| Arithmetic.AddIntoFlag | src/chip8.rs:175-177 | ADD VF, Vy leaves the truncated sum in VF, so the carry is lost. |
| Arithmetic.SubBorrow | src/chip8.rs:179-182 | SUB with neither operand VF: VF is 1 iff Vx > Vy, and Vx becomes the difference modulo 256. |
| Arithmetic.SubReadsUpdatedFlag | src/chip8.rs:180-181 | SUB Vx, VF subtracts the flag it has just written. For example, with Vx = 5 and VF = 3 the result is 4. |
| Arithmetic.SubnBorrow | src/chip8.rs:187-190 | SUBN with neither operand VF: VF is 1 iff Vy > Vx, and Vx becomes `Vy - Vx` modulo 256. |
| Arithmetic.ShrSplits | src/chip8.rs:183-186 | SHR with x not 0xF: `2 * Vx' + VF` is the old Vx, and VF is 0 or 1. |
| Arithmetic.ShlLowBit | src/chip8.rs:191-194 | SHL with x not 0xF: Vx is doubled modulo 256 and VF is bit 0 of the old Vx. |
| Arithmetic.XorTwice | src/chip8.rs:173 | Applying XOR Vx, Vy twice, with x ≠ y, restores every register. |
| Arithmetic.OrGrows | src/chip8.rs:171 | OR Vx, Vy gives a value at least as large as each operand. |
| Arithmetic.RandomMasked | src/chip8.rs:198 | Whatever the random byte, RND Vx, kk gives at most `kk`, and 0 when `kk` is 0. |
| Arithmetic.AddByteWraps | src/chip8.rs:169 | ADD Vx, kk wraps modulo 256 and leaves VF alone. |
| Arithmetic.BcdDigits | src/chip8.rs:208-213 | LD B, Vx writes three digits below 10 at I, I+1 and I+2 with `100a + 10b + c = Vx`. No other cell changes. |
| Arithmetic.StoreRegistersCells | src/chip8.rs:214-218 | LD [I], Vx puts Vk in cell I+k for each k up to x, and no other cell changes. |
| Arithmetic.LoadRegistersCells | src/chip8.rs:219-223 | LD Vx, [I] puts cell I+k in Vk for each k up to x, and the higher registers are unchanged. |
| Arithmetic.StoreThenLoad | src/chip8.rs:214-223 | Storing V0..Vx and loading them back from the same address restores them. |
| Arithmetic.FontGlyph | src/chip8.rs:207 | LD F, Vx sets I to `5 * Vx`. For the digits 0x0..0xF the five-byte glyph lies inside the font. |
| Bytes.SpriteBitIsMask | src/chip8.rs:136 | The loop test `byte & (0x80 >> col) != 0` holds iff sprite column `col` is set. |
| Bytes.AndOneIsLowBit | src/chip8.rs:184 | `v & 0b1` is the lowest bit of `v`. |
| Bytes.AndMaskBound | src/chip8.rs:198 | `r & kk` is at most `kk`. |
| Bytes.XorInvolution | src/chip8.rs:173 | XOR with the same byte twice gives back the original. |
| Bytes.OrBound | src/chip8.rs:171 | `a` OR `b` is at least `a` and at least `b`. |

## Left out

- `render`, `should_close`, src/chip8/input.rs, src/chip8/audio.rs and src/main.rs are left out. They are presentation, window and audio plumbing, and calls into foreign libraries.
- `update_controls` does not read the input helper. The processed key pad and the pause toggle are parameters instead.
- `load_file` does not read a file and does not print. The file's bytes are a parameter, and the result says whether they fit.
- `run_cycle` does no disassembly or logging. `disassemble` is only string formatting for those log lines.
- `ThreadRng` is not modelled. The random byte RND uses is a parameter of `RunCycle`.
- The font is not modelled. Its contents live in src/chip8/font.rs, which is not part of this model, so the font is a parameter of length 80.
- The separate pixel frame buffer (`pixels`) and the input helper are not fields of the model.
- Chip8.Chip8.ExecuteInstruction: a panic is modelled as an `Err` result that leaves the state exactly as before the instruction. LD [I], Vx and LD Vx, [I] check their whole range before writing, so they do not model the cells a panicking Rust loop would already have copied.
- Chip8.Chip8.ExecuteScreen: DRW checks that every sprite row lies inside memory before drawing. The source would draw the rows before the first bad address and then panic.
- Chip8.Chip8.ExecuteMemory: LD B checks that all three cells lie inside memory before writing any of them. The source would write the first cell and then panic.
- `pc`, `index` and the stack entries are unbounded naturals. A `usize` overflow of `pc += 2`, `index += V[x]` or `nnn + V0` is not modelled.
- Instruction operands are unbounded naturals, as `usize` is in the source. `WellFormed` states the ranges the decoder produces, and the execution functions require them.
- src/chip8.rs imports the decoded type as `Chip8Instruction`, while src/chip8/instruction.rs declares it as `Instruction`. Both are modelled as the single datatype `Instruction`.
- The class keeps a ghost copy of the screen (`pixels`), which `Valid()` ties to the screen array. It states the draw loop's invariants and is not a field of the source.
