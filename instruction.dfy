/**
 * The CHIP-8 instruction set and the opcode decoder of
 * src/chip8/instruction.rs: a total, pure map from a 16-bit opcode to a
 * typed instruction, together with an encoder built from the same field
 * positions, used to state that decoding loses nothing but the ignored
 * `y` nibble of the two shifts.
 */
module Instructions {
  import opened Bytes

  /** A memory address (Rust `usize`). */
  type Address = nat

  /**
   * One decoded instruction. Register operands `x`, `y` and addresses are
   * unbounded here, as `usize` is in the source; `WellFormed` states the
   * ranges the decoder produces.
   */
  datatype Instruction =
    | CLS
    | RET
    | SYS(addr: Address)
    | JP(addr: Address)
    | CALL(addr: Address)
    | SEVxByte(x: nat, kk: Byte)
    | SNEVxByte(x: nat, kk: Byte)
    | SEVxVy(x: nat, y: nat)
    | LDVxByte(x: nat, kk: Byte)
    | ADDVxByte(x: nat, kk: Byte)
    | LDVxVy(x: nat, y: nat)
    | ORVxVy(x: nat, y: nat)
    | ANDVxVy(x: nat, y: nat)
    | XORVxVy(x: nat, y: nat)
    | ADDVxVy(x: nat, y: nat)
    | SUBVxVy(x: nat, y: nat)
    | SHRVx(x: nat)
    | SUBNVxVy(x: nat, y: nat)
    | SHLVx(x: nat)
    | SNEVxVy(x: nat, y: nat)
    | LDI(addr: Address)
    | JP0(addr: Address)
    | RNDVxByte(x: nat, kk: Byte)
    | DRWVxVyNibble(x: nat, y: nat, n: Byte)
    | SKPVx(x: nat)
    | SKNPVx(x: nat)
    | LDVxDT(x: nat)
    | LDVxK(x: nat)
    | LDDTVx(x: nat)
    | LDSTVx(x: nat)
    | ADDIVx(x: nat)
    | LDFVx(x: nat)
    | LDBVx(x: nat)
    | LDIVx(x: nat)
    | LDVxMem(x: nat)
    | Unknown

  predicate HasAddr(i: Instruction)
  {
    i.SYS? || i.JP? || i.CALL? || i.LDI? || i.JP0?
  }

  predicate HasByte(i: Instruction)
  {
    i.SEVxByte? || i.SNEVxByte? || i.LDVxByte? || i.ADDVxByte? || i.RNDVxByte?
  }

  predicate HasY(i: Instruction)
  {
    || i.SEVxVy? || i.LDVxVy? || i.ORVxVy? || i.ANDVxVy? || i.XORVxVy?
    || i.ADDVxVy? || i.SUBVxVy? || i.SUBNVxVy? || i.SNEVxVy? || i.DRWVxVyNibble?
  }

  predicate HasX(i: Instruction)
  {
    !(i.CLS? || i.RET? || HasAddr(i) || i.Unknown?)
  }

  /** Operand ranges of a decoded instruction: 4-bit registers, 12-bit addresses, 4-bit height. */
  predicate WellFormed(i: Instruction)
  {
    && (HasAddr(i) ==> i.addr < 0x1000)
    && (HasX(i) ==> i.x < 0x10)
    && (HasY(i) ==> i.y < 0x10)
    && (i.DRWVxVyNibble? ==> i.n < 0x10)
  }

  /** The four nibbles of an opcode, most significant first. */
  datatype Nibbles = Nibbles(family: nat, x: nat, y: nat, n: nat)

  predicate ValidNibbles(nb: Nibbles)
  {
    nb.family < 0x10 && nb.x < 0x10 && nb.y < 0x10 && nb.n < 0x10
  }

  /**
   * The bit fields `from_opcode` extracts with shifts and masks:
   * `(opcode >> 12) & 0xF`, `(opcode >> 8) & 0xF`, `(opcode >> 4) & 0xF`
   * and `opcode & 0xF`.
   */
  function Split(opcode: Word): (nb: Nibbles)
    ensures ValidNibbles(nb)
  {
    Nibbles((opcode / 0x1000) % 0x10, (opcode / 0x100) % 0x10, (opcode / 0x10) % 0x10, opcode % 0x10)
  }

  /** The opcode made of four nibbles. */
  function Join(nb: Nibbles): Word
    requires ValidNibbles(nb)
  {
    nb.family * 0x1000 + nb.x * 0x100 + nb.y * 0x10 + nb.n
  }

  /** `opcode & 0xFF`, the `kk` field. */
  function LowByte(nb: Nibbles): Byte
    requires ValidNibbles(nb)
  {
    nb.y * 0x10 + nb.n
  }

  /** `opcode & 0xFFF`, the `nnn` field. */
  function LowAddress(nb: Nibbles): Address
    requires ValidNibbles(nb)
  {
    nb.x * 0x100 + LowByte(nb)
  }

  /**
   * `Instruction::from_opcode`: the top nibble picks the family, the low
   * nibble disambiguates family 0x8 and the low byte families 0xE and 0xF
   * (the three inner matches are the helpers below); undefined encodings
   * decode to `Unknown`.
   */
  function FromOpcode(opcode: Word): (i: Instruction)
    ensures WellFormed(i)
  {
    Decode(Split(opcode))
  }

  /**
   * The family match of `from_opcode`, on the extracted fields. In family
   * 0x0 the opcode equals its `nnn` field, so comparing `nnn` with 0x0E0 and
   * 0x0EE compares the opcode with 0x00E0 and 0x00EE. The source's
   * catch-all arm after family 0xF cannot be reached.
   */
  function Decode(nb: Nibbles): (i: Instruction)
    requires ValidNibbles(nb)
    ensures WellFormed(i)
  {
    var x, y, kk, nnn := nb.x, nb.y, LowByte(nb), LowAddress(nb);
    match nb.family
    case 0x0 =>
      if nnn == 0x0E0 then CLS
      else if nnn == 0x0EE then RET
      else SYS(nnn)
    case 0x1 => JP(nnn)
    case 0x2 => CALL(nnn)
    case 0x3 => SEVxByte(x, kk)
    case 0x4 => SNEVxByte(x, kk)
    case 0x5 => SEVxVy(x, y)
    case 0x6 => LDVxByte(x, kk)
    case 0x7 => ADDVxByte(x, kk)
    case 0x8 => DecodeArithmetic(x, y, nb.n)
    case 0x9 => SNEVxVy(x, y)
    case 0xA => LDI(nnn)
    case 0xB => JP0(nnn)
    case 0xC => RNDVxByte(x, kk)
    case 0xD => DRWVxVyNibble(x, y, nb.n)
    case 0xE => DecodeKeySkip(x, kk)
    case 0xF => DecodeTimerMemory(x, kk)
    case _ => assert false; Unknown
  }

  /** Family 0x8, keyed by the low nibble `n`. */
  function DecodeArithmetic(x: nat, y: nat, n: nat): (i: Instruction)
    requires x < 0x10 && y < 0x10
    ensures WellFormed(i)
  {
    match n
    case 0x0 => LDVxVy(x, y)
    case 0x1 => ORVxVy(x, y)
    case 0x2 => ANDVxVy(x, y)
    case 0x3 => XORVxVy(x, y)
    case 0x4 => ADDVxVy(x, y)
    case 0x5 => SUBVxVy(x, y)
    case 0x6 => SHRVx(x)
    case 0x7 => SUBNVxVy(x, y)
    case 0xE => SHLVx(x)
    case _ => Unknown
  }

  /** Family 0xE, keyed by the low byte. */
  function DecodeKeySkip(x: nat, kk: Byte): (i: Instruction)
    requires x < 0x10
    ensures WellFormed(i)
  {
    match kk
    case 0x9E => SKPVx(x)
    case 0xA1 => SKNPVx(x)
    case _ => Unknown
  }

  /** Family 0xF, keyed by the low byte. */
  function DecodeTimerMemory(x: nat, kk: Byte): (i: Instruction)
    requires x < 0x10
    ensures WellFormed(i)
  {
    match kk
    case 0x07 => LDVxDT(x)
    case 0x0A => LDVxK(x)
    case 0x15 => LDDTVx(x)
    case 0x18 => LDSTVx(x)
    case 0x1E => ADDIVx(x)
    case 0x29 => LDFVx(x)
    case 0x33 => LDBVx(x)
    case 0x55 => LDIVx(x)
    case 0x65 => LDVxMem(x)
    case _ => Unknown
  }

  /** The encodings the decoder leaves undefined, stated independently of it. */
  predicate Undefined(opcode: Word)
  {
    UndefinedNibbles(Split(opcode))
  }

  /**
   * The undefined encodings, on nibbles: low nibbles 8, 9, A, B, C, D, F
   * of family 0x8 and the unlisted low bytes of families 0xE and 0xF.
   */
  predicate UndefinedNibbles(nb: Nibbles)
    requires ValidNibbles(nb)
  {
    || (nb.family == 0x8 && nb.n in {0x8, 0x9, 0xA, 0xB, 0xC, 0xD, 0xF})
    || (nb.family == 0xE && LowByte(nb) !in {0x9E, 0xA1})
    || (nb.family == 0xF
        && LowByte(nb) !in {0x07, 0x0A, 0x15, 0x18, 0x1E, 0x29, 0x33, 0x55, 0x65})
  }

  /** Family 0xE: the key skips. */
  predicate IsKeySkip(i: Instruction)
  {
    i.SKPVx? || i.SKNPVx?
  }

  /** Family 0xF: timers, key wait, index and memory transfers. */
  predicate IsTimerMemory(i: Instruction)
  {
    || i.LDVxDT? || i.LDVxK? || i.LDDTVx? || i.LDSTVx? || i.ADDIVx?
    || i.LDFVx? || i.LDBVx? || i.LDIVx? || i.LDVxMem?
  }

  /** Nibbles of an instruction with a register `x` and a byte `kk`. */
  function XKK(family: nat, x: nat, kk: Byte): (nb: Nibbles)
    requires family < 0x10 && x < 0x10
    ensures ValidNibbles(nb)
  {
    Nibbles(family, x, kk / 0x10, kk % 0x10)
  }

  /** Nibbles of an instruction with a 12-bit address. */
  function NNN(family: nat, a: Address): (nb: Nibbles)
    requires family < 0x10 && a < 0x1000
    ensures ValidNibbles(nb)
  {
    Split(a).(family := family)
  }

  /**
   * Nibbles for an encoder that places each operand at the position the
   * decoder reads it from; SHR and SHL, which have no `y`, get a zero `y`.
   */
  function ToNibbles(i: Instruction): (nb: Nibbles)
    requires WellFormed(i) && !i.Unknown?
    ensures ValidNibbles(nb)
  {
    match i
    case CLS => Nibbles(0x0, 0x0, 0xE, 0x0)
    case RET => Nibbles(0x0, 0x0, 0xE, 0xE)
    case SYS(a) => NNN(0x0, a)
    case JP(a) => NNN(0x1, a)
    case CALL(a) => NNN(0x2, a)
    case SEVxByte(x, kk) => XKK(0x3, x, kk)
    case SNEVxByte(x, kk) => XKK(0x4, x, kk)
    case SEVxVy(x, y) => Nibbles(0x5, x, y, 0x0)
    case LDVxByte(x, kk) => XKK(0x6, x, kk)
    case ADDVxByte(x, kk) => XKK(0x7, x, kk)
    case LDVxVy(x, y) => Nibbles(0x8, x, y, 0x0)
    case ORVxVy(x, y) => Nibbles(0x8, x, y, 0x1)
    case ANDVxVy(x, y) => Nibbles(0x8, x, y, 0x2)
    case XORVxVy(x, y) => Nibbles(0x8, x, y, 0x3)
    case ADDVxVy(x, y) => Nibbles(0x8, x, y, 0x4)
    case SUBVxVy(x, y) => Nibbles(0x8, x, y, 0x5)
    case SHRVx(x) => Nibbles(0x8, x, 0x0, 0x6)
    case SUBNVxVy(x, y) => Nibbles(0x8, x, y, 0x7)
    case SHLVx(x) => Nibbles(0x8, x, 0x0, 0xE)
    case SNEVxVy(x, y) => Nibbles(0x9, x, y, 0x0)
    case LDI(a) => NNN(0xA, a)
    case JP0(a) => NNN(0xB, a)
    case RNDVxByte(x, kk) => XKK(0xC, x, kk)
    case DRWVxVyNibble(x, y, n) => Nibbles(0xD, x, y, n)
    case SKPVx(x) => XKK(0xE, x, 0x9E)
    case SKNPVx(x) => XKK(0xE, x, 0xA1)
    case LDVxDT(x) => XKK(0xF, x, 0x07)
    case LDVxK(x) => XKK(0xF, x, 0x0A)
    case LDDTVx(x) => XKK(0xF, x, 0x15)
    case LDSTVx(x) => XKK(0xF, x, 0x18)
    case ADDIVx(x) => XKK(0xF, x, 0x1E)
    case LDFVx(x) => XKK(0xF, x, 0x29)
    case LDBVx(x) => XKK(0xF, x, 0x33)
    case LDIVx(x) => XKK(0xF, x, 0x55)
    case LDVxMem(x) => XKK(0xF, x, 0x65)
  }

  /** The encoder: an instruction's nibbles joined into an opcode. */
  function Encode(i: Instruction): Word
    requires WellFormed(i) && !i.Unknown?
  {
    Join(ToNibbles(i))
  }

  /** Splitting a joined opcode gives back its nibbles. */
  lemma SplitJoin(nb: Nibbles)
    requires ValidNibbles(nb)
    ensures Split(Join(nb)) == nb
  {
    var w := Join(nb);
    var f, x, y, n := nb.family, nb.x, nb.y, nb.n;
    SplitAt12(w, f, x * 0x100 + y * 0x10 + n);
    SplitAt4(f, 0, f);
    SplitAt8(w, f * 0x10 + x, y * 0x10 + n);
    SplitAt4(f * 0x10 + x, f, x);
    SplitAt4(w, f * 0x100 + x * 0x10 + y, n);
    SplitAt4(f * 0x100 + x * 0x10 + y, f * 0x10 + x, y);
  }

  /** Joining an opcode's nibbles gives back the opcode. */
  lemma JoinSplit(opcode: Word)
    ensures Join(Split(opcode)) == opcode
  {
    var q4, n := opcode / 0x10, opcode % 0x10;
    var q8, y := q4 / 0x10, q4 % 0x10;
    var f, x := q8 / 0x10, q8 % 0x10;
    SplitAt8(opcode, q8, y * 0x10 + n);
    SplitAt12(opcode, f, x * 0x100 + y * 0x10 + n);
    SplitAt4(f, 0, f);
  }

  /** Quotient and remainder are unique: the remainder below 0x10. */
  lemma SplitAt4(w: int, q: int, r: int)
    requires 0 <= r < 0x10 && w == q * 0x10 + r
    ensures w / 0x10 == q && w % 0x10 == r
  {
  }

  /** Quotient and remainder are unique: the remainder below 0x100. */
  lemma SplitAt8(w: int, q: int, r: int)
    requires 0 <= r < 0x100 && w == q * 0x100 + r
    ensures w / 0x100 == q && w % 0x100 == r
  {
  }

  /** Quotient and remainder are unique: the remainder below 0x1000. */
  lemma SplitAt12(w: int, q: int, r: int)
    requires 0 <= r < 0x1000 && w == q * 0x1000 + r
    ensures w / 0x1000 == q && w % 0x1000 == r
  {
  }

  /** The `kk` and `nnn` fields of an opcode are its low byte and its low twelve bits. */
  lemma FieldMasks(opcode: Word)
    ensures LowByte(Split(opcode)) == opcode % 0x100
    ensures LowAddress(Split(opcode)) == opcode % 0x1000
  {
    var nb := Split(opcode);
    JoinSplit(opcode);
    SplitAt8(opcode, nb.family * 0x10 + nb.x, LowByte(nb));
    SplitAt12(opcode, nb.family, LowAddress(nb));
  }

  /** The low byte splits back into the `y` and `n` nibbles. */
  lemma LowByteNibbles(nb: Nibbles)
    requires ValidNibbles(nb)
    ensures XKK(nb.family, nb.x, LowByte(nb)) == nb
  {
    SplitAt4(LowByte(nb), nb.y, nb.n);
  }

  /** The nibbles of an address form carry the family and the address. */
  lemma AddressNibbles(family: nat, a: Address)
    requires family < 0x10 && a < 0x1000
    ensures ValidNibbles(NNN(family, a))
    ensures NNN(family, a).family == family && LowAddress(NNN(family, a)) == a
  {
    FieldMasks(a);
    SplitAt12(a, 0, a);
    assert LowAddress(NNN(family, a)) == LowAddress(Split(a));
  }

  /** The nibbles of a byte form carry the family, the register and the byte. */
  lemma ByteNibbles(family: nat, x: nat, kk: Byte)
    requires family < 0x10 && x < 0x10
    ensures ValidNibbles(XKK(family, x, kk))
    ensures XKK(family, x, kk).family == family && XKK(family, x, kk).x == x
    ensures LowByte(XKK(family, x, kk)) == kk
  {
  }

  lemma DecodeToNibblesAddress(i: Instruction)
    requires WellFormed(i) && HasAddr(i)
    requires i != SYS(0x0E0) && i != SYS(0x0EE)
    ensures Decode(ToNibbles(i)) == i
  {
    var f := match i
      case SYS(_) => 0x0 case JP(_) => 0x1 case CALL(_) => 0x2
      case LDI(_) => 0xA case _ => 0xB;
    AddressNibbles(f, i.addr);
    assert ToNibbles(i) == NNN(f, i.addr);
  }

  lemma DecodeToNibblesByte(i: Instruction)
    requires WellFormed(i) && HasByte(i)
    ensures Decode(ToNibbles(i)) == i
  {
    match i
    case SEVxByte(x, kk) => ByteNibbles(0x3, x, kk);
    case SNEVxByte(x, kk) => ByteNibbles(0x4, x, kk);
    case LDVxByte(x, kk) => ByteNibbles(0x6, x, kk);
    case ADDVxByte(x, kk) => ByteNibbles(0x7, x, kk);
    case RNDVxByte(x, kk) => ByteNibbles(0xC, x, kk);
  }

  lemma DecodeToNibblesKeySkip(i: Instruction)
    requires WellFormed(i) && IsKeySkip(i)
    ensures Decode(ToNibbles(i)) == i
  {
    ByteNibbles(0xE, i.x, if i.SKPVx? then 0x9E else 0xA1);
  }

  /** The low byte that selects an instruction of family 0xF. */
  function TimerMemoryCode(i: Instruction): Byte
    requires IsTimerMemory(i)
  {
    match i
    case LDVxDT(_) => 0x07
    case LDVxK(_) => 0x0A
    case LDDTVx(_) => 0x15
    case LDSTVx(_) => 0x18
    case ADDIVx(_) => 0x1E
    case LDFVx(_) => 0x29
    case LDBVx(_) => 0x33
    case LDIVx(_) => 0x55
    case LDVxMem(_) => 0x65
  }

  lemma DecodeToNibblesTimerMemory(i: Instruction)
    requires WellFormed(i) && IsTimerMemory(i)
    ensures Decode(ToNibbles(i)) == i
  {
    var code := TimerMemoryCode(i);
    ByteNibbles(0xF, i.x, code);
    assert ToNibbles(i) == XKK(0xF, i.x, code);
    assert Decode(XKK(0xF, i.x, code)) == DecodeTimerMemory(i.x, code);
  }

  /** The nibbles an instruction encodes to are the ones it decodes from. */
  lemma DecodeToNibbles(i: Instruction)
    requires WellFormed(i) && !i.Unknown?
    requires i != SYS(0x0E0) && i != SYS(0x0EE)
    ensures Decode(ToNibbles(i)) == i
  {
    if HasAddr(i) {
      DecodeToNibblesAddress(i);
    } else if HasByte(i) {
      DecodeToNibblesByte(i);
    } else if IsKeySkip(i) {
      DecodeToNibblesKeySkip(i);
    } else if IsTimerMemory(i) {
      DecodeToNibblesTimerMemory(i);
    }
  }

  /**
   * Decoding the encoder's output gives the instruction back, for every
   * defined instruction with in-range operands except the two `SYS`
   * addresses that collide with `CLS` and `RET`.
   */
  lemma DecodeEncode(i: Instruction)
    requires WellFormed(i) && !i.Unknown?
    requires i != SYS(0x0E0) && i != SYS(0x0EE)
    ensures FromOpcode(Encode(i)) == i
  {
    SplitJoin(ToNibbles(i));
    DecodeToNibbles(i);
  }

  /** `SYS 0E0` and `SYS 0EE` share their encodings with `CLS` and `RET`, which win. */
  lemma SysAliases()
    ensures FromOpcode(Encode(SYS(0x0E0))) == CLS
    ensures FromOpcode(Encode(SYS(0x0EE))) == RET
  {
    EncodeSys(0x0E0);
    FamilyZero(0x0E0);
    EncodeSys(0x0EE);
    FamilyZero(0x0EE);
  }

  /** `SYS nnn` encodes to `nnn` itself. */
  lemma EncodeSys(a: Address)
    requires a < 0x1000
    ensures Encode(SYS(a)) == a
  {
    assert ToNibbles(SYS(a)) == Split(a);
    JoinSplit(a);
  }

  /** Family 0x0 on nibbles: `nnn` 0E0 is CLS, 0EE is RET, anything else `SYS nnn`. */
  lemma DecodeFamilyZero(nb: Nibbles)
    requires ValidNibbles(nb) && nb.family == 0x0
    ensures Decode(nb) ==
      if LowAddress(nb) == 0x0E0 then CLS
      else if LowAddress(nb) == 0x0EE then RET
      else SYS(LowAddress(nb))
  {
  }

  /** Family 0x0: `00E0` is CLS, `00EE` is RET, every other `0nnn` is `SYS nnn`. */
  lemma FamilyZero(opcode: Word)
    requires opcode < 0x1000
    ensures FromOpcode(opcode) ==
      if opcode == 0x00E0 then CLS else if opcode == 0x00EE then RET else SYS(opcode)
  {
    var nb := Split(opcode);
    assert nb.family == 0x0;
    FieldMasks(opcode);
    DecodeFamilyZero(nb);
  }

  lemma UnknownIffUndefinedNibbles(nb: Nibbles)
    requires ValidNibbles(nb)
    ensures Decode(nb).Unknown? <==> UndefinedNibbles(nb)
  {
  }

  /**
   * The decoder yields `Unknown` exactly on the undefined encodings:
   * low nibbles 8, 9, A, B, C, D, F of family 0x8 and the unlisted low
   * bytes of families 0xE and 0xF.
   */
  lemma UnknownIffUndefined(opcode: Word)
    ensures FromOpcode(opcode).Unknown? <==> Undefined(opcode)
  {
    UnknownIffUndefinedNibbles(Split(opcode));
  }

  /** Each operand of a decoded instruction is the nibble, byte or twelve bits it sits in. */
  lemma OperandNibbles(nb: Nibbles)
    requires ValidNibbles(nb)
    ensures HasX(Decode(nb)) ==> Decode(nb).x == nb.x
    ensures HasY(Decode(nb)) ==> Decode(nb).y == nb.y
    ensures HasByte(Decode(nb)) ==> Decode(nb).kk == LowByte(nb)
    ensures HasAddr(Decode(nb)) ==> Decode(nb).addr == LowAddress(nb)
    ensures Decode(nb).DRWVxVyNibble? ==> Decode(nb).n == nb.n
  {
  }

  /** Every operand the decoder produces is read from its fixed bit position. */
  lemma FieldPositions(opcode: Word)
    ensures HasX(FromOpcode(opcode)) ==> FromOpcode(opcode).x == (opcode / 0x100) % 0x10
    ensures HasY(FromOpcode(opcode)) ==> FromOpcode(opcode).y == (opcode / 0x10) % 0x10
    ensures HasByte(FromOpcode(opcode)) ==> FromOpcode(opcode).kk == opcode % 0x100
    ensures HasAddr(FromOpcode(opcode)) ==> FromOpcode(opcode).addr == opcode % 0x1000
    ensures FromOpcode(opcode).DRWVxVyNibble? ==> FromOpcode(opcode).n == opcode % 0x10
  {
    FieldMasks(opcode);
    OperandNibbles(Split(opcode));
  }

  lemma ToNibblesOfDecodeAddress(nb: Nibbles)
    requires ValidNibbles(nb) && HasAddr(Decode(nb))
    ensures ToNibbles(Decode(nb)) == nb
  {
    assert LowAddress(nb) == Join(nb.(family := 0x0));
    SplitJoin(nb.(family := 0x0));
    OperandNibbles(nb);
  }

  lemma ToNibblesOfDecodeByte(nb: Nibbles)
    requires ValidNibbles(nb) && !Decode(nb).Unknown?
    requires nb.family in {0x3, 0x4, 0x6, 0x7, 0xC, 0xE, 0xF}
    ensures ToNibbles(Decode(nb)) == nb
  {
    var x, kk := nb.x, LowByte(nb);
    LowByteNibbles(nb);
    match nb.family
    case 0x3 => assert Decode(nb) == SEVxByte(x, kk);
    case 0x4 => assert Decode(nb) == SNEVxByte(x, kk);
    case 0x6 => assert Decode(nb) == LDVxByte(x, kk);
    case 0x7 => assert Decode(nb) == ADDVxByte(x, kk);
    case 0xC => assert Decode(nb) == RNDVxByte(x, kk);
    case 0xE =>
      assert Decode(nb) == DecodeKeySkip(x, kk);
      KeySkipNibbles(x, kk);
    case 0xF =>
      assert Decode(nb) == DecodeTimerMemory(x, kk);
      TimerMemoryNibbles(x, kk);
  }

  lemma KeySkipNibbles(x: nat, kk: Byte)
    requires x < 0x10 && !DecodeKeySkip(x, kk).Unknown?
    ensures ToNibbles(DecodeKeySkip(x, kk)) == XKK(0xE, x, kk)
  {
  }

  lemma TimerMemoryNibbles(x: nat, kk: Byte)
    requires x < 0x10 && !DecodeTimerMemory(x, kk).Unknown?
    ensures ToNibbles(DecodeTimerMemory(x, kk)) == XKK(0xF, x, kk)
  {
  }

  /** Family 0x0 with `nnn` 0E0 or 0EE has exactly the nibbles of CLS or RET. */
  lemma ToNibblesOfDecodeControl(nb: Nibbles)
    requires ValidNibbles(nb) && nb.family == 0x0
    requires LowAddress(nb) == 0x0E0 || LowAddress(nb) == 0x0EE
    ensures ToNibbles(Decode(nb)) == nb
  {
    assert LowAddress(nb) == Join(nb.(family := 0x0));
    SplitJoin(nb.(family := 0x0));
    if LowAddress(nb) == 0x0E0 {
      ControlNibbles(nb, 0x0E0, CLS);
    } else {
      ControlNibbles(nb, 0x0EE, RET);
    }
  }

  lemma ControlNibbles(nb: Nibbles, a: Address, i: Instruction)
    requires ValidNibbles(nb) && nb.family == 0x0
    requires (a == 0x0E0 && i == CLS) || (a == 0x0EE && i == RET)
    requires nb == Split(a)
    requires LowAddress(nb) == a
    ensures ToNibbles(Decode(nb)) == nb
  {
    DecodeFamilyZero(nb);
    assert Decode(nb) == i;
  }

  lemma ToNibblesOfDecodeArithmetic(nb: Nibbles)
    requires ValidNibbles(nb) && nb.family == 0x8 && !Decode(nb).Unknown?
    ensures ToNibbles(Decode(nb)) == Kept(nb)
  {
    var x, y := nb.x, nb.y;
    assert Decode(nb) == DecodeArithmetic(x, y, nb.n);
    match nb.n
    case 0x0 => assert Decode(nb) == LDVxVy(x, y);
    case 0x1 => assert Decode(nb) == ORVxVy(x, y);
    case 0x2 => assert Decode(nb) == ANDVxVy(x, y);
    case 0x3 => assert Decode(nb) == XORVxVy(x, y);
    case 0x4 => assert Decode(nb) == ADDVxVy(x, y);
    case 0x5 => assert Decode(nb) == SUBVxVy(x, y);
    case 0x6 => assert Decode(nb) == SHRVx(x);
    case 0x7 => assert Decode(nb) == SUBNVxVy(x, y);
    case 0xE => assert Decode(nb) == SHLVx(x);
    case _ =>
  }

  /**
   * The nibbles decoding keeps, stated independently of the decoder: SE
   * and SNE on two registers ignore the low nibble, SHR and SHL the `y`
   * nibble; every other defined encoding keeps all four.
   */
  function Kept(nb: Nibbles): (k: Nibbles)
    requires ValidNibbles(nb)
    ensures ValidNibbles(k)
  {
    if nb.family == 0x5 || nb.family == 0x9 then nb.(n := 0x0)
    else if nb.family == 0x8 && (nb.n == 0x6 || nb.n == 0xE) then nb.(y := 0x0)
    else nb
  }

  /** What decoding keeps of the nibbles: `Kept`. */
  lemma ToNibblesOfDecode(nb: Nibbles)
    requires ValidNibbles(nb) && !Decode(nb).Unknown?
    ensures ToNibbles(Decode(nb)) == Kept(nb)
  {
    var x, y := nb.x, nb.y;
    match nb.family
    case 0x0 =>
      if LowAddress(nb) == 0x0E0 || LowAddress(nb) == 0x0EE {
        ToNibblesOfDecodeControl(nb);
      } else {
        DecodeFamilyZero(nb);
        ToNibblesOfDecodeAddress(nb);
      }
    case 0x1 => ToNibblesOfDecodeAddress(nb);
    case 0x2 => ToNibblesOfDecodeAddress(nb);
    case 0xA => ToNibblesOfDecodeAddress(nb);
    case 0xB => ToNibblesOfDecodeAddress(nb);
    case 0x5 => assert Decode(nb) == SEVxVy(x, y);
    case 0x8 => ToNibblesOfDecodeArithmetic(nb);
    case 0x9 => assert Decode(nb) == SNEVxVy(x, y);
    case 0xD => assert Decode(nb) == DRWVxVyNibble(x, y, nb.n);
    case _ => ToNibblesOfDecodeByte(nb);
  }

  /** The opcode bits decoding ignores: the low nibble of 5xyN and 9xyN, the `y` nibble of SHR and SHL. */
  function IgnoredBits(opcode: Word): nat
  {
    var nb := Split(opcode);
    if nb.family == 0x5 || nb.family == 0x9 then nb.n
    else if nb.family == 0x8 && (nb.n == 0x6 || nb.n == 0xE) then nb.y * 0x10
    else 0
  }

  /**
   * Re-encoding a decoded opcode gives the opcode back with the bits
   * decoding ignores cleared: those bits are the only information the
   * decoder discards.
   */
  lemma EncodeDecode(opcode: Word)
    requires !FromOpcode(opcode).Unknown?
    ensures Encode(FromOpcode(opcode)) == opcode - IgnoredBits(opcode)
  {
    ToNibblesOfDecode(Split(opcode));
    JoinSplit(opcode);
  }

  /** SHR and SHL ignore the `y` nibble: any `y` decodes to the same shift. */
  lemma ShiftsIgnoreY(x: nat, y1: nat, y2: nat, n: nat)
    requires x < 0x10 && y1 < 0x10 && y2 < 0x10 && n in {0x6, 0xE}
    ensures FromOpcode(Join(Nibbles(0x8, x, y1, n))) == FromOpcode(Join(Nibbles(0x8, x, y2, n)))
    ensures FromOpcode(Join(Nibbles(0x8, x, y1, n))) == if n == 0x6 then SHRVx(x) else SHLVx(x)
  {
    SplitJoin(Nibbles(0x8, x, y1, n));
    SplitJoin(Nibbles(0x8, x, y2, n));
  }

  /** SE and SNE on two registers ignore the low nibble: any `n` decodes the same. */
  lemma RegisterComparesIgnoreN(family: nat, x: nat, y: nat, n1: nat, n2: nat)
    requires family in {0x5, 0x9} && x < 0x10 && y < 0x10 && n1 < 0x10 && n2 < 0x10
    ensures FromOpcode(Join(Nibbles(family, x, y, n1))) == FromOpcode(Join(Nibbles(family, x, y, n2)))
    ensures FromOpcode(Join(Nibbles(family, x, y, n1))) ==
      if family == 0x5 then SEVxVy(x, y) else SNEVxVy(x, y)
  {
    SplitJoin(Nibbles(family, x, y, n1));
    SplitJoin(Nibbles(family, x, y, n2));
  }

  /** Two sample decodings: a register load and the screen clear. */
  lemma DecodeExamples()
    ensures FromOpcode(0x6A3C) == LDVxByte(0xA, 0x3C)
    ensures FromOpcode(0x00E0) == CLS
  {
    assert Split(0x6A3C) == Nibbles(0x6, 0xA, 0x3, 0xC);
    assert Split(0x00E0) == Nibbles(0x0, 0x0, 0xE, 0x0);
  }
}
