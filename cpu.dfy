/**
 * The processor `MIPS_CPU`: the decoder that slices the instruction
 * register into fields, the four dispatch tables, the fetch and
 * branch-delay state machine, the exception entry `serviceints`, and one
 * iteration of the fetch-decode-execute loop `start`.
 *
 * Each imperative step is a method of the `Cpu` class, proved against a
 * function on values (`FetchNext`, `Service`, `Decode`, `Dispatch`) whose
 * properties are stated as lemmas.
 */
module Cpu {
  import opened Words
  import opened Exceptions
  import opened Registers
  import opened Paging
  import opened Cp0Masking
  import opened Cp0Bank
  import opened Context
  import opened Semantics
  import Isa
  import Instructions

  // ---------------------------------------------------------------------
  // Decoder

  /** `(value & mask) >> shift` for the decoder's constant masks. */
  function Slice(w: bv32, mask: bv32, shift: bv8): bv32
    requires shift < 32
  {
    (w & mask) >> shift
  }

  /** The `(byte)` cast of a slice that fits in eight bits. */
  function Narrow(x: bv32): (b: byte)
    requires x < 256
    ensures b as bv32 == x
  {
    WordToInt(x);
    x as int as byte
  }

  /** `decode`: the opcode, rs, rt, rd, shamt and funct fields, the 16-bit
      immediate and the 26-bit jump index of an instruction word. */
  function Decode(w: bv32): (f: Fields)
    ensures InRange(f)
  {
    Fields(Narrow(Slice(w, 0xFC00_0000, 26)), Narrow(Slice(w, 0x03E0_0000, 21)),
           Narrow(Slice(w, 0x001F_0000, 16)), Narrow(Slice(w, 0x0000_F800, 11)),
           Narrow(Slice(w, 0x0000_07C0, 6)), Narrow(Slice(w, 0x0000_003F, 0)),
           Slice(w, 0xFFFF, 0) as bv16, Slice(w, 0x03FF_FFFF, 0))
  }

  /** An R-type word assembled from its six fields. */
  function EncodeR(f: Fields): bv32
    requires InRange(f)
  {
    (f.opcode as bv32 << 26) | (f.rs as bv32 << 21) | (f.rt as bv32 << 16)
      | (f.rd as bv32 << 11) | (f.shamt as bv32 << 6) | f.funct as bv32
  }

  /** An I-type word: opcode, rs, rt and the immediate. */
  function EncodeI(f: Fields): bv32
    requires InRange(f)
  {
    (f.opcode as bv32 << 26) | (f.rs as bv32 << 21) | (f.rt as bv32 << 16) | f.imm as bv32
  }

  /** A J-type word: opcode and the jump index. */
  function EncodeJ(f: Fields): bv32
    requires f.opcode < 64
  {
    (f.opcode as bv32 << 26) | f.jimm
  }

  /** The slices of the R-type fields cover the word without overlap. */
  lemma {:induction false} RTypeSlices(w: bv32)
    ensures (Slice(w, 0xFC00_0000, 26) << 26) | (Slice(w, 0x03E0_0000, 21) << 21)
            | (Slice(w, 0x001F_0000, 16) << 16) | (Slice(w, 0x0000_F800, 11) << 11)
            | (Slice(w, 0x0000_07C0, 6) << 6) | Slice(w, 0x0000_003F, 0) == w
  {
  }

  /** The decoded jump index is the low 26 bits of the word, so it is
      below 2^26. */
  lemma {:induction false} DecodeJumpIndex(w: bv32)
    ensures Decode(w).jimm == w & 0x03FF_FFFF && Decode(w).jimm < 0x400_0000
  {
  }

  /** The decoded immediate is the low 16 bits of the word. */
  lemma {:induction false} DecodeImmediate(w: bv32)
    ensures Decode(w).imm as bv32 == w & 0xFFFF
  {
  }

  /** Reassembling the R-type fields gives back the word. */
  lemma {:induction false} DecodeEncodeR(w: bv32)
    ensures EncodeR(Decode(w)) == w
  {
    RTypeSlices(w);
  }

  /** Reassembling opcode, rs, rt and the immediate gives back the word. */
  lemma {:induction false} DecodeEncodeI(w: bv32)
    ensures EncodeI(Decode(w)) == w
  {
  }

  /** Reassembling opcode and the jump index gives back the word. */
  lemma {:induction false} DecodeEncodeJ(w: bv32)
    ensures EncodeJ(Decode(w)) == w
  {
  }

  // ---------------------------------------------------------------------
  // Dispatch tables

  /** A slot of one of the four tables `initialize_InstructionSet` fills. */
  datatype Slot = FunctSlot(n: int) | RegimmSlot(n: int) | Cop0Slot(n: int) | OpcodeSlot(n: int)

  /** The `funct` table (SPECIAL): `None` is a null slot. */
  function FunctTable(n: int): Option<Isa.Instruction>
  {
    match n
    case 0x00 => Some(Isa.SLL)     case 0x02 => Some(Isa.SRL)     case 0x03 => Some(Isa.SRA)
    case 0x04 => Some(Isa.SLLV)    case 0x06 => Some(Isa.SRLV)    case 0x07 => Some(Isa.SRAV)
    case 0x08 => Some(Isa.JR)      case 0x09 => Some(Isa.JALR)    case 0x0A => Some(Isa.MOVZ)
    case 0x0B => Some(Isa.MOVN)    case 0x0C => Some(Isa.SYSCALL) case 0x0D => Some(Isa.BREAK)
    case 0x0F => Some(Isa.SYNC)    case 0x10 => Some(Isa.MFHI)    case 0x11 => Some(Isa.MTHI)
    case 0x12 => Some(Isa.MFLO)    case 0x13 => Some(Isa.MTLO)    case 0x18 => Some(Isa.MULT)
    case 0x19 => Some(Isa.MULTU)   case 0x1A => Some(Isa.DIV)     case 0x1B => Some(Isa.DIVU)
    case 0x20 => Some(Isa.ADD)     case 0x21 => Some(Isa.ADDU)    case 0x22 => Some(Isa.SUB)
    case 0x23 => Some(Isa.SUBU)    case 0x24 => Some(Isa.AND)     case 0x25 => Some(Isa.OR)
    case 0x26 => Some(Isa.XOR)     case 0x27 => Some(Isa.NOR)     case 0x2A => Some(Isa.SLT)
    case 0x2B => Some(Isa.SLTU)    case 0x30 => Some(Isa.TGE)     case 0x31 => Some(Isa.TGEU)
    case 0x32 => Some(Isa.TLT)     case 0x33 => Some(Isa.TLTU)    case 0x34 => Some(Isa.TEQ)
    case 0x36 => Some(Isa.TNE)
    case _ => None
  }

  /** The `regimm` table: its eight filled slots all hold the REGIMM body. */
  function RegimmTable(n: int): Option<Isa.Instruction>
  {
    if 0 <= n <= 3 || 0x10 <= n <= 0x13 then Some(Isa.REGIMM) else None
  }

  /** The `cop0` table: slots 0 (MFC0) and 4 (MTC0) hold the COP0 body. */
  function Cop0Table(n: int): Option<Isa.Instruction>
  {
    if n == 0 || n == 4 then Some(Isa.COP0) else None
  }

  /** The `opcode` table. */
  function OpcodeTable(n: int): Option<Isa.Instruction>
  {
    match n
    case 0x02 => Some(Isa.J)       case 0x03 => Some(Isa.JAL)     case 0x04 => Some(Isa.BEQ)
    case 0x05 => Some(Isa.BNE)     case 0x06 => Some(Isa.BLEZ)    case 0x07 => Some(Isa.BGTZ)
    case 0x08 => Some(Isa.ADDI)    case 0x09 => Some(Isa.ADDIU)   case 0x0A => Some(Isa.SLTI)
    case 0x0B => Some(Isa.SLTIU)   case 0x0C => Some(Isa.ANDI)    case 0x0D => Some(Isa.ORI)
    case 0x0E => Some(Isa.XORI)    case 0x0F => Some(Isa.LUI)     case 0x11 => Some(Isa.COP1)
    case 0x12 => Some(Isa.COP2)    case 0x14 => Some(Isa.BEQL)    case 0x15 => Some(Isa.BNEL)
    case 0x16 => Some(Isa.BLEZL)   case 0x17 => Some(Isa.BGTZL)   case 0x1C => Some(Isa.SPECIAL2)
    case 0x1F => Some(Isa.RESERVED_INST)
    case 0x20 => Some(Isa.LB)      case 0x21 => Some(Isa.LH)      case 0x22 => Some(Isa.LWL)
    case 0x23 => Some(Isa.LW)      case 0x24 => Some(Isa.LBU)     case 0x25 => Some(Isa.LHU)
    case 0x26 => Some(Isa.LWR)     case 0x28 => Some(Isa.SB)      case 0x29 => Some(Isa.SH)
    case 0x2A => Some(Isa.SWL)     case 0x2B => Some(Isa.SW)      case 0x2E => Some(Isa.SWR)
    case 0x2F => Some(Isa.CACHE)   case 0x30 => Some(Isa.LL)      case 0x31 => Some(Isa.LWCL)
    case 0x33 => Some(Isa.PREF)    case 0x38 => Some(Isa.SC)      case 0x39 => Some(Isa.SWCL)
    case 0x3D => Some(Isa.SDC1)    case 0x3E => Some(Isa.SDC2)
    case _ => None
  }

  function Lookup(s: Slot): Option<Isa.Instruction>
  {
    match s
    case FunctSlot(n) => FunctTable(n)
    case RegimmSlot(n) => RegimmTable(n)
    case Cop0Slot(n) => Cop0Table(n)
    case OpcodeSlot(n) => OpcodeTable(n)
  }

  /** The switch of `execute`: opcode 0 indexes `funct` by the funct field,
      1 indexes `regimm` by rt, 0x10 indexes `cop0` by rs, and every other
      opcode indexes `opcode`. */
  function Route(f: Fields): (s: Slot)
    requires InRange(f)
    ensures 0 <= s.n < 64
  {
    if f.opcode == 0 then FunctSlot(f.funct as int)
    else if f.opcode == 1 then RegimmSlot(f.rt as int)
    else if f.opcode == 0x10 then Cop0Slot(f.rs as int)
    else OpcodeSlot(f.opcode as int)
  }

  /** The instruction object `execute` calls, or `None` for a null slot (a
      host exception that ends `start`). */
  function Dispatch(f: Fields): Option<Isa.Instruction>
    requires InRange(f)
  {
    Lookup(Route(f))
  }

  /** The slot each class is stored in (REGIMM and COP0: their first
      slot). */
  function Home(i: Isa.Instruction): (s: Slot)
    ensures 0 <= s.n < 64
  {
    match i
    case SLL => FunctSlot(0x00)     case SRL => FunctSlot(0x02)     case SRA => FunctSlot(0x03)
    case SLLV => FunctSlot(0x04)    case SRLV => FunctSlot(0x06)    case SRAV => FunctSlot(0x07)
    case JR => FunctSlot(0x08)      case JALR => FunctSlot(0x09)    case MOVZ => FunctSlot(0x0A)
    case MOVN => FunctSlot(0x0B)    case SYSCALL => FunctSlot(0x0C) case BREAK => FunctSlot(0x0D)
    case SYNC => FunctSlot(0x0F)    case MFHI => FunctSlot(0x10)    case MTHI => FunctSlot(0x11)
    case MFLO => FunctSlot(0x12)    case MTLO => FunctSlot(0x13)    case MULT => FunctSlot(0x18)
    case MULTU => FunctSlot(0x19)   case DIV => FunctSlot(0x1A)     case DIVU => FunctSlot(0x1B)
    case ADD => FunctSlot(0x20)     case ADDU => FunctSlot(0x21)    case SUB => FunctSlot(0x22)
    case SUBU => FunctSlot(0x23)    case AND => FunctSlot(0x24)     case OR => FunctSlot(0x25)
    case XOR => FunctSlot(0x26)     case NOR => FunctSlot(0x27)     case SLT => FunctSlot(0x2A)
    case SLTU => FunctSlot(0x2B)    case TGE => FunctSlot(0x30)     case TGEU => FunctSlot(0x31)
    case TLT => FunctSlot(0x32)     case TLTU => FunctSlot(0x33)    case TEQ => FunctSlot(0x34)
    case TNE => FunctSlot(0x36)
    case REGIMM => RegimmSlot(0)    case COP0 => Cop0Slot(0)
    case J => OpcodeSlot(0x02)      case JAL => OpcodeSlot(0x03)    case BEQ => OpcodeSlot(0x04)
    case BNE => OpcodeSlot(0x05)    case BLEZ => OpcodeSlot(0x06)   case BGTZ => OpcodeSlot(0x07)
    case ADDI => OpcodeSlot(0x08)   case ADDIU => OpcodeSlot(0x09)  case SLTI => OpcodeSlot(0x0A)
    case SLTIU => OpcodeSlot(0x0B)  case ANDI => OpcodeSlot(0x0C)   case ORI => OpcodeSlot(0x0D)
    case XORI => OpcodeSlot(0x0E)   case LUI => OpcodeSlot(0x0F)    case COP1 => OpcodeSlot(0x11)
    case COP2 => OpcodeSlot(0x12)   case BEQL => OpcodeSlot(0x14)   case BNEL => OpcodeSlot(0x15)
    case BLEZL => OpcodeSlot(0x16)  case BGTZL => OpcodeSlot(0x17)  case SPECIAL2 => OpcodeSlot(0x1C)
    case RESERVED_INST => OpcodeSlot(0x1F)
    case LB => OpcodeSlot(0x20)     case LH => OpcodeSlot(0x21)     case LWL => OpcodeSlot(0x22)
    case LW => OpcodeSlot(0x23)     case LBU => OpcodeSlot(0x24)    case LHU => OpcodeSlot(0x25)
    case LWR => OpcodeSlot(0x26)    case SB => OpcodeSlot(0x28)     case SH => OpcodeSlot(0x29)
    case SWL => OpcodeSlot(0x2A)    case SW => OpcodeSlot(0x2B)     case SWR => OpcodeSlot(0x2E)
    case CACHE => OpcodeSlot(0x2F)  case LL => OpcodeSlot(0x30)     case LWCL => OpcodeSlot(0x31)
    case PREF => OpcodeSlot(0x33)   case SC => OpcodeSlot(0x38)     case SWCL => OpcodeSlot(0x39)
    case SDC1 => OpcodeSlot(0x3D)   case SDC2 => OpcodeSlot(0x3E)
  }


  /** Apart from REGIMM and COP0, which fill several slots, each class is
      stored in one slot only: its home. */
  lemma {:induction false} OneSlotPerClass(s: Slot, i: Isa.Instruction)
    requires Lookup(s) == Some(i) && i != Isa.REGIMM && i != Isa.COP0
    ensures s == Home(i)
  {
    match s
    case FunctSlot(n) => FunctHome(n);
    case RegimmSlot(n) =>
    case Cop0Slot(n) =>
    case OpcodeSlot(n) => OpcodeHome(n);
  }

  lemma {:induction false} FunctHome(n: int)
    requires FunctTable(n).Some?
    ensures Home(FunctTable(n).value) == FunctSlot(n)
  {
    if n < 0x0C {
      FunctHome0(n);
    } else if n < 0x18 {
      FunctHome1(n);
    } else if n < 0x26 {
      FunctHome2(n);
    } else {
      FunctHome3(n);
    }
  }

  lemma {:induction false} FunctHome0(n: int)
    requires n < 0x0C && FunctTable(n).Some?
    ensures Home(FunctTable(n).value) == FunctSlot(n)
  {
  }

  lemma {:induction false} FunctHome1(n: int)
    requires 0x0C <= n < 0x18 && FunctTable(n).Some?
    ensures Home(FunctTable(n).value) == FunctSlot(n)
  {
  }

  lemma {:induction false} FunctHome2(n: int)
    requires 0x18 <= n < 0x26 && FunctTable(n).Some?
    ensures Home(FunctTable(n).value) == FunctSlot(n)
  {
  }

  lemma {:induction false} FunctHome3(n: int)
    requires 0x26 <= n < 0x40 && FunctTable(n).Some?
    ensures Home(FunctTable(n).value) == FunctSlot(n)
  {
  }

  lemma {:induction false} OpcodeHome(n: int)
    requires OpcodeTable(n).Some?
    ensures Home(OpcodeTable(n).value) == OpcodeSlot(n)
  {
    if n < 0x06 {
      OpcodeHome0(n);
    } else if n < 0x0A {
      OpcodeHome1(n);
    } else if n < 0x0E {
      OpcodeHome2(n);
    } else if n < 0x14 {
      OpcodeHome3(n);
    } else if n < 0x18 {
      OpcodeHome4(n);
    } else if n < 0x21 {
      OpcodeHome5(n);
    } else if n < 0x24 {
      OpcodeHome6(n);
    } else if n < 0x28 {
      OpcodeHome7(n);
    } else if n < 0x2B {
      OpcodeHome8(n);
    } else if n < 0x30 {
      OpcodeHome9(n);
    } else if n < 0x38 {
      OpcodeHome10(n);
    } else if n < 0x3A {
      OpcodeHome11(n);
    } else {
      OpcodeHome12(n);
    }
  }

  lemma {:induction false} OpcodeHome0(n: int)
    requires n < 0x06 && OpcodeTable(n).Some?
    ensures Home(OpcodeTable(n).value) == OpcodeSlot(n)
  {
  }

  lemma {:induction false} OpcodeHome1(n: int)
    requires 0x06 <= n < 0x0A && OpcodeTable(n).Some?
    ensures Home(OpcodeTable(n).value) == OpcodeSlot(n)
  {
  }

  lemma {:induction false} OpcodeHome2(n: int)
    requires 0x0A <= n < 0x0E && OpcodeTable(n).Some?
    ensures Home(OpcodeTable(n).value) == OpcodeSlot(n)
  {
  }

  lemma {:induction false} OpcodeHome3(n: int)
    requires 0x0E <= n < 0x14 && OpcodeTable(n).Some?
    ensures Home(OpcodeTable(n).value) == OpcodeSlot(n)
  {
  }

  lemma {:induction false} OpcodeHome4(n: int)
    requires 0x14 <= n < 0x18 && OpcodeTable(n).Some?
    ensures Home(OpcodeTable(n).value) == OpcodeSlot(n)
  {
  }

  lemma {:induction false} OpcodeHome5(n: int)
    requires 0x18 <= n < 0x21 && OpcodeTable(n).Some?
    ensures Home(OpcodeTable(n).value) == OpcodeSlot(n)
  {
  }

  lemma {:induction false} OpcodeHome6(n: int)
    requires 0x21 <= n < 0x24 && OpcodeTable(n).Some?
    ensures Home(OpcodeTable(n).value) == OpcodeSlot(n)
  {
  }

  lemma {:induction false} OpcodeHome7(n: int)
    requires 0x24 <= n < 0x28 && OpcodeTable(n).Some?
    ensures Home(OpcodeTable(n).value) == OpcodeSlot(n)
  {
  }

  lemma {:induction false} OpcodeHome8(n: int)
    requires 0x28 <= n < 0x2B && OpcodeTable(n).Some?
    ensures Home(OpcodeTable(n).value) == OpcodeSlot(n)
  {
  }

  lemma {:induction false} OpcodeHome9(n: int)
    requires 0x2B <= n < 0x30 && OpcodeTable(n).Some?
    ensures Home(OpcodeTable(n).value) == OpcodeSlot(n)
  {
  }

  lemma {:induction false} OpcodeHome10(n: int)
    requires 0x30 <= n < 0x38 && OpcodeTable(n).Some?
    ensures Home(OpcodeTable(n).value) == OpcodeSlot(n)
  {
  }

  lemma {:induction false} OpcodeHome11(n: int)
    requires 0x38 <= n < 0x3A && OpcodeTable(n).Some?
    ensures Home(OpcodeTable(n).value) == OpcodeSlot(n)
  {
  }

  lemma {:induction false} OpcodeHome12(n: int)
    requires 0x3A <= n && OpcodeTable(n).Some?
    ensures Home(OpcodeTable(n).value) == OpcodeSlot(n)
  {
  }

  /** Every class is stored at its home slot: the tables reach every
      class, REGIMM and COP0 included. */
  lemma {:induction false} HomeHolds(i: Isa.Instruction)
    ensures Lookup(Home(i)) == Some(i)
  {
    if i.SLL? || i.SRL? || i.SRA? || i.SLLV? || i.SRLV? || i.SRAV? || i.JR? || i.JALR? || i.MOVZ? || i.MOVN? {
      HomeHolds0(i);
    } else if i.SYSCALL? || i.BREAK? || i.SYNC? || i.MFHI? || i.MTHI? || i.MFLO? || i.MTLO? {
      HomeHolds1(i);
    } else if i.MULT? || i.MULTU? || i.DIV? || i.DIVU? || i.ADD? || i.ADDU? || i.SUB? || i.SUBU? {
      HomeHolds2(i);
    } else if i.AND? || i.OR? || i.XOR? || i.NOR? || i.SLT? || i.SLTU? {
      HomeHolds3(i);
    } else if i.TGE? || i.TGEU? || i.TLT? || i.TLTU? || i.TEQ? || i.TNE? {
      HomeHolds4(i);
    } else if i.REGIMM? || i.J? || i.JAL? || i.BEQ? || i.BNE? || i.BLEZ? || i.BGTZ? {
      HomeHolds5(i);
    } else if i.ADDI? || i.ADDIU? || i.SLTI? || i.SLTIU? {
      HomeHolds6(i);
    } else if i.ANDI? || i.ORI? || i.XORI? || i.LUI? {
      HomeHolds7(i);
    } else if i.COP0? || i.COP1? || i.COP2? || i.BEQL? {
      HomeHolds8(i);
    } else if i.BNEL? || i.BLEZL? || i.SPECIAL2? || i.BGTZL? {
      HomeHolds9(i);
    } else if i.LB? || i.LH? || i.LWL? {
      HomeHolds10(i);
    } else if i.LW? || i.LBU? || i.LHU? {
      HomeHolds11(i);
    } else if i.LWR? || i.SB? || i.SH? {
      HomeHolds12(i);
    } else if i.SWL? || i.SW? || i.SWR? {
      HomeHolds13(i);
    } else if i.CACHE? || i.LL? {
      HomeHolds14(i);
    } else if i.SDC1? || i.SDC2? {
      HomeHolds15(i);
    } else if i.LWCL? || i.PREF? {
      HomeHolds16(i);
    } else if i.SC? || i.SWCL? {
      HomeHolds17(i);
    } else {
      HomeHolds18(i);
    }
  }

  lemma {:induction false} HomeHolds0(i: Isa.Instruction)
    requires i.SLL? || i.SRL? || i.SRA? || i.SLLV? || i.SRLV? || i.SRAV? || i.JR? || i.JALR? || i.MOVZ? || i.MOVN?
    ensures Lookup(Home(i)) == Some(i)
  {
  }

  lemma {:induction false} HomeHolds1(i: Isa.Instruction)
    requires i.SYSCALL? || i.BREAK? || i.SYNC? || i.MFHI? || i.MTHI? || i.MFLO? || i.MTLO?
    ensures Lookup(Home(i)) == Some(i)
  {
  }

  lemma {:induction false} HomeHolds2(i: Isa.Instruction)
    requires i.MULT? || i.MULTU? || i.DIV? || i.DIVU? || i.ADD? || i.ADDU? || i.SUB? || i.SUBU?
    ensures Lookup(Home(i)) == Some(i)
  {
  }

  lemma {:induction false} HomeHolds3(i: Isa.Instruction)
    requires i.AND? || i.OR? || i.XOR? || i.NOR? || i.SLT? || i.SLTU?
    ensures Lookup(Home(i)) == Some(i)
  {
  }

  lemma {:induction false} HomeHolds4(i: Isa.Instruction)
    requires i.TGE? || i.TGEU? || i.TLT? || i.TLTU? || i.TEQ? || i.TNE?
    ensures Lookup(Home(i)) == Some(i)
  {
  }

  lemma {:induction false} HomeHolds5(i: Isa.Instruction)
    requires i.REGIMM? || i.J? || i.JAL? || i.BEQ? || i.BNE? || i.BLEZ? || i.BGTZ?
    ensures Lookup(Home(i)) == Some(i)
  {
  }

  lemma {:induction false} HomeHolds6(i: Isa.Instruction)
    requires i.ADDI? || i.ADDIU? || i.SLTI? || i.SLTIU?
    ensures Lookup(Home(i)) == Some(i)
  {
  }

  lemma {:induction false} HomeHolds7(i: Isa.Instruction)
    requires i.ANDI? || i.ORI? || i.XORI? || i.LUI?
    ensures Lookup(Home(i)) == Some(i)
  {
  }

  lemma {:induction false} HomeHolds8(i: Isa.Instruction)
    requires i.COP0? || i.COP1? || i.COP2? || i.BEQL?
    ensures Lookup(Home(i)) == Some(i)
  {
  }

  lemma {:induction false} HomeHolds9(i: Isa.Instruction)
    requires i.BNEL? || i.BLEZL? || i.SPECIAL2? || i.BGTZL?
    ensures Lookup(Home(i)) == Some(i)
  {
  }

  lemma {:induction false} HomeHolds10(i: Isa.Instruction)
    requires i.LB? || i.LH? || i.LWL?
    ensures Lookup(Home(i)) == Some(i)
  {
  }

  lemma {:induction false} HomeHolds11(i: Isa.Instruction)
    requires i.LW? || i.LBU? || i.LHU?
    ensures Lookup(Home(i)) == Some(i)
  {
  }

  lemma {:induction false} HomeHolds12(i: Isa.Instruction)
    requires i.LWR? || i.SB? || i.SH?
    ensures Lookup(Home(i)) == Some(i)
  {
  }

  lemma {:induction false} HomeHolds13(i: Isa.Instruction)
    requires i.SWL? || i.SW? || i.SWR?
    ensures Lookup(Home(i)) == Some(i)
  {
  }

  lemma {:induction false} HomeHolds14(i: Isa.Instruction)
    requires i.CACHE? || i.LL?
    ensures Lookup(Home(i)) == Some(i)
  {
  }

  lemma {:induction false} HomeHolds15(i: Isa.Instruction)
    requires i.SDC1? || i.SDC2?
    ensures Lookup(Home(i)) == Some(i)
  {
  }

  lemma {:induction false} HomeHolds16(i: Isa.Instruction)
    requires i.LWCL? || i.PREF?
    ensures Lookup(Home(i)) == Some(i)
  {
  }

  lemma {:induction false} HomeHolds17(i: Isa.Instruction)
    requires i.SC? || i.SWCL?
    ensures Lookup(Home(i)) == Some(i)
  {
  }

  lemma {:induction false} HomeHolds18(i: Isa.Instruction)
    requires i.RESERVED_INST?
    ensures Lookup(Home(i)) == Some(i)
  {
  }

  /** The opcode values that `execute` routes to a table never reach the
      opcode table: the opcode table's slots 0, 1 and 0x10 are never read. */
  lemma {:induction false} RoutedOpcodes(f: Fields)
    requires InRange(f)
    ensures Route(f).OpcodeSlot? <==> f.opcode != 0 && f.opcode != 1 && f.opcode != 0x10
    ensures Route(f).RegimmSlot? ==> (Dispatch(f).Some? <==> f.rt <= 3 || 0x10 <= f.rt <= 0x13)
    ensures Route(f).Cop0Slot? ==> (Dispatch(f).Some? <==> f.rs == 0 || f.rs == 4)
  {
  }

  /** A decoded word that dispatches to a class other than REGIMM and COP0
      routes to that class's home slot, through the funct table or the
      opcode table. */
  lemma {:induction false} DispatchOnlyAtHome(f: Fields, i: Isa.Instruction)
    requires InRange(f) && Dispatch(f) == Some(i) && i != Isa.REGIMM && i != Isa.COP0
    ensures Route(f) == Home(i)
    ensures f.opcode != 1 && f.opcode != 0x10
  {
    if f.opcode == 1 || f.opcode == 0x10 {
      assert false;
    } else {
      OneSlotPerClass(Route(f), i);
    }
  }


  // ---------------------------------------------------------------------
  // Fetch

  /** The processor state `fetch` and `serviceints` work on: the state the
      instruction context reaches, the instruction register and the
      `branch` flag. */
  datatype Machine = Machine(arch: Arch, ir: bv32, branch: bool)

  /** The branch half of `fetch`: both flags cleared and PC at the branch
      target. */
  function Redirect(m: Machine): (n: Machine)
    ensures n.ir == m.ir && !n.branch && !n.arch.delay && n.arch.pc == m.arch.target
  {
    Machine(m.arch.(pc := m.arch.target, delay := false), m.ir, false)
  }

  /** The rest of `fetch`: IR takes the word at PC, and PC points past it. */
  function Advance(m: Machine): (n: Machine)
    ensures n.branch == m.branch && n.arch.delay == m.arch.delay
  {
    var read := WordRead(m.arch.mem, m.arch.pc);
    Machine(m.arch.(pc := Add32(m.arch.pc, 4), mem := read.1), read.0, m.branch)
  }

  /** `fetch`: with a pending branch, clear both flags and read the
      instruction at the branch target; otherwise read it at PC.  PC then
      points past the word read, and a set delay flag turns into a pending
      branch. */
  function FetchNext(m: Machine): Machine
  {
    var n := Advance(if m.branch then Redirect(m) else m);
    n.(branch := n.branch || n.arch.delay)
  }

  /** Without a pending branch, fetch reads the word at PC and advances PC
      by 4; the delay flag is kept and becomes the pending branch. */
  lemma {:induction false} FetchInSequence(m: Machine)
    requires !m.branch
    ensures FetchNext(m).ir == WordRead(m.arch.mem, m.arch.pc).0
    ensures FetchNext(m).arch == m.arch.(pc := Add32(m.arch.pc, 4), mem := WordRead(m.arch.mem, m.arch.pc).1)
    ensures FetchNext(m).branch == m.arch.delay
  {
  }

  /** With a pending branch, fetch reads the word at the branch target,
      leaves PC 4 past it and clears both flags. */
  lemma {:induction false} FetchAtTarget(m: Machine)
    requires m.branch
    ensures FetchNext(m).ir == WordRead(m.arch.mem, m.arch.target).0
    ensures FetchNext(m).arch.pc == Add32(m.arch.target, 4)
    ensures !FetchNext(m).branch && !FetchNext(m).arch.delay
    ensures FetchNext(m).arch.gpr == m.arch.gpr && FetchNext(m).arch.target == m.arch.target
  {
  }

  /** The delay slot: after a branch instruction has set the delay flag,
      the next fetch reads the word after the branch, and the one after
      that (when the delay-slot instruction leaves the flags and the target
      alone) reads the branch target. */
  lemma {:induction false} OneDelaySlot(m: Machine)
    requires !m.branch && m.arch.delay
    ensures var slot := FetchNext(m);
            && slot.ir == WordRead(m.arch.mem, m.arch.pc).0
            && slot.branch && slot.arch.delay && slot.arch.target == m.arch.target
            && FetchNext(slot).ir == WordRead(slot.arch.mem, m.arch.target).0
            && FetchNext(slot).arch.pc == Add32(m.arch.target, 4)
            && !FetchNext(slot).branch && !FetchNext(slot).arch.delay
  {
    FetchInSequence(m);
    FetchAtTarget(FetchNext(m));
  }

  // ---------------------------------------------------------------------
  // Exception entry

  /** `readBits(value, mask, shift)`: `(value & mask) >> shift`; C# takes
      the shift count of a 32-bit operand modulo 32. */
  function ReadBits(value: bv32, mask: bv32, shift: bv32): bv32
  {
    (value & mask) >> (shift & 31)
  }

  /** The three coprocessor-0 registers the exception entry reads and
      writes: Status (12,0), Cause (13,0) and the cell (30,0) that it uses
      as EPC. */
  datatype Cp0View = Cp0View(status: bv32, cause: bv32, epc: bv32)

  /** `setRegisterHW(reg, sel, v)` on a cell of the reset table: the
      hardware-mode write under that cell's policy. */
  function HwWrite(reg: int, sel: int, prev: bv32, v: bv32): bv32
  {
    MaskedWrite(CellPolicy(ResetCell(reg, sel)), prev, v, true)
  }

  /** The interrupt tests of `serviceints`: a dequeued INT is dropped when
      Status.IE reads 0, when the Status.IM test for its interrupt number
      reads 0, or when the EXL and ERL tests both read 1. */
  predicate Dropped(e: MipsException, status: bv32)
  {
    && GetCode(e) == INT
    && (|| ReadBits(status, 0x1, 0) == 0
        || ReadBits(status, 0x8000, Sub32(e.intNumber, 1)) == 0
        || (ReadBits(status, 0x10, 1) == 1 && ReadBits(status, 0x100, 2) == 1))
  }

  /** Whether the entry finds Status.EXL clear: `readBits(Status, 0x10, 1)`
      reads 0. */
  predicate ExlClear(status: bv32)
  {
    ReadBits(status, 0x10, 1) == 0
  }

  /** The first block of the entry: with EXL clear, EPC is PC - 8 and
      Cause.BD is set in a delay slot, else EPC is PC - 4 and Cause.BD is
      cleared, and the vector offset is chosen by the code; with EXL set,
      EPC is PC - 4 and the offset is 0x180.  Returns the registers and the
      offset. */
  function SaveEpc(pc: bv32, delay: bool, v: Cp0View, code: ExceptionCode): (Cp0View, bv32)
  {
    if ExlClear(v.status) then
      var epc := if delay then HwWrite(30, 0, v.epc, Sub32(pc, 8)) else HwWrite(30, 0, v.epc, Sub32(pc, 4));
      var cause := if delay then HwWrite(13, 0, v.cause, Or32(v.cause, 0x8000_0000))
                   else HwWrite(13, 0, v.cause, And32(v.cause, 0x7FFF_FFFF));
      (Cp0View(v.status, cause, epc), VectorOffset(v.status, cause, code))
    else
      (v.(epc := HwWrite(30, 0, v.epc, Sub32(pc, 4))), VectorOffset(v.status, v.cause, code))
  }

  /** The vector offset, chosen with EXL clear by the code and by Cause.IV
      (read after the BD update); 0x180 with EXL set. */
  function VectorOffset(status: bv32, cause: bv32, code: ExceptionCode): bv32
  {
    if !ExlClear(status) then 0x180
    else if code == TLBL || code == TLBS then 0
    else if code == INT && ReadBits(cause, 0x80_0000, 23) == 1 then 0x200
    else 0x180
  }

  /** The second block: Cause.CE cleared, the code ORed into Cause under
      the ExcCode mask, and Status.EXL set. */
  function RecordCause(v: Cp0View, code: ExceptionCode): Cp0View
  {
    var cleared := HwWrite(13, 0, v.cause, And32(v.cause, 0xCFFF_FFFF));
    var coded := HwWrite(13, 0, cleared, Or32(cleared, And32(0x7C, Ordinal(code))));
    Cp0View(HwWrite(12, 0, v.status, Or32(v.status, 0x10)), coded, v.epc)
  }

  /** The handler address: the offset from 0xBFC00200 when Status.BEV
      reads 1, from 0x80000000 otherwise. */
  function Vector(status: bv32, offset: bv32): bv32
  {
    Add32(if ReadBits(status, 0x40_0000, 22) == 1 then 0xBFC0_0200 else 0x8000_0000, offset)
  }

  /** `serviceints` on the machine, the three CP0 registers and the queue:
      nothing happens on an empty queue; a dropped interrupt is only
      dequeued; otherwise the entry records the exception and PC moves to
      the handler with both branch flags cleared. */
  function Service(m: Machine, v: Cp0View, q: seq<MipsException>): (Machine, Cp0View, seq<MipsException>)
  {
    if q == [] then (m, v, q)
    else if Dropped(q[0], v.status) then (m, v, q[1..])
    else
      var (saved, offset) := SaveEpc(m.arch.pc, m.arch.delay, v, GetCode(q[0]));
      var recorded := RecordCause(saved, GetCode(q[0]));
      (m.(arch := m.arch.(pc := Vector(recorded.status, offset), delay := false), branch := false),
       recorded, q[1..])
  }

  /** The EXL and ERL tests read the masked bit shifted by 1 and 2, which
      gives 0 or 8 and 0 or 0x40: neither ever reads 1, so the third
      interrupt test never drops anything. */
  lemma {:induction false} KernelTestNeverFires(status: bv32)
    ensures ReadBits(status, 0x10, 1) == 0 || ReadBits(status, 0x10, 1) == 8
    ensures ReadBits(status, 0x100, 2) == 0 || ReadBits(status, 0x100, 2) == 0x40
    ensures !(ReadBits(status, 0x10, 1) == 1 && ReadBits(status, 0x100, 2) == 1)
  {
  }

  /** The EXL test reads Status bit 4. */
  lemma {:induction false} ExlTest(status: bv32)
    ensures ExlClear(status) <==> status & 0x10 == 0
  {
  }

  /** An INT raised by an instruction (SUB's overflow) carries interrupt
      number 0: the IM test then shifts by -1, that is by 31, reads 0 and
      drops it, whatever Status holds. */
  lemma {:induction false} InstructionIntDropped(status: bv32)
    ensures Dropped(Raise(INT), status)
  {
  }

  /** The vector offset: 0 exactly for TLBL and TLBS with EXL clear, 0x200
      exactly for INT with EXL clear and Cause.IV reading 1, and 0x180
      otherwise. */
  lemma {:induction false} VectorOffsets(status: bv32, cause: bv32, code: ExceptionCode)
    ensures VectorOffset(status, cause, code) == 0 <==> ExlClear(status) && (code == TLBL || code == TLBS)
    ensures VectorOffset(status, cause, code) == 0x200 <==>
              ExlClear(status) && code == INT && cause & 0x80_0000 != 0
    ensures VectorOffset(status, cause, code) in {0, 0x180, 0x200}
  {
  }

  /** Status, Cause and (30,0) are default-constructed cells: all their
      bits are LOCKED, so a hardware write leaves each of them as it was. */
  lemma {:induction false} EntryCellsLocked(reg: int, prev: bv32, v: bv32)
    requires reg == 12 || reg == 13 || reg == 30
    ensures HwWrite(reg, 0, prev, v) == prev
  {
    assert ResetCell(reg, 0) == DefaultCell;
    DefaultCellHardwareWrite(prev, v);
  }

  /** The first entry block leaves the three registers as they were and
      picks the offset from them as they were. */
  lemma {:induction false} SaveEpcKeeps(pc: bv32, delay: bool, v: Cp0View, code: ExceptionCode)
    ensures SaveEpc(pc, delay, v, code).0 == v
    ensures SaveEpc(pc, delay, v, code).1 == VectorOffset(v.status, v.cause, code)
  {
    EntryCellsLocked(30, v.epc, Sub32(pc, 8));
    EntryCellsLocked(30, v.epc, Sub32(pc, 4));
    EntryCellsLocked(13, v.cause, Or32(v.cause, 0x8000_0000));
    EntryCellsLocked(13, v.cause, And32(v.cause, 0x7FFF_FFFF));
  }

  /** The second entry block leaves the three registers as they were. */
  lemma {:induction false} RecordCauseKeeps(v: Cp0View, code: ExceptionCode)
    ensures RecordCause(v, code) == v
  {
    EntryCellsLocked(13, v.cause, And32(v.cause, 0xCFFF_FFFF));
    EntryCellsLocked(13, v.cause, Or32(v.cause, And32(0x7C, Ordinal(code))));
    EntryCellsLocked(12, v.status, Or32(v.status, 0x10));
  }

  /** What servicing amounts to once the entry blocks are known to write
      nothing: the queue loses its head, and an exception that is not
      dropped moves PC to the vector the unchanged registers select, with
      both branch flags cleared. */
  function Serviced(m: Machine, v: Cp0View, q: seq<MipsException>): (Machine, Cp0View, seq<MipsException>)
  {
    if q == [] then (m, v, q)
    else if Dropped(q[0], v.status) then (m, v, q[1..])
    else
      var pc := Vector(v.status, VectorOffset(v.status, v.cause, GetCode(q[0])));
      (m.(arch := m.arch.(pc := pc, delay := false), branch := false), v, q[1..])
  }

  /** Servicing is its closed form: it never changes the three CP0
      registers, and touches nothing of the machine but PC and the two
      branch flags. */
  lemma {:induction false} ServiceClosedForm(m: Machine, v: Cp0View, q: seq<MipsException>)
    ensures Service(m, v, q) == Serviced(m, v, q)
  {
    if q != [] && !Dropped(q[0], v.status) {
      SaveEpcKeeps(m.arch.pc, m.arch.delay, v, GetCode(q[0]));
      RecordCauseKeeps(v, GetCode(q[0]));
    }
  }

  /** With the registers as the constructor leaves them (all three read
      0): every queued INT is dropped, TLBL and TLBS vector to 0x80000000
      and every other code to 0x80000180, with both branch flags cleared. */
  lemma {:induction false} ResetEntry(m: Machine, e: MipsException, rest: seq<MipsException>)
    ensures var (m1, v1, q1) := Serviced(m, Cp0View(0, 0, 0), [e] + rest);
            && q1 == rest && v1 == Cp0View(0, 0, 0)
            && (GetCode(e) == INT ==> m1 == m)
            && (GetCode(e) != INT ==>
                  && m1.arch == m.arch.(pc := m1.arch.pc, delay := false) && !m1.branch
                  && m1.arch.pc == if GetCode(e) == TLBL || GetCode(e) == TLBS then 0x8000_0000 else 0x8000_0180)
  {
    var q := [e] + rest;
    assert q[0] == e && q[1..] == rest;
    assert ReadBits(0, 0x1, 0) == 0 && ExlClear(0) && ReadBits(0, 0x40_0000, 22) == 0;
    assert Dropped(e, 0) <==> GetCode(e) == INT;
  }


  // ---------------------------------------------------------------------
  // The processor

  /** The general registers as the constructor leaves them: 0 except SP
      (29) and FP (30), which hold 0x10010000. */
  function ResetGprs(): (g: seq<bv32>)
    ensures |g| == 32 && g[0] == 0 && g[29] == g[30] == 0x1001_0000
  {
    seq(32, i => if i == 29 || i == 30 then 0x1001_0000 else 0)
  }

  /** `cyclecount++` on the UInt64 counter. */
  function Inc64(c: bv64): bv64
  {
    c + 1
  }

  /** What one iteration of `start` ends with: the instruction completed
      (`cyclecount` counts it), it threw a `MIPS_Exception` (now at the back
      of the queue), or a host exception ended the loop. */
  datatype StepResult = Retired | Enqueued(e: MipsException) | Halted

  /** A run of `steps` iterations of `start`: `trace` holds their results in
      order, no iteration before the last one halted, and the run halted
      exactly when its last iteration did. */
  ghost predicate Ran(trace: seq<StepResult>, steps: nat, halted: bool)
  {
    && |trace| == steps
    && Halted !in trace[..if steps == 0 then 0 else steps - 1]
    && (halted <==> steps > 0 && trace[steps - 1] == Halted)
  }

  /** Every view of the list shows the three registers reading 0. */
  ghost predicate AllReset(views: seq<Cp0View>)
  {
    forall v :: v in views ==> v == Cp0View(0, 0, 0)
  }

  /** A run from reset stays at reset one view longer. */
  lemma {:induction false} AllResetNext(views: seq<Cp0View>, v: Cp0View)
    requires AllReset(views) && v == Cp0View(0, 0, 0)
    ensures AllReset(views + [v])
  {
  }

  /** One more iteration after a run that has not halted. */
  lemma {:induction false} RanNext(trace: seq<StepResult>, steps: nat, r: StepResult)
    requires Ran(trace, steps, false)
    ensures Ran(trace + [r], steps + 1, r == Halted)
  {
    assert (trace + [r])[..steps] == trace;
  }

  class Processor {
    /** The context, which holds the processor's register file, PC, HI, LO,
        branch target, delay flag, memory and coprocessor 0: the very
        objects the processor works on. */
    const context: InstructionContext
    const ir: Register
    var cyclecount: bv64
    var branch: bool
    /** The interrupt queue, first element first. */
    var interrupts: seq<MipsException>

    /** The constructor: zeroed PC, IR, HI, LO and branch target, both
        branch flags clear, the coprocessor-0 bank at reset, register 0
        muted, registers 29 and 30 (SP and FP) at 0x10010000, an empty
        memory, an empty queue, and a context over these handles. */
    constructor ()
      ensures Valid()
      ensures Snapshot() == Machine(Arch(ResetGprs(), 0, 0, 0, 0, false, MemState(map[], map[], map[])), 0, false)
      ensures View() == Cp0View(0, 0, 0)
      ensures interrupts == [] && cyclecount == 0 && context.GetFields() == Fields(0, 0, 0, 0, 0, 0, 0, 0)
    {
      var ctx, ir0 := Wire();
      context, ir, cyclecount, branch, interrupts := ctx, ir0, 0, false, [];
    }

    /** The handles of the constructor: new cells for PC, IR, HI, LO and the
        branch target, a clear delay flag, a coprocessor-0 bank at reset, the
        register file with SP and FP set, an empty memory, and a context over
        all of them. */
    static method Wire() returns (ctx: InstructionContext, ir: Register)
      ensures fresh(ctx) && ctx.Valid() && ctx.Cp0Ok() && ctx.cp0.Table == ResetCell
      ensures ctx.State() == Arch(ResetGprs(), 0, 0, 0, 0, false, MemState(map[], map[], map[]))
      ensures ctx.cp0.GetRegister(12, 0) == ctx.cp0.GetRegister(13, 0) == ctx.cp0.GetRegister(30, 0) == Some(0)
      ensures ctx.GetFields() == Fields(0, 0, 0, 0, 0, 0, 0, 0)
      ensures ir.register == 0 && !ir.muted && ir !in ctx.registerFile
      ensures ir != ctx.pc && ir != ctx.hi && ir != ctx.lo && ir != ctx.branchTarget
    {
      var pc, hi, lo, target, regs;
      pc, ir, hi, lo, target, regs := Cells();
      var delay := new Flag(false);
      var memory := new Memory();
      var bank := ResetBank();
      ctx := new InstructionContext(memory, regs, pc, hi, lo, target, delay, bank);
      assert ctx.Gpr() == ResetGprs();
    }

    /** The coprocessor-0 bank at reset, Status, Cause and (30, 0) reading
        0. */
    static method ResetBank() returns (bank: Cpc0)
      ensures fresh(bank) && bank.Valid() && bank.Shape() && bank.Policies() && bank.Table == ResetCell
      ensures bank.GetRegister(12, 0) == bank.GetRegister(13, 0) == bank.GetRegister(30, 0) == Some(0)
    {
      bank := new Cpc0();
      StatusCauseCells();
    }

    /** PC, IR, HI, LO and the branch target at 0, and the register file. */
    static method Cells() returns (pc: Register, ir: Register, hi: Register, lo: Register, target: Register,
                                   regs: seq<Register>)
      ensures |regs| == 32 && regs[0].muted && regs[0].register == 0
      ensures forall i :: 1 <= i < 32 ==> !regs[i].muted
      ensures forall i, j :: 0 <= i < j < 32 ==> regs[i] != regs[j]
      ensures forall i :: 0 <= i < 32 ==> regs[i].register == ResetGprs()[i]
      ensures pc !in regs && ir !in regs && hi !in regs && lo !in regs && target !in regs
      ensures pc.register == ir.register == hi.register == lo.register == target.register == 0
      ensures !pc.muted && !ir.muted && !hi.muted && !lo.muted && !target.muted
      ensures pc != hi && pc != lo && pc != target && hi != lo && hi != target && lo != target
      ensures ir != pc && ir != hi && ir != lo && ir != target
    {
      pc := new Register();
      ir := new Register();
      hi := new Register();
      lo := new Register();
      target := new Register();
      regs := ResetFile(pc, ir, hi, lo, target);
    }

    /** The register file with SP and FP set to 0x10010000. */
    static method ResetFile(pc: Register, ir: Register, hi: Register, lo: Register, target: Register)
      returns (regs: seq<Register>)
      ensures |regs| == 32 && regs[0].muted
      ensures forall i :: 1 <= i < 32 ==> !regs[i].muted
      ensures forall i, j :: 0 <= i < j < 32 ==> regs[i] != regs[j]
      ensures pc !in regs && ir !in regs && hi !in regs && lo !in regs && target !in regs
      ensures forall i :: 0 <= i < 32 ==> fresh(regs[i]) && regs[i].register == ResetGprs()[i]
    {
      regs := RegisterFile(pc, ir, hi, lo, target);
      regs[29].SetValue(0x1001_0000);
      regs[30].SetValue(0x1001_0000);
    }

    /** The register file of the constructor: a muted register 0 holding 0,
        then 31 new registers, all distinct from the special registers. */
    static method RegisterFile(pc: Register, ir: Register, hi: Register, lo: Register, target: Register)
      returns (regs: seq<Register>)
      ensures |regs| == 32 && regs[0].muted && regs[0].register == 0
      ensures forall i :: 1 <= i < 32 ==> !regs[i].muted && regs[i].register == 0
      ensures forall i, j :: 0 <= i < j < 32 ==> regs[i] != regs[j]
      ensures pc !in regs && ir !in regs && hi !in regs && lo !in regs && target !in regs
      ensures forall i :: 0 <= i < 32 ==> fresh(regs[i])
    {
      var r0 := new Register.Muted(0, true);
      regs := [r0];
      while |regs| < 32
        invariant 1 <= |regs| <= 32 && regs[0].muted && regs[0].register == 0
        invariant forall i :: 1 <= i < |regs| ==> !regs[i].muted && regs[i].register == 0
        invariant forall i, j :: 0 <= i < j < |regs| ==> regs[i] != regs[j]
        invariant pc !in regs && ir !in regs && hi !in regs && lo !in regs && target !in regs
        invariant forall i :: 0 <= i < |regs| ==> fresh(regs[i])
      {
        var r := new Register();
        regs := regs + [r];
      }
    }

    /** IR is one more distinct, writable cell, apart from those the context
        holds (fixed when the processor is built). */
    ghost predicate Wired()
    {
      && ir !in context.registerFile && ir != context.pc && ir != context.hi && ir != context.lo && ir != context.branchTarget && !ir.muted
    }

    /** The handles are wired, the register cells and the memory are as the
        constructor leaves them, and coprocessor 0 keeps its reset table. */
    ghost predicate Valid()
      reads context.registerFile, context.mainMemory, context.cp0, context.cp0.registerFile, context.cp0.Policy
    {
      Wired() && context.Valid() && context.Cp0Ok() && context.cp0.Table == ResetCell
    }

    /** The machine: the context's state, IR and the `branch` flag. */
    ghost function Snapshot(): Machine
      requires |context.registerFile| == 32
      reads this, context.registerFile, context.pc, context.hi, context.lo, context.branchTarget
      reads context.branchDelay, context.mainMemory, ir
    {
      Machine(context.State(), ir.register, branch)
    }

    /** Status, Cause and (30,0), which the constructor populates. */
    ghost function View(): Cp0View
      requires context.cp0.Valid() && context.cp0.Shape() && context.cp0.Table == ResetCell
      reads context.cp0, context.cp0.registerFile, context.cp0.Cells
    {
      Cp0View(context.cp0.GetRegister(12, 0).value, context.cp0.GetRegister(13, 0).value, context.cp0.GetRegister(30, 0).value)
    }

    /** `fetch`: the branch (when one is pending) moves PC to the branch
        target, then IR takes the word at PC and PC advances by 4; a set
        delay flag marks a branch for the next fetch. */
    method Fetch()
      requires Valid()
      modifies this, ir, context.pc, context.branchDelay, context.mainMemory
      ensures Valid()
      ensures context.State() == FetchNext(old(Snapshot())).arch
      ensures ir.register == FetchNext(old(Snapshot())).ir && branch == FetchNext(old(Snapshot())).branch
      ensures interrupts == old(interrupts) && cyclecount == old(cyclecount)
      ensures View() == old(View())
    {
      ghost var m := if branch then Redirect(Snapshot()) else Snapshot();
      Jump();
      LoadIr();
      assert context.State() == Advance(m).arch && ir.register == Advance(m).ir;
      Arm();
    }

    /** The branch half of `fetch`: with a pending branch, both branch
        controls are cleared and PC moves to the branch target. */
    method Jump()
      requires Valid()
      modifies this, context.pc, context.branchDelay
      ensures Valid() && !branch
      ensures context.State() == if old(branch) then old(context.State()).(pc := old(context.State()).target, delay := false)
                                 else old(context.State())
      ensures interrupts == old(interrupts) && cyclecount == old(cyclecount)
      ensures View() == old(View())
    {
      if branch {
        Disarm();
        ToTarget();
      }
    }

    /** `branch = false`: nothing the context reaches changes. */
    method Disarm()
      requires Valid()
      modifies this
      ensures Valid() && !branch
      ensures context.State() == old(context.State())
      ensures interrupts == old(interrupts) && cyclecount == old(cyclecount)
      ensures View() == old(View())
    {
      branch := false;
    }

    /** `setBranchDelay(false)`, then PC takes the branch target. */
    method ToTarget()
      requires Valid()
      modifies context.pc, context.branchDelay
      ensures Valid()
      ensures context.State() == old(context.State()).(pc := old(context.State()).target, delay := false)
      ensures View() == old(View())
    {
      context.SetBranchDelay(false);
      context.WritePc(context.branchTarget.GetValue());
    }

    /** The end of `fetch`: a set delay flag marks a branch for the next
        fetch. */
    method Arm()
      requires Valid()
      modifies this
      ensures Valid()
      ensures branch == (old(branch) || context.branchDelay.value)
      ensures context.State() == old(context.State()) && ir.register == old(ir.register)
      ensures interrupts == old(interrupts) && cyclecount == old(cyclecount)
      ensures View() == old(View())
    {
      if context.branchDelay.GetValue() {
        branch := true;
      }
    }

    /** The rest of `fetch`: IR takes the word at PC and PC advances by 4. */
    method LoadIr()
      requires Valid()
      modifies ir, context.pc, context.mainMemory
      ensures Valid()
      ensures ir.register == WordRead(old(context.State()).mem, old(context.pc.register)).0
      ensures context.State() == old(context.State()).(pc := Add32(old(context.pc.register), 4),
                                                       mem := WordRead(old(context.State()).mem, old(context.pc.register)).1)
      ensures View() == old(View())
    {
      var w := ReadAtPc();
      SetIr(w);
    }

    /** `IR.setValue(w)`: nothing the context reaches changes. */
    method SetIr(w: bv32)
      requires Valid()
      modifies ir
      ensures Valid() && ir.register == w
      ensures context.State() == old(context.State())
      ensures View() == old(View())
    {
      ir.SetValue(w);
    }

    /** The word at PC, with PC moved past it. */
    method ReadAtPc() returns (w: bv32)
      requires Valid()
      modifies context.pc, context.mainMemory
      ensures Valid()
      ensures w == WordRead(old(context.State()).mem, old(context.pc.register)).0
      ensures context.State() == old(context.State()).(pc := Add32(old(context.pc.register), 4),
                                                       mem := WordRead(old(context.State()).mem, old(context.pc.register)).1)
      ensures View() == old(View())
    {
      var a := context.pc.GetValue();
      w := context.LoadWord(a);
      context.WritePc(Add32(a, 4));
    }

    /** `decode`: the slices of IR stored into the context. */
    method DecodeIr()
      requires Valid()
      modifies context
      ensures Valid()
      ensures context.GetFields() == Decode(ir.register)
      ensures context.State() == old(context.State()) && ir.register == old(ir.register)
      ensures branch == old(branch) && interrupts == old(interrupts) && cyclecount == old(cyclecount)
      ensures View() == old(View())
    {
      var f := Decode(ir.GetValue());
      context.SetContext(f.opcode, f.rs, f.rt, f.rd, f.shamt, f.funct, f.imm, f.jimm);
    }

    /** `coprocessors[0].getRegister(reg, 0)` for Status, Cause and (30, 0),
        which the constructor populates. */
    function ReadCp0(reg: nat): (v: bv32)
      requires reg == 12 || reg == 13 || reg == 30
      requires context.cp0.Valid() && context.cp0.Shape() && context.cp0.Table == ResetCell
      reads context.cp0, context.cp0.registerFile, context.cp0.Cells
      ensures v == if reg == 12 then View().status else if reg == 13 then View().cause else View().epc
    {
      StatusCauseCells();
      context.cp0.GetRegister(reg, 0).value
    }

    /** `coprocessors[0].setRegisterHW(reg, 0, v)` for Status, Cause and
        (30, 0): the hardware-mode write of that cell, no other register
        changes. */
    method WriteCp0(reg: nat, v: bv32)
      requires Valid() && (reg == 12 || reg == 13 || reg == 30)
      modifies context.cp0.Cells
      ensures context.State() == old(context.State())
      ensures Valid()
      ensures reg == 12 ==> View() == old(View()).(status := HwWrite(12, 0, old(View()).status, v))
      ensures reg == 13 ==> View() == old(View()).(cause := HwWrite(13, 0, old(View()).cause, v))
      ensures reg == 30 ==> View() == old(View()).(epc := HwWrite(30, 0, old(View()).epc, v))
      ensures View() == old(View())
    {
      StatusCauseCells();
      ghost var prev := View();
      var fault := context.cp0.SetRegisterHW(reg, 0, v);
      EntryCellsLocked(reg, if reg == 12 then prev.status else if reg == 13 then prev.cause else prev.epc, v);
    }

    /** The first block of the exception entry: EPC and Cause.BD by the
        delay flag when Status.EXL is clear, EPC alone when it is set; the
        vector offset it picks is returned. */
    method StoreEpc(code: ExceptionCode) returns (offset: bv32)
      requires Valid()
      modifies context.cp0.Cells
      ensures context.State() == old(context.State())
      ensures Valid()
      ensures View() == old(View())
      ensures offset == VectorOffset(old(View()).status, old(View()).cause, code)
    {
      if ReadBits(ReadCp0(12), 0x10, 1) == 0 {
        offset := MarkEntry(code);
      } else {
        offset := 0x180;
        WriteCp0(30, Sub32(context.pc.GetValue(), 4));
      }
    }

    /** The entry with Status.EXL clear: in a delay slot EPC is the branch
        (PC - 8) and Cause.BD is set, otherwise EPC is the faulting
        instruction (PC - 4) and Cause.BD is cleared; then the offset is
        chosen from the code and the updated Cause.IV bit. */
    method MarkEntry(code: ExceptionCode) returns (offset: bv32)
      requires Valid() && ExlClear(View().status)
      modifies context.cp0.Cells
      ensures context.State() == old(context.State())
      ensures Valid()
      ensures View() == old(View())
      ensures offset == VectorOffset(View().status, View().cause, code)
    {
      MarkDelay();
      offset := EntryOffset(code);
    }

    /** EPC and Cause.BD by the delay flag. */
    method MarkDelay()
      requires Valid()
      modifies context.cp0.Cells
      ensures context.State() == old(context.State())
      ensures Valid()
      ensures View() == old(View())
    {
      if context.branchDelay.GetValue() {
        WriteCp0(30, Sub32(context.pc.GetValue(), 8));
        WriteCp0(13, Or32(ReadCp0(13), 0x8000_0000));
      } else {
        WriteCp0(30, Sub32(context.pc.GetValue(), 4));
        WriteCp0(13, And32(ReadCp0(13), 0x7FFF_FFFF));
      }
    }

    /** The offset: 0 for the TLB refill codes, 0x200 for an interrupt
        with Cause.IV set, 0x180 otherwise. */
    method EntryOffset(code: ExceptionCode) returns (offset: bv32)
      requires Valid() && ExlClear(View().status)
      ensures offset == VectorOffset(View().status, View().cause, code)
    {
      if code == TLBL || code == TLBS {
        offset := 0;
      } else if code == INT && ReadBits(ReadCp0(13), 0x80_0000, 23) == 1 {
        offset := 0x200;
      } else {
        offset := 0x180;
      }
    }

    /** The second block of the exception entry: Cause.CE cleared, the code
        ORed into Cause, Status.EXL set. */
    method StoreCause(code: ExceptionCode)
      requires Valid()
      modifies context.cp0.Cells
      ensures context.State() == old(context.State())
      ensures Valid()
      ensures View() == RecordCause(old(View()), code)
    {
      WriteCp0(13, And32(ReadCp0(13), 0xCFFF_FFFF));
      WriteCp0(13, Or32(ReadCp0(13), And32(0x7C, Ordinal(code))));
      WriteCp0(12, Or32(ReadCp0(12), 0x10));
      RecordCauseKeeps(old(View()), code);
    }

    /** `serviceints`: takes the first queued exception, if any; an
        interrupt the Status tests reject is dropped, anything else enters
        the handler: the entry blocks on coprocessor 0, PC at the vector,
        both branch controls cleared. */
    method ServiceInts()
      requires Valid()
      modifies this, context.pc, context.branchDelay, context.cp0.Cells
      ensures Valid()
      ensures context.State() == Serviced(Machine(old(context.State()), old(ir.register), old(branch)), old(View()), old(interrupts)).0.arch
      ensures branch == Serviced(Machine(old(context.State()), old(ir.register), old(branch)), old(View()), old(interrupts)).0.branch
      ensures View() == Serviced(Machine(old(context.State()), old(ir.register), old(branch)), old(View()), old(interrupts)).1
      ensures interrupts == Serviced(Machine(old(context.State()), old(ir.register), old(branch)), old(View()), old(interrupts)).2
      ensures cyclecount == old(cyclecount) && View() == old(View())
    {
      if interrupts == [] {
        return;
      }
      var e := Dequeue();
      Take(e);
    }

    /** The head of the interrupt queue, removed from it. */
    method Dequeue() returns (e: MipsException)
      requires Valid() && interrupts != []
      modifies this
      ensures Valid() && context.State() == old(context.State()) && View() == old(View())
      ensures e == old(interrupts)[0] && interrupts == old(interrupts)[1..]
      ensures branch == old(branch) && cyclecount == old(cyclecount)
    {
      e := interrupts[0];
      interrupts := interrupts[1..];
    }

    /** The dequeued exception `e`: dropped when the interrupt tests
        reject it, otherwise the exception entry. */
    method Take(e: MipsException)
      requires Valid()
      modifies this, context.pc, context.branchDelay, context.cp0.Cells
      ensures Valid() && View() == old(View())
      ensures interrupts == old(interrupts) && cyclecount == old(cyclecount)
      ensures Dropped(e, old(View()).status) ==> context.State() == old(context.State()) && branch == old(branch)
      ensures !Dropped(e, old(View()).status) ==>
        && context.State() == old(context.State()).(
             pc := Vector(old(View()).status, VectorOffset(old(View()).status, old(View()).cause, GetCode(e))),
             delay := false)
        && !branch
    {
      var drop := Rejects(e);
      if !drop {
        Enter(e);
      }
    }

    /** The three interrupt tests of `serviceints`, each reading Status
        afresh: only an INT can be rejected. */
    method Rejects(e: MipsException) returns (drop: bool)
      requires Valid()
      ensures drop == Dropped(e, View().status)
    {
      drop := false;
      if GetCode(e) == INT {
        if ReadBits(ReadCp0(12), 0x1, 0) == 0 {
          drop := true;
        } else if ReadBits(ReadCp0(12), 0x8000, Sub32(e.intNumber, 1)) == 0 {
          drop := true;
        } else {
          var exl, erl := ReadBits(ReadCp0(12), 0x10, 1), ReadBits(ReadCp0(12), 0x100, 2);
          drop := exl == 1 && erl == 1;
        }
      }
    }

    /** The exception entry for `e`: the two CP0 blocks, then PC to the
        vector Status.BEV selects, both branch controls cleared. */
    method Enter(e: MipsException)
      requires Valid()
      modifies this, context.pc, context.branchDelay, context.cp0.Cells
      ensures Valid()
      ensures context.State() == old(context.State()).(
        pc := Vector(old(View()).status, VectorOffset(old(View()).status, old(View()).cause, GetCode(e))),
        delay := false)
      ensures !branch && View() == old(View())
      ensures interrupts == old(interrupts) && cyclecount == old(cyclecount)
    {
      var target := Record(GetCode(e));
      Handoff(target);
    }

    /** PC to the handler, both branch controls cleared. */
    method Handoff(target: bv32)
      requires Valid()
      modifies this, context.pc, context.branchDelay
      ensures Valid()
      ensures context.State() == old(context.State()).(pc := target, delay := false)
      ensures !branch && interrupts == old(interrupts) && cyclecount == old(cyclecount)
      ensures View() == old(View())
    {
      context.Vectored(target);
      branch := false;
    }

    /** The two CP0 blocks of the entry for `code`, then the handler
        address: the offset they picked from 0xBFC00200 when Status.BEV
        reads 1, from 0x80000000 otherwise. */
    method Record(code: ExceptionCode) returns (target: bv32)
      requires Valid()
      modifies context.cp0.Cells
      ensures context.State() == old(context.State())
      ensures Valid() && View() == old(View())
      ensures target == Vector(old(View()).status, VectorOffset(old(View()).status, old(View()).cause, code))
    {
      var offset := StoreEpc(code);
      StoreCause(code);
      RecordCauseKeeps(old(View()), code);
      if ReadBits(ReadCp0(12), 0x40_0000, 22) == 1 {
        target := Add32(0xBFC0_0200, offset);
      } else {
        target := Add32(0x8000_0000, offset);
      }
    }
  
    /** `start`: iterations of `Step` until one halts (the host exception
        that ends the loop), for at most `fuel` iterations.  `trace` holds
        the iterations' results and `views` the three CP0 registers after
        each; with coprocessor 0 as the constructor leaves it, every one of
        them reads 0, so `ResetEntry` describes every servicing of the run. */
    method Start(fuel: nat) returns (steps: nat, halted: bool, ghost trace: seq<StepResult>, ghost views: seq<Cp0View>)
      requires Valid()
      modifies this, ir, context, context.registerFile, context.pc, context.hi, context.lo
      modifies context.branchTarget, context.branchDelay, context.mainMemory, context.cp0.Cells
      ensures Valid() && steps <= fuel && (halted || steps == fuel)
      ensures Ran(trace, steps, halted) && |views| == steps
      ensures old(View()) == Cp0View(0, 0, 0) ==> View() == Cp0View(0, 0, 0)
      ensures old(View()) == Cp0View(0, 0, 0) ==> AllReset(views)
    {
      steps, halted, trace, views := 0, false, [], [];
      while steps < fuel && !halted
        invariant Valid() && steps <= fuel
        invariant Ran(trace, steps, halted) && |views| == steps
        invariant old(View()) == Cp0View(0, 0, 0) ==> View() == Cp0View(0, 0, 0)
        invariant old(View()) == Cp0View(0, 0, 0) ==> AllReset(views)
        decreases fuel - steps
      {
        ghost var reset := old(View()) == Cp0View(0, 0, 0);
        var r := Step();
        ghost var after := View();
        RanNext(trace, steps, r);
        if reset {
          AllResetNext(views, after);
        }
        trace, views := trace + [r], views + [after];
        halted := r == Halted;
        steps := steps + 1;
      }
    }

    /** One iteration of `start`: `serviceints`, `fetch`, `decode`,
        `execute`, then `cyclecount++`.  A `MIPS_Exception` goes to the back
        of the queue and skips the count; a host exception (an empty table
        slot, or a fault inside COP0) ends the loop. */
    method Step() returns (r: StepResult)
      requires Valid()
      modifies this, ir, context, context.registerFile, context.pc, context.hi, context.lo
      modifies context.branchTarget, context.branchDelay, context.mainMemory, context.cp0.Cells
      ensures Valid()
      ensures ir.register == FetchNext(Serviced(Machine(old(context.State()), old(ir.register), old(branch)), old(View()), old(interrupts)).0).ir
      ensures r.Enqueued? ==> interrupts == Serviced(Machine(old(context.State()), old(ir.register), old(branch)), old(View()), old(interrupts)).2 + [r.e]
      ensures !r.Enqueued? ==> interrupts == Serviced(Machine(old(context.State()), old(ir.register), old(branch)), old(View()), old(interrupts)).2
      ensures cyclecount == if r == Retired then Inc64(old(cyclecount)) else old(cyclecount)
      ensures Dispatch(Decode(ir.register)) == None ==> r == Halted
      ensures r == Halted ==> Dispatch(Decode(ir.register)) == None || Dispatch(Decode(ir.register)) == Some(Isa.COP0)
      ensures r.Enqueued? ==> Dispatch(Decode(ir.register)).Some? && Instructions.Throws(Dispatch(Decode(ir.register)).value)
      ensures old(View()) == Cp0View(0, 0, 0) ==> View() == Cp0View(0, 0, 0)
    {
      Front();
      r := Back();
    }

    /** `serviceints`, `fetch` and `decode`: the machine is the one
        `FetchNext` leaves after `Serviced`, coprocessor 0 is the one
        `Serviced` leaves, and the fields of the fetched word are in the
        context. */
    method Front()
      requires Valid()
      modifies this, ir, context, context.pc, context.branchDelay, context.mainMemory, context.cp0.Cells
      ensures Valid()
      ensures ir.register == FetchNext(Serviced(Machine(old(context.State()), old(ir.register), old(branch)), old(View()), old(interrupts)).0).ir
      ensures context.State() == FetchNext(Serviced(Machine(old(context.State()), old(ir.register), old(branch)), old(View()), old(interrupts)).0).arch
      ensures branch == FetchNext(Serviced(Machine(old(context.State()), old(ir.register), old(branch)), old(View()), old(interrupts)).0).branch
      ensures View() == Serviced(Machine(old(context.State()), old(ir.register), old(branch)), old(View()), old(interrupts)).1
      ensures context.GetFields() == Decode(ir.register)
      ensures interrupts == Serviced(Machine(old(context.State()), old(ir.register), old(branch)), old(View()), old(interrupts)).2
      ensures cyclecount == old(cyclecount) && View() == old(View())
    {
      ServeFetch();
      DecodeIr();
    }

    /** `serviceints` then `fetch`. */
    method ServeFetch()
      requires Valid()
      modifies this, ir, context.pc, context.branchDelay, context.mainMemory, context.cp0.Cells
      ensures Valid()
      ensures ir.register == FetchNext(Serviced(Machine(old(context.State()), old(ir.register), old(branch)), old(View()), old(interrupts)).0).ir
      ensures context.State() == FetchNext(Serviced(Machine(old(context.State()), old(ir.register), old(branch)), old(View()), old(interrupts)).0).arch
      ensures branch == FetchNext(Serviced(Machine(old(context.State()), old(ir.register), old(branch)), old(View()), old(interrupts)).0).branch
      ensures View() == Serviced(Machine(old(context.State()), old(ir.register), old(branch)), old(View()), old(interrupts)).1
      ensures interrupts == Serviced(Machine(old(context.State()), old(ir.register), old(branch)), old(View()), old(interrupts)).2
      ensures cyclecount == old(cyclecount) && View() == old(View())
    {
      ServiceInts();
      Fetch();
    }

    /** `execute` of instruction `i` on the context. */
    method Run(i: Isa.Instruction) returns (out: Isa.Outcome)
      requires Valid() && InRange(context.GetFields())
      modifies context.registerFile, context.pc, context.hi, context.lo
      modifies context.branchTarget, context.branchDelay, context.mainMemory, context.cp0.Cells
      ensures Valid() && ir.register == old(ir.register) && context.GetFields() == old(context.GetFields())
      ensures out == Isa.HostFault ==> i == Isa.COP0
      ensures out.Raised? ==> Instructions.Throws(i)
      ensures old(View()) == Cp0View(0, 0, 0) ==> View() == Cp0View(0, 0, 0)
    {
      out := Instructions.Execute(i, context);
      StatusCauseCells();
    }

    /** `execute` on the decoded fields, then the bookkeeping of `start`. */
    method Back() returns (r: StepResult)
      requires Valid() && InRange(context.GetFields())
      modifies this, context.registerFile, context.pc, context.hi, context.lo
      modifies context.branchTarget, context.branchDelay, context.mainMemory, context.cp0.Cells
      ensures Valid() && ir.register == old(ir.register) && context.GetFields() == old(context.GetFields())
      ensures r.Enqueued? ==> interrupts == old(interrupts) + [r.e]
      ensures !r.Enqueued? ==> interrupts == old(interrupts)
      ensures cyclecount == if r == Retired then Inc64(old(cyclecount)) else old(cyclecount)
      ensures Dispatch(context.GetFields()) == None ==> r == Halted
      ensures r == Halted ==> Dispatch(context.GetFields()) == None || Dispatch(context.GetFields()) == Some(Isa.COP0)
      ensures r.Enqueued? ==> Dispatch(context.GetFields()).Some? && Instructions.Throws(Dispatch(context.GetFields()).value)
      ensures old(View()) == Cp0View(0, 0, 0) ==> View() == Cp0View(0, 0, 0)
    {
      var slot := Dispatch(context.GetFields());
      var out := Isa.HostFault;
      if slot.Some? {
        out := Run(slot.value);
      }
      r := Account(out);
    }

    /** The end of an iteration: a completed instruction is counted, a
        raised exception is enqueued, a host exception halts. */
    method Account(out: Isa.Outcome) returns (r: StepResult)
      requires Valid()
      modifies this
      ensures Valid() && ir.register == old(ir.register) && context.GetFields() == old(context.GetFields())
      ensures r == match out case Completed => Retired case Raised(e) => Enqueued(e) case HostFault => Halted
      ensures interrupts == if out.Raised? then old(interrupts) + [out.e] else old(interrupts)
      ensures cyclecount == if out.Completed? then Inc64(old(cyclecount)) else old(cyclecount)
      ensures branch == old(branch) && View() == old(View())
    {
      match out
      case Completed =>
        cyclecount := Inc64(cyclecount);
        r := Retired;
      case Raised(e) =>
        interrupts := interrupts + [e];
        r := Enqueued(e);
      case HostFault =>
        r := Halted;
    }
  }
}
