/**
 * What each instruction class of MIPS_InstructionSet.cs does to the
 * architectural state, as pure functions on `Arch` and the decoded
 * `Fields`.  The `execute` methods of the `Instructions` module are proved
 * to compute these functions; the lemmas at the end state what the
 * functions mean, including where the emulator departs from the MIPS32
 * architecture.
 *
 * Coprocessor 0 is not part of `Arch`; MIPS_COP0 is specified in the
 * `Instructions` module against the bank's own functions.
 */
module Isa {
  import opened Words
  import opened Exceptions
  import opened Paging
  import opened Context
  import opened Semantics

  /** How an `execute` call ends: normally, by throwing a `MIPS_Exception`,
      or by a fault of the host program (a null or out-of-range
      coprocessor-0 cell, a missing table entry) that no MIPS handler
      sees. */
  datatype Outcome = Completed | Raised(e: MipsException) | HostFault

  /** The instruction classes the dispatch tables hold, by their C# names;
      RESERVED_INST is the body of the reserved opcode 0x1F. */
  datatype Instruction =
    | SLL | SRL | SRA | SLLV | SRLV | SRAV | JR | JALR | MOVZ | MOVN
    | SYSCALL | BREAK | SYNC | MFHI | MTHI | MFLO | MTLO
    | MULT | MULTU | DIV | DIVU | ADD | ADDU | SUB | SUBU
    | AND | OR | XOR | NOR | SLT | SLTU
    | TGE | TGEU | TLT | TLTU | TEQ | TNE
    | REGIMM | J | JAL | BEQ | BNE | BLEZ | BGTZ
    | ADDI | ADDIU | SLTI | SLTIU | ANDI | ORI | XORI | LUI
    | COP0 | COP1 | COP2 | BEQL | BNEL | BLEZL | SPECIAL2 | BGTZL
    | LB | LH | LWL | LW | LBU | LHU | LWR | SB | SH | SWL | SW | SWR
    | CACHE | LL | SDC1 | SDC2 | LWCL | PREF | SC | SWCL
    | RESERVED_INST

  /** The classes whose body only throws UNIMPLEMENTED. */
  predicate Unimplemented(i: Instruction)
  {
    match i
    case SYSCALL | BREAK | SYNC | TGE | TGEU | TLT | TLTU | TEQ | TNE | COP1 | COP2 | SPECIAL2
       | LWL | LWR | SWL | SWR | CACHE | LL | SDC1 | SDC2 | LWCL | PREF | SC | SWCL => true
    case _ => false
  }

  /** A well-formed state and a decoded instruction. */
  predicate Ready(s: Arch, f: Fields)
  {
    WfArch(s) && InRange(f)
  }

  // ---------------------------------------------------------------------
  // Reading and writing the state

  /** The shift amount as a word. */
  function Shamt(f: Fields): bv32 requires InRange(f) { f.shamt as bv32 }

  function Rs(s: Arch, f: Fields): bv32 requires Ready(s, f) { s.gpr[f.rs] }
  function Rt(s: Arch, f: Fields): bv32 requires Ready(s, f) { s.gpr[f.rt] }
  function Rd(s: Arch, f: Fields): bv32 requires Ready(s, f) { s.gpr[f.rd] }

  /** `getRegisters()[rd].setValue(v)`. */
  function SetRd(s: Arch, f: Fields, v: bv32): Arch
    requires Ready(s, f)
  {
    s.(gpr := SetGpr(s.gpr, f.rd as int, v))
  }

  /** `getRegisters()[rt].setValue(v)`. */
  function SetRt(s: Arch, f: Fields, v: bv32): Arch
    requires Ready(s, f)
  {
    s.(gpr := SetGpr(s.gpr, f.rt as int, v))
  }

  /** Register 31 receives PC + 4, the word after the delay slot's. */
  function Link(s: Arch): Arch
    requires |s.gpr| == 32
  {
    s.(gpr := SetGpr(s.gpr, 31, Add32(s.pc, 4)))
  }

  /** A pending transfer to t: the branch target is set and the delay flag
      raised, so that the next fetch executes the delay slot first. */
  function Branch(s: Arch, t: bv32): Arch
  {
    s.(target := t, delay := true)
  }

  /** The PC-relative branch of the instruction's immediate. */
  function TakeBranch(s: Arch, f: Fields): Arch
  {
    Branch(s, CalculateBTA(s.pc, f.imm))
  }

  /** A likely branch not taken: the delay slot is skipped by advancing the
      PC past it. */
  function Skip(s: Arch): Arch
  {
    s.(pc := Add32(s.pc, 4))
  }

  /** The effective address `signExtend16(imm) + (Int32)GPR[rs]` of the
      signed loads and of the stores, computed in wrapping Int32 arithmetic
      and cast to UInt32. */
  function Address(s: Arch, f: Fields): bv32
    requires Ready(s, f)
  {
    Add32(Rs(s, f), SignExtend16(f.imm))
  }

  /** The address of LBU and LHU: register rd (not rs) plus the
      zero-extended immediate. */
  function UnsignedAddress(s: Arch, f: Fields): bv32
    requires Ready(s, f)
  {
    Add32(Rd(s, f), ZeroExtend32(f.imm))
  }

  // ---------------------------------------------------------------------
  // Shifts

  function Sll(s: Arch, f: Fields): Arch requires Ready(s, f)
  { SetRd(s, f, ShiftLeft(Rt(s, f), Shamt(f))) }

  function Srl(s: Arch, f: Fields): Arch requires Ready(s, f)
  { SetRd(s, f, ShiftRightLogical(Rt(s, f), Shamt(f))) }

  function Sra(s: Arch, f: Fields): Arch requires Ready(s, f)
  { SetRd(s, f, ShiftRightArithmetic(Rt(s, f), Shamt(f))) }

  function Sllv(s: Arch, f: Fields): Arch requires Ready(s, f)
  { SetRd(s, f, ShiftLeft(Rt(s, f), Rs(s, f))) }

  function Srlv(s: Arch, f: Fields): Arch requires Ready(s, f)
  { SetRd(s, f, ShiftRightLogical(Rt(s, f), Rs(s, f))) }

  function Srav(s: Arch, f: Fields): Arch requires Ready(s, f)
  { SetRd(s, f, ShiftRightArithmetic(Rt(s, f), Rs(s, f))) }

  // ---------------------------------------------------------------------
  // Jumps and moves

  function Jr(s: Arch, f: Fields): Arch requires Ready(s, f)
  { Branch(s, Rs(s, f)) }

  /** Register 31 receives register rd first; the target is then read
      from register rs of the updated file. */
  function Jalr(s: Arch, f: Fields): Arch requires Ready(s, f)
  {
    var s1 := s.(gpr := SetGpr(s.gpr, 31, Rd(s, f)));
    Branch(s1, s1.gpr[f.rs])
  }

  function Movz(s: Arch, f: Fields): Arch requires Ready(s, f)
  { if Rt(s, f) == 0 then SetRd(s, f, Rs(s, f)) else s }

  function Movn(s: Arch, f: Fields): Arch requires Ready(s, f)
  { if Rt(s, f) != 0 then SetRd(s, f, Rs(s, f)) else s }

  function Mfhi(s: Arch, f: Fields): Arch requires Ready(s, f)
  { SetRd(s, f, s.hi) }

  function Mthi(s: Arch, f: Fields): Arch requires Ready(s, f)
  { s.(hi := Rs(s, f)) }

  function Mflo(s: Arch, f: Fields): Arch requires Ready(s, f)
  { SetRd(s, f, s.lo) }

  function Mtlo(s: Arch, f: Fields): Arch requires Ready(s, f)
  { s.(lo := Rs(s, f)) }

  // ---------------------------------------------------------------------
  // Multiplication and division: HI and LO

  function MultHiLo(s: Arch, f: Fields): Arch requires Ready(s, f)
  {
    var (h, l) := Semantics.Mult(Rs(s, f), Rt(s, f));
    s.(hi := h, lo := l)
  }

  function MultuHiLo(s: Arch, f: Fields): Arch requires Ready(s, f)
  {
    var (h, l) := Multu(Rs(s, f), Rt(s, f));
    s.(hi := h, lo := l)
  }

  /** A throwing division leaves HI and LO as they were. */
  function DivHiLo(s: Arch, f: Fields): Arch requires Ready(s, f)
  {
    match Semantics.Div(Rs(s, f), Rt(s, f))
    case None => s
    case Some((h, l)) => s.(hi := h, lo := l)
  }

  function DivuHiLo(s: Arch, f: Fields): Arch requires Ready(s, f)
  {
    match Divu(Rs(s, f), Rt(s, f))
    case None => s
    case Some((h, l)) => s.(hi := h, lo := l)
  }

  // ---------------------------------------------------------------------
  // Register arithmetic and logic

  /** The wrapped sum is written before the overflow exception is thrown. */
  function Add(s: Arch, f: Fields): (Arch, Outcome) requires Ready(s, f)
  {
    (SetRd(s, f, Add32(Rs(s, f), Rt(s, f))),
     if AddOverflows(Rs(s, f), Rt(s, f)) then Raised(Raise(OVF)) else Completed)
  }

  function Addu(s: Arch, f: Fields): Arch requires Ready(s, f)
  { SetRd(s, f, Add32(Rs(s, f), Rt(s, f))) }

  /** As ADD, but the exception thrown on overflow is INT. */
  function Sub(s: Arch, f: Fields): (Arch, Outcome) requires Ready(s, f)
  {
    (SetRd(s, f, Sub32(Rs(s, f), Rt(s, f))),
     if SubOverflows(Rs(s, f), Rt(s, f)) then Raised(Raise(INT)) else Completed)
  }

  function Subu(s: Arch, f: Fields): Arch requires Ready(s, f)
  { SetRd(s, f, Sub32(Rs(s, f), Rt(s, f))) }

  function And(s: Arch, f: Fields): Arch requires Ready(s, f)
  { SetRd(s, f, And32(Rs(s, f), Rt(s, f))) }

  function Or(s: Arch, f: Fields): Arch requires Ready(s, f)
  { SetRd(s, f, Or32(Rs(s, f), Rt(s, f))) }

  function Xor(s: Arch, f: Fields): Arch requires Ready(s, f)
  { SetRd(s, f, Xor32(Rs(s, f), Rt(s, f))) }

  function Nor(s: Arch, f: Fields): Arch requires Ready(s, f)
  { SetRd(s, f, Nor32(Rs(s, f), Rt(s, f))) }

  function Slt(s: Arch, f: Fields): Arch requires Ready(s, f)
  { SetRd(s, f, SetLess(Rs(s, f), Rt(s, f))) }

  function Sltu(s: Arch, f: Fields): Arch requires Ready(s, f)
  { SetRd(s, f, SetLessUnsigned(Rs(s, f), Rt(s, f))) }

  // ---------------------------------------------------------------------
  // REGIMM and the jumps and branches of the opcode table

  /** MIPS_REGIMM selects its case on the VALUE of register rt.  Its
      comparisons test an unsigned register against zero, so the "greater
      than or equal" cases always branch and the "less than" cases never
      do; the likely forms of the latter always skip the delay slot. */
  function Regimm(s: Arch, f: Fields): (Arch, Outcome) requires Ready(s, f)
  {
    var sel := Rt(s, f);
    if sel == 0x11 || sel == 0x13 then (TakeBranch(Link(s), f), Completed)
    else if sel == 0x1 || sel == 0x3 then (TakeBranch(s, f), Completed)
    else if sel == 0x0 || sel == 0x10 then (s, Completed)
    else if sel == 0x12 || sel == 0x2 then (Skip(s), Completed)
    else (s, Raised(Raise(CPU)))
  }

  function Jump(s: Arch, f: Fields): Arch
  { Branch(s, CalculateETA(s.pc, f.jimm)) }

  function Jal(s: Arch, f: Fields): Arch requires |s.gpr| == 32
  { Branch(Link(s), CalculateETA(s.pc, f.jimm)) }

  function Beq(s: Arch, f: Fields): Arch requires Ready(s, f)
  { if Rs(s, f) == Rt(s, f) then TakeBranch(s, f) else s }

  function Bne(s: Arch, f: Fields): Arch requires Ready(s, f)
  { if Rs(s, f) != Rt(s, f) then TakeBranch(s, f) else s }

  /** `<= 0` on an unsigned register: taken only on zero. */
  function Blez(s: Arch, f: Fields): Arch requires Ready(s, f)
  { if Rs(s, f) == 0 then TakeBranch(s, f) else s }

  /** `> 0` on an unsigned register: taken on every non-zero value. */
  function Bgtz(s: Arch, f: Fields): Arch requires Ready(s, f)
  { if Rs(s, f) != 0 then TakeBranch(s, f) else s }

  function Beql(s: Arch, f: Fields): Arch requires Ready(s, f)
  { if Rs(s, f) == Rt(s, f) then TakeBranch(s, f) else Skip(s) }

  function Bnel(s: Arch, f: Fields): Arch requires Ready(s, f)
  { if Rs(s, f) != Rt(s, f) then TakeBranch(s, f) else Skip(s) }

  function Blezl(s: Arch, f: Fields): Arch requires Ready(s, f)
  { if Rs(s, f) == 0 then TakeBranch(s, f) else Skip(s) }

  function Bgtzl(s: Arch, f: Fields): Arch requires Ready(s, f)
  { if Rs(s, f) != 0 then TakeBranch(s, f) else Skip(s) }

  // ---------------------------------------------------------------------
  // Immediate arithmetic and logic

  /** ADDI adds `signExtend32(imm)`, which widens the 16-bit immediate
      with zeros before reinterpreting it; the overflow test and the
      write-before-throw are those of ADD. */
  function Addi(s: Arch, f: Fields): (Arch, Outcome) requires Ready(s, f)
  {
    var b := ZeroExtend32(f.imm);
    (SetRt(s, f, Add32(Rs(s, f), b)),
     if AddOverflows(Rs(s, f), b) then Raised(Raise(OVF)) else Completed)
  }

  function Addiu(s: Arch, f: Fields): Arch requires Ready(s, f)
  { SetRt(s, f, Add32(Rs(s, f), SignExtend16(f.imm))) }

  /** `(Int32)GPR[rs] < (Int16)imm`, a signed comparison with the signed
      immediate. */
  function SetLessImmediate(a: bv32, imm: bv16): bv32
  {
    if Signed(a) < SignedHalf(imm) then 1 else 0
  }

  function Slti(s: Arch, f: Fields): Arch requires Ready(s, f)
  { SetRt(s, f, SetLessImmediate(Rs(s, f), f.imm)) }

  /** `GPR[rs] < (UInt16)signExtend16(imm)`: the cast back to 16 bits
      undoes the sign extension, so the comparison is with the immediate
      widened with zeros. */
  function Sltiu(s: Arch, f: Fields): Arch requires Ready(s, f)
  { SetRt(s, f, SetLessUnsigned(Rs(s, f), ZeroExtend32(f.imm))) }

  function Andi(s: Arch, f: Fields): Arch requires Ready(s, f)
  { SetRt(s, f, And32(Rs(s, f), ZeroExtend32(f.imm))) }

  function Ori(s: Arch, f: Fields): Arch requires Ready(s, f)
  { SetRt(s, f, Or32(Rs(s, f), ZeroExtend32(f.imm))) }

  function Xori(s: Arch, f: Fields): Arch requires Ready(s, f)
  { SetRt(s, f, Xor32(Rs(s, f), ZeroExtend32(f.imm))) }

  function LoadUpper(s: Arch, f: Fields): Arch requires Ready(s, f)
  { SetRt(s, f, Lui(f.imm)) }

  // ---------------------------------------------------------------------
  // Loads and stores

  /** LB: the byte at the signed-offset address, widened with zeros. */
  function Lb(s: Arch, f: Fields): Arch requires Ready(s, f)
  {
    var (b, m) := ByteRead(s.mem, Address(s, f));
    SetRt(s.(mem := m), f, ByteToWord(b))
  }

  function Lh(s: Arch, f: Fields): Arch requires Ready(s, f)
  {
    var (h, m) := HalfRead(s.mem, Address(s, f));
    SetRt(s.(mem := m), f, HalfToWord(h))
  }

  function Lw(s: Arch, f: Fields): Arch requires Ready(s, f)
  {
    var (w, m) := WordRead(s.mem, Address(s, f));
    SetRt(s.(mem := m), f, w)
  }

  function Lbu(s: Arch, f: Fields): Arch requires Ready(s, f)
  {
    var (b, m) := ByteRead(s.mem, UnsignedAddress(s, f));
    SetRt(s.(mem := m), f, ByteToWord(b))
  }

  function Lhu(s: Arch, f: Fields): Arch requires Ready(s, f)
  {
    var (h, m) := HalfRead(s.mem, UnsignedAddress(s, f));
    SetRt(s.(mem := m), f, HalfToWord(h))
  }

  function Sb(s: Arch, f: Fields): Arch requires Ready(s, f)
  { s.(mem := ByteStore(s.mem, Address(s, f), LowByte(Rt(s, f)))) }

  function Sh(s: Arch, f: Fields): Arch requires Ready(s, f)
  { s.(mem := HalfStore(s.mem, Address(s, f), LowHalf(Rt(s, f)))) }

  function Sw(s: Arch, f: Fields): Arch requires Ready(s, f)
  { s.(mem := WordStore(s.mem, Address(s, f), Rt(s, f))) }

  // ---------------------------------------------------------------------
  // Coprocessor 0

  /** `(byte)(zeroExtend16(imm) & 7)`: the select field of MFC0 and MTC0. */
  function Cp0Select(imm: bv16): (sel: nat)
    ensures sel < 8
  {
    (imm & 7) as int
  }

  /** `(byte)GPR[rd]`: MFC0 takes the register number from the low byte of
      the value in register rd, not from the rd field. */
  function Cp0Source(s: Arch, f: Fields): (n: nat)
    requires Ready(s, f)
    ensures n < 256
  {
    LowByte(Rd(s, f)) as int
  }

  /** MFC0, given what `getRegister` answered: a missing cell faults the
      host program and changes nothing; otherwise register rt receives the
      cell's value. */
  function Mfc0(s: Arch, f: Fields, cell: Option<bv32>): (Arch, Outcome)
    requires Ready(s, f)
  {
    match cell
    case None => (s, HostFault)
    case Some(v) => (SetRt(s, f, v), Completed)
  }

  // ---------------------------------------------------------------------
  // The class table

  /** The shifts, the register jumps, the conditional moves and the HI/LO moves. */
  predicate ShiftOrMove(i: Instruction)
  {
    match i
    case SLL | SRL | SRA | SLLV | SRLV | SRAV | JR | JALR | MOVZ | MOVN | MFHI | MTHI | MFLO | MTLO => true
    case _ => false
  }

  /** Multiplication and division into HI and LO. */
  predicate MulDiv(i: Instruction)
  {
    match i
    case MULT | MULTU | DIV | DIVU => true
    case _ => false
  }

  /** The register arithmetic and logic. */
  predicate Arithmetic(i: Instruction)
  {
    match i
    case ADD | ADDU | SUB | SUBU | AND | OR | XOR | NOR | SLT | SLTU => true
    case _ => false
  }

  /** REGIMM, the jumps and the branches of the opcode table. */
  predicate BranchOrJump(i: Instruction)
  {
    match i
    case REGIMM | J | JAL | BEQ | BNE | BLEZ | BGTZ | BEQL | BNEL | BLEZL | BGTZL => true
    case _ => false
  }

  /** The immediate arithmetic and logic. */
  predicate ImmediateOp(i: Instruction)
  {
    match i
    case ADDI | ADDIU | SLTI | SLTIU | ANDI | ORI | XORI | LUI => true
    case _ => false
  }

  /** The implemented loads and stores. */
  predicate LoadOrStore(i: Instruction)
  {
    match i
    case LB | LH | LW | LBU | LHU | SB | SH | SW => true
    case _ => false
  }

  /** The classes whose body neither only throws nor touches coprocessor 0. */
  predicate Implemented(i: Instruction)
  {
    i != COP0 && i != RESERVED_INST && !Unimplemented(i)
  }

  /** The body of a shift, register jump, conditional move or HI/LO move. */
  function ShiftOrMoveStep(i: Instruction, s: Arch, f: Fields): Arch
    requires Ready(s, f)
  {
    match i
    case SLL => Sll(s, f)     case SRL => Srl(s, f)     case SRA => Sra(s, f)
    case SLLV => Sllv(s, f)   case SRLV => Srlv(s, f)   case SRAV => Srav(s, f)
    case JR => Jr(s, f)       case JALR => Jalr(s, f)   case MOVZ => Movz(s, f)
    case MOVN => Movn(s, f)   case MFHI => Mfhi(s, f)   case MTHI => Mthi(s, f)
    case MFLO => Mflo(s, f)   case MTLO => Mtlo(s, f)
    case _ => s
  }

  /** The body of a multiplication or division. */
  function MulDivStep(i: Instruction, s: Arch, f: Fields): Arch
    requires Ready(s, f)
  {
    match i
    case MULT => MultHiLo(s, f)     case MULTU => MultuHiLo(s, f)
    case DIV => DivHiLo(s, f)       case DIVU => DivuHiLo(s, f)
    case _ => s
  }

  /** The body of a register arithmetic or logic instruction. */
  function ArithmeticStep(i: Instruction, s: Arch, f: Fields): (Arch, Outcome)
    requires Ready(s, f)
  {
    match i
    case ADD => Add(s, f)                       case ADDU => (Addu(s, f), Completed)
    case SUB => Sub(s, f)                       case SUBU => (Subu(s, f), Completed)
    case AND => (And(s, f), Completed)          case OR => (Or(s, f), Completed)
    case XOR => (Xor(s, f), Completed)          case NOR => (Nor(s, f), Completed)
    case SLT => (Slt(s, f), Completed)          case SLTU => (Sltu(s, f), Completed)
    case _ => (s, Completed)
  }

  /** The body of REGIMM, a jump or a branch. */
  function BranchStep(i: Instruction, s: Arch, f: Fields): (Arch, Outcome)
    requires Ready(s, f)
  {
    match i
    case REGIMM => Regimm(s, f)
    case J => (Jump(s, f), Completed)           case JAL => (Jal(s, f), Completed)
    case BEQ => (Beq(s, f), Completed)          case BNE => (Bne(s, f), Completed)
    case BLEZ => (Blez(s, f), Completed)        case BGTZ => (Bgtz(s, f), Completed)
    case BEQL => (Beql(s, f), Completed)        case BNEL => (Bnel(s, f), Completed)
    case BLEZL => (Blezl(s, f), Completed)      case BGTZL => (Bgtzl(s, f), Completed)
    case _ => (s, Completed)
  }

  /** The body of an immediate arithmetic or logic instruction. */
  function ImmediateStep(i: Instruction, s: Arch, f: Fields): (Arch, Outcome)
    requires Ready(s, f)
  {
    match i
    case ADDI => Addi(s, f)                     case ADDIU => (Addiu(s, f), Completed)
    case SLTI => (Slti(s, f), Completed)        case SLTIU => (Sltiu(s, f), Completed)
    case ANDI => (Andi(s, f), Completed)        case ORI => (Ori(s, f), Completed)
    case XORI => (Xori(s, f), Completed)        case LUI => (LoadUpper(s, f), Completed)
    case _ => (s, Completed)
  }

  /** The body of a load or a store. */
  function LoadStoreStep(i: Instruction, s: Arch, f: Fields): Arch
    requires Ready(s, f)
  {
    match i
    case LB => Lb(s, f)       case LH => Lh(s, f)       case LW => Lw(s, f)
    case LBU => Lbu(s, f)     case LHU => Lhu(s, f)     case SB => Sb(s, f)
    case SH => Sh(s, f)       case SW => Sw(s, f)
    case _ => s
  }

  // ---------------------------------------------------------------------
  // Properties

  /** ADD leaves exactly the state ADDU leaves; the only exception it can
      throw is OVF. */
  lemma {:induction false} AddTraps(s: Arch, f: Fields)
    requires Ready(s, f)
    ensures Add(s, f).0 == Addu(s, f)
    ensures Add(s, f).1 == Completed || Add(s, f).1 == Raised(Raise(OVF))
  {
  }

  /** SUB leaves exactly the state SUBU leaves; the only exception it can
      throw is INT, not the OVF of the MIPS32 architecture. */
  lemma {:induction false} SubTraps(s: Arch, f: Fields)
    requires Ready(s, f)
    ensures Sub(s, f).0 == Subu(s, f)
    ensures Sub(s, f).1 == Completed || Sub(s, f).1 == Raised(Raise(INT))
  {
  }

  /** The logical immediates compute what the register forms compute with
      the zero-extended immediate in the second source register. */
  lemma {:induction false} LogicalImmediates(s: Arch, f: Fields)
    requires Ready(s, f) && f.rd == f.rt && Rt(s, f) == ZeroExtend32(f.imm)
    ensures Andi(s, f) == And(s, f) && Ori(s, f) == Or(s, f) && Xori(s, f) == Xor(s, f)
  {
  }

  /** SLTIU compares with the zero-extended immediate as SLTU compares with
      register rt. */
  lemma {:induction false} SltiuImmediate(s: Arch, f: Fields)
    requires Ready(s, f) && f.rd == f.rt && Rt(s, f) == ZeroExtend32(f.imm)
    ensures Sltiu(s, f) == Sltu(s, f)
  {
  }

  /** ADDI is ADD with the zero-extended immediate in register rt, and
      ADDIU is ADDU with the sign-extended one. */
  lemma {:induction false} AddImmediates(s: Arch, f: Fields)
    requires Ready(s, f) && f.rd == f.rt
    ensures Rt(s, f) == ZeroExtend32(f.imm) ==> Addi(s, f) == Add(s, f)
    ensures Rt(s, f) == SignExtend16(f.imm) ==> Addiu(s, f) == Addu(s, f)
  {
  }

  /** ADDI and ADDIU agree on non-negative immediates. */
  lemma {:induction false} AddiPositive(s: Arch, f: Fields)
    requires Ready(s, f) && f.imm < 0x8000
    ensures Addi(s, f).0 == Addiu(s, f)
  {
    SignExtendPositive(f.imm);
  }

  /** On a negative immediate ADDI adds the immediate plus 2^16 where
      ADDIU (and the MIPS32 ADDI) adds the immediate: the values written
      differ. */
  lemma {:induction false} AddiNegative(s: Arch, f: Fields)
    requires Ready(s, f) && f.imm >= 0x8000 && f.rt != 0
    ensures Addi(s, f).0.gpr[f.rt] != Addiu(s, f).gpr[f.rt]
  {
    ExtendedSumsDiffer(Rs(s, f), f.imm);
  }

  /** The variable shifts shift by register rs as the fixed ones shift by
      the shamt field. */
  lemma {:induction false} VariableShifts(s: Arch, f: Fields)
    requires Ready(s, f) && Rs(s, f) == Shamt(f)
    ensures Sllv(s, f) == Sll(s, f) && Srlv(s, f) == Srl(s, f) && Srav(s, f) == Sra(s, f)
  {
  }

  /** Of BEQ and BNE exactly one branches, and the other leaves the state
      alone. */
  lemma {:induction false} EqualityBranches(s: Arch, f: Fields)
    requires Ready(s, f)
    ensures {Beq(s, f), Bne(s, f)} == {s, TakeBranch(s, f)}
    ensures {Beql(s, f), Bnel(s, f)} == {Skip(s), TakeBranch(s, f)}
  {
  }

  /** Of BLEZ and BGTZ exactly one branches; of their likely forms, one
      branches and the other skips the delay slot. */
  lemma {:induction false} ZeroBranches(s: Arch, f: Fields)
    requires Ready(s, f)
    ensures {Blez(s, f), Bgtz(s, f)} == {s, TakeBranch(s, f)}
    ensures {Blezl(s, f), Bgtzl(s, f)} == {Skip(s), TakeBranch(s, f)}
  {
  }

  /** Of MOVZ and MOVN exactly one moves register rs to register rd. */
  lemma {:induction false} ConditionalMoves(s: Arch, f: Fields)
    requires Ready(s, f)
    ensures {Movz(s, f), Movn(s, f)} == {s, SetRd(s, f, Rs(s, f))}
  {
  }

  /** BLEZ and BGTZ compare an unsigned register with zero: a negative
      register counts as greater than zero, so BLEZ does not branch on it
      and BGTZ does (the MIPS32 branches compare signed). */
  lemma {:induction false} NegativeIsGreaterThanZero(s: Arch, f: Fields)
    requires Ready(s, f) && Signed(Rs(s, f)) < 0
    ensures Blez(s, f) == s && Bgtz(s, f) == TakeBranch(s, f)
    ensures Blezl(s, f) == Skip(s) && Bgtzl(s, f) == TakeBranch(s, f)
  {
  }

  /** REGIMM never looks at register rs: its unsigned comparisons with
      zero are decided without it. */
  lemma {:induction false} RegimmIgnoresRs(s: Arch, f: Fields, r: byte)
    requires Ready(s, f) && r < 32
    ensures Regimm(s, f.(rs := r)) == Regimm(s, f)
  {
  }

  /** REGIMM throws CPU exactly when register rt holds none of the eight
      selectors 0..3 and 0x10..0x13, and then changes nothing. */
  lemma {:induction false} RegimmSelectors(s: Arch, f: Fields)
    requires Ready(s, f)
    ensures Regimm(s, f).1 != Completed <==> Rt(s, f) !in {0, 1, 2, 3, 0x10, 0x11, 0x12, 0x13}
    ensures Regimm(s, f).1 != Completed ==> Regimm(s, f) == (s, Raised(Raise(CPU)))
  {
  }

  /** JALR stores register rd, not the return address, in register 31,
      and then jumps to register rs as updated: with rs = 31 the jump goes
      to the value of rd.  Otherwise its jump is that of JR. */
  lemma {:induction false} JalrOrder(s: Arch, f: Fields)
    requires Ready(s, f)
    ensures Jalr(s, f).gpr[31] == Rd(s, f) && Jalr(s, f).delay
    ensures f.rs == 31 ==> Jalr(s, f).target == Rd(s, f)
    ensures f.rs != 31 ==> Jalr(s, f).target == Jr(s, f).target
    ensures forall k :: 0 <= k < 31 ==> Jalr(s, f).gpr[k] == s.gpr[k]
  {
  }

  /** JAL is J (`Jump`) plus the link of PC + 4 in register 31. */
  lemma {:induction false} JalLinks(s: Arch, f: Fields)
    requires Ready(s, f)
    ensures Jal(s, f).target == Jump(s, f).target && Jal(s, f).delay && Jump(s, f).delay
    ensures Jal(s, f).gpr[31] == Add32(s.pc, 4) && Jump(s, f).gpr == s.gpr
    ensures forall k :: 0 <= k < 31 ==> Jal(s, f).gpr[k] == s.gpr[k]
  {
  }

  /** A value moved to HI or LO is what a later move from it reads. */
  lemma {:induction false} HiLoRoundTrip(s: Arch, f: Fields, g: Fields)
    requires Ready(s, f) && InRange(g) && g.rd != 0
    ensures Mfhi(Mthi(s, f), g).gpr[g.rd] == Rs(s, f)
    ensures Mflo(Mtlo(s, f), g).gpr[g.rd] == Rs(s, f)
  {
  }

  /** MULT widens register rs with zeros and only register rt with its
      sign, so it agrees with MULTU whenever rt is non-negative. */
  lemma {:induction false} MultSignsOnlyRt(s: Arch, f: Fields)
    requires Ready(s, f) && Rt(s, f) < 0x8000_0000
    ensures MultHiLo(s, f) == MultuHiLo(s, f)
  {
    MultMatchesMultu(Rs(s, f), Rt(s, f));
  }

  /** DIV and DIVU agree on non-negative operands. */
  lemma {:induction false} DivisionAgreement(s: Arch, f: Fields)
    requires Ready(s, f) && Rs(s, f) < 0x8000_0000 && Rt(s, f) < 0x8000_0000
    ensures DivHiLo(s, f) == DivuHiLo(s, f)
  {
    DivMatchesDivu(Rs(s, f), Rt(s, f));
  }

  /** A zero divisor leaves HI and LO alone in DIV and in DIVU. */
  lemma {:induction false} DivisionByZero(s: Arch, f: Fields)
    requires Ready(s, f) && Rt(s, f) == 0
    ensures DivHiLo(s, f) == s && DivuHiLo(s, f) == s
  {
  }

  /** LB and LH do not sign-extend: with a non-negative offset and rd = rs
      they load what LBU and LHU load. */
  lemma {:induction false} SignedLoadsZeroExtend(s: Arch, f: Fields)
    requires Ready(s, f) && f.rd == f.rs && f.imm < 0x8000
    ensures Lb(s, f) == Lbu(s, f) && Lh(s, f) == Lhu(s, f)
  {
    SignExtendPositive(f.imm);
  }

  /** LW after SW through the same base register and offset, into any
      register r but 0, loads what `ReadWord` returns at the stored
      address after `StoreWord` of register rt. */
  lemma {:induction false} StoreThenLoad(s: Arch, f: Fields, r: byte)
    requires Ready(s, f) && 0 < r < 32
    ensures Lw(Sw(s, f), f.(rt := r)).gpr[r]
            == WordRead(WordStore(s.mem, Address(s, f), Rt(s, f)), Address(s, f)).0
  {
  }

  /** When no device claims the four bytes at the effective address a,
      that load gives back register rt itself (`WordRoundTrip`). */
  lemma {:induction false} StoreThenLoadRoundTrip(s: Arch, f: Fields, r: byte, a: bv32)
    requires Ready(s, f) && 0 < r < 32 && a == Address(s, f)
    requires Unclaimed(s.mem, a) && Unclaimed(s.mem, a + 1) && Unclaimed(s.mem, a + 2) && Unclaimed(s.mem, a + 3)
    ensures Lw(Sw(s, f), f.(rt := r)).gpr[r] == Rt(s, f)
  {
    WordRoundTrip(s.mem, a, Rt(s, f));
    StoreThenLoad(s, f, r);
  }
}
