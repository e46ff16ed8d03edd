/**
 * The `execute` bodies of MIPS_InstructionSet.cs, one method per
 * instruction class, working on the shared machine state through an
 * `InstructionContext`.  Each method is proved to leave the state that the
 * function of the same name in `Isa` computes from the state before the
 * call; a body that throws returns the exception as its `Outcome`.
 */
module Instructions {
  import opened Words
  import opened Exceptions
  import opened Paging
  import opened Context
  import opened Semantics
  import Isa
  import opened Cp0Masking
  import opened Cp0Bank

  // Shifts

  method Sll(ctx: InstructionContext)
    requires ctx.Valid() && InRange(ctx.GetFields())
    modifies ctx.registerFile
    ensures ctx.Valid()
    ensures ctx.State() == Isa.Sll(old(ctx.State()), old(ctx.GetFields()))
    ensures ctx.Cp0Kept()
  {
    ctx.WriteGpr(ctx.rd as int, ShiftLeft(ctx.Reg(ctx.rt as int), Isa.Shamt(ctx.GetFields())));
  }

  method Srl(ctx: InstructionContext)
    requires ctx.Valid() && InRange(ctx.GetFields())
    modifies ctx.registerFile
    ensures ctx.Valid()
    ensures ctx.State() == Isa.Srl(old(ctx.State()), old(ctx.GetFields()))
    ensures ctx.Cp0Kept()
  {
    ctx.WriteGpr(ctx.rd as int, ShiftRightLogical(ctx.Reg(ctx.rt as int), Isa.Shamt(ctx.GetFields())));
  }

  method Sra(ctx: InstructionContext)
    requires ctx.Valid() && InRange(ctx.GetFields())
    modifies ctx.registerFile
    ensures ctx.Valid()
    ensures ctx.State() == Isa.Sra(old(ctx.State()), old(ctx.GetFields()))
    ensures ctx.Cp0Kept()
  {
    ctx.WriteGpr(ctx.rd as int, ShiftRightArithmetic(ctx.Reg(ctx.rt as int), Isa.Shamt(ctx.GetFields())));
  }

  method Sllv(ctx: InstructionContext)
    requires ctx.Valid() && InRange(ctx.GetFields())
    modifies ctx.registerFile
    ensures ctx.Valid()
    ensures ctx.State() == Isa.Sllv(old(ctx.State()), old(ctx.GetFields()))
    ensures ctx.Cp0Kept()
  {
    ctx.WriteGpr(ctx.rd as int, ShiftLeft(ctx.Reg(ctx.rt as int), ctx.Reg(ctx.rs as int)));
  }

  method Srlv(ctx: InstructionContext)
    requires ctx.Valid() && InRange(ctx.GetFields())
    modifies ctx.registerFile
    ensures ctx.Valid()
    ensures ctx.State() == Isa.Srlv(old(ctx.State()), old(ctx.GetFields()))
    ensures ctx.Cp0Kept()
  {
    ctx.WriteGpr(ctx.rd as int, ShiftRightLogical(ctx.Reg(ctx.rt as int), ctx.Reg(ctx.rs as int)));
  }

  method Srav(ctx: InstructionContext)
    requires ctx.Valid() && InRange(ctx.GetFields())
    modifies ctx.registerFile
    ensures ctx.Valid()
    ensures ctx.State() == Isa.Srav(old(ctx.State()), old(ctx.GetFields()))
    ensures ctx.Cp0Kept()
  {
    ctx.WriteGpr(ctx.rd as int, ShiftRightArithmetic(ctx.Reg(ctx.rt as int), ctx.Reg(ctx.rs as int)));
  }

  // Jumps through registers, conditional moves, HI and LO

  method Jr(ctx: InstructionContext)
    requires ctx.Valid() && InRange(ctx.GetFields())
    modifies ctx.branchTarget, ctx.branchDelay
    ensures ctx.Valid()
    ensures ctx.State() == Isa.Jr(old(ctx.State()), old(ctx.GetFields()))
    ensures ctx.Cp0Kept()
  {
    ctx.WriteTarget(ctx.Reg(ctx.rs as int));
    ctx.SetBranchDelay(true);
  }

  /** Register 31 is written before register rs is read. */
  method Jalr(ctx: InstructionContext)
    requires ctx.Valid() && InRange(ctx.GetFields())
    modifies ctx.registerFile[31], ctx.branchTarget, ctx.branchDelay
    ensures ctx.Valid()
    ensures ctx.State() == Isa.Jalr(old(ctx.State()), old(ctx.GetFields()))
    ensures ctx.Cp0Kept()
  {
    ctx.WriteGpr(31, ctx.Reg(ctx.rd as int));
    ctx.WriteTarget(ctx.Reg(ctx.rs as int));
    ctx.SetBranchDelay(true);
  }

  method Movz(ctx: InstructionContext)
    requires ctx.Valid() && InRange(ctx.GetFields())
    modifies ctx.registerFile
    ensures ctx.Valid()
    ensures ctx.State() == Isa.Movz(old(ctx.State()), old(ctx.GetFields()))
    ensures ctx.Cp0Kept()
  {
    if ctx.Reg(ctx.rt as int) == 0 {
      ctx.WriteGpr(ctx.rd as int, ctx.Reg(ctx.rs as int));
    }
  }

  method Movn(ctx: InstructionContext)
    requires ctx.Valid() && InRange(ctx.GetFields())
    modifies ctx.registerFile
    ensures ctx.Valid()
    ensures ctx.State() == Isa.Movn(old(ctx.State()), old(ctx.GetFields()))
    ensures ctx.Cp0Kept()
  {
    if ctx.Reg(ctx.rt as int) != 0 {
      ctx.WriteGpr(ctx.rd as int, ctx.Reg(ctx.rs as int));
    }
  }

  method Mfhi(ctx: InstructionContext)
    requires ctx.Valid() && InRange(ctx.GetFields())
    modifies ctx.registerFile
    ensures ctx.Valid()
    ensures ctx.State() == Isa.Mfhi(old(ctx.State()), old(ctx.GetFields()))
    ensures ctx.Cp0Kept()
  {
    ctx.WriteGpr(ctx.rd as int, ctx.hi.GetValue());
  }

  method Mthi(ctx: InstructionContext)
    requires ctx.Valid() && InRange(ctx.GetFields())
    modifies ctx.hi
    ensures ctx.Valid()
    ensures ctx.State() == Isa.Mthi(old(ctx.State()), old(ctx.GetFields()))
    ensures ctx.Cp0Kept()
  {
    ctx.WriteHi(ctx.Reg(ctx.rs as int));
  }

  method Mflo(ctx: InstructionContext)
    requires ctx.Valid() && InRange(ctx.GetFields())
    modifies ctx.registerFile
    ensures ctx.Valid()
    ensures ctx.State() == Isa.Mflo(old(ctx.State()), old(ctx.GetFields()))
    ensures ctx.Cp0Kept()
  {
    ctx.WriteGpr(ctx.rd as int, ctx.lo.GetValue());
  }

  method Mtlo(ctx: InstructionContext)
    requires ctx.Valid() && InRange(ctx.GetFields())
    modifies ctx.lo
    ensures ctx.Valid()
    ensures ctx.State() == Isa.Mtlo(old(ctx.State()), old(ctx.GetFields()))
    ensures ctx.Cp0Kept()
  {
    ctx.WriteLo(ctx.Reg(ctx.rs as int));
  }

  // Multiplication and division

  /** LO is written first, then HI. */
  method Mult(ctx: InstructionContext)
    requires ctx.Valid() && InRange(ctx.GetFields())
    modifies ctx.hi, ctx.lo
    ensures ctx.Valid()
    ensures ctx.State() == Isa.MultHiLo(old(ctx.State()), old(ctx.GetFields()))
    ensures ctx.Cp0Kept()
  {
    var (h, l) := Semantics.Mult(ctx.Reg(ctx.rs as int), ctx.Reg(ctx.rt as int));
    ctx.WriteLo(l);
    ctx.WriteHi(h);
  }

  method Multu(ctx: InstructionContext)
    requires ctx.Valid() && InRange(ctx.GetFields())
    modifies ctx.hi, ctx.lo
    ensures ctx.Valid()
    ensures ctx.State() == Isa.MultuHiLo(old(ctx.State()), old(ctx.GetFields()))
    ensures ctx.Cp0Kept()
  {
    var (h, l) := Semantics.Multu(ctx.Reg(ctx.rs as int), ctx.Reg(ctx.rt as int));
    ctx.WriteLo(l);
    ctx.WriteHi(h);
  }

  /** A faulting division throws before either register is written, and
      the handler around it swallows the exception. */
  method Div(ctx: InstructionContext)
    requires ctx.Valid() && InRange(ctx.GetFields())
    modifies ctx.hi, ctx.lo
    ensures ctx.Valid()
    ensures ctx.State() == Isa.DivHiLo(old(ctx.State()), old(ctx.GetFields()))
    ensures ctx.Cp0Kept()
  {
    var q := Semantics.Div(ctx.Reg(ctx.rs as int), ctx.Reg(ctx.rt as int));
    if q.Some? {
      ctx.WriteLo(q.value.1);
      ctx.WriteHi(q.value.0);
    }
  }

  method Divu(ctx: InstructionContext)
    requires ctx.Valid() && InRange(ctx.GetFields())
    modifies ctx.hi, ctx.lo
    ensures ctx.Valid()
    ensures ctx.State() == Isa.DivuHiLo(old(ctx.State()), old(ctx.GetFields()))
    ensures ctx.Cp0Kept()
  {
    var q := Semantics.Divu(ctx.Reg(ctx.rs as int), ctx.Reg(ctx.rt as int));
    if q.Some? {
      ctx.WriteLo(q.value.1);
      ctx.WriteHi(q.value.0);
    }
  }

  // Register arithmetic and logic

  /** The wrapped sum is written, then OVF is thrown if the signed sum
      overflows. */
  method Add(ctx: InstructionContext) returns (out: Isa.Outcome)
    requires ctx.Valid() && InRange(ctx.GetFields())
    modifies ctx.registerFile
    ensures ctx.Valid()
    ensures (ctx.State(), out) == Isa.Add(old(ctx.State()), old(ctx.GetFields()))
    ensures ctx.Cp0Kept()
  {
    var rs, rt := ctx.Reg(ctx.rs as int), ctx.Reg(ctx.rt as int);
    ctx.WriteGpr(ctx.rd as int, Add32(rs, rt));
    if AddOverflows(rs, rt) {
      out := Isa.Raised(Raise(OVF));
    } else {
      out := Isa.Completed;
    }
  }

  method Addu(ctx: InstructionContext)
    requires ctx.Valid() && InRange(ctx.GetFields())
    modifies ctx.registerFile
    ensures ctx.Valid()
    ensures ctx.State() == Isa.Addu(old(ctx.State()), old(ctx.GetFields()))
    ensures ctx.Cp0Kept()
  {
    ctx.WriteGpr(ctx.rd as int, Add32(ctx.Reg(ctx.rs as int), ctx.Reg(ctx.rt as int)));
  }

  /** The wrapped difference is written, then INT is thrown if the signed
      difference overflows. */
  method Sub(ctx: InstructionContext) returns (out: Isa.Outcome)
    requires ctx.Valid() && InRange(ctx.GetFields())
    modifies ctx.registerFile
    ensures ctx.Valid()
    ensures (ctx.State(), out) == Isa.Sub(old(ctx.State()), old(ctx.GetFields()))
    ensures ctx.Cp0Kept()
  {
    var rs, rt := ctx.Reg(ctx.rs as int), ctx.Reg(ctx.rt as int);
    ctx.WriteGpr(ctx.rd as int, Sub32(rs, rt));
    if SubOverflows(rs, rt) {
      out := Isa.Raised(Raise(INT));
    } else {
      out := Isa.Completed;
    }
  }

  method Subu(ctx: InstructionContext)
    requires ctx.Valid() && InRange(ctx.GetFields())
    modifies ctx.registerFile
    ensures ctx.Valid()
    ensures ctx.State() == Isa.Subu(old(ctx.State()), old(ctx.GetFields()))
    ensures ctx.Cp0Kept()
  {
    ctx.WriteGpr(ctx.rd as int, Sub32(ctx.Reg(ctx.rs as int), ctx.Reg(ctx.rt as int)));
  }

  method And(ctx: InstructionContext)
    requires ctx.Valid() && InRange(ctx.GetFields())
    modifies ctx.registerFile
    ensures ctx.Valid()
    ensures ctx.State() == Isa.And(old(ctx.State()), old(ctx.GetFields()))
    ensures ctx.Cp0Kept()
  {
    ctx.WriteGpr(ctx.rd as int, And32(ctx.Reg(ctx.rs as int), ctx.Reg(ctx.rt as int)));
  }

  method Or(ctx: InstructionContext)
    requires ctx.Valid() && InRange(ctx.GetFields())
    modifies ctx.registerFile
    ensures ctx.Valid()
    ensures ctx.State() == Isa.Or(old(ctx.State()), old(ctx.GetFields()))
    ensures ctx.Cp0Kept()
  {
    ctx.WriteGpr(ctx.rd as int, Or32(ctx.Reg(ctx.rs as int), ctx.Reg(ctx.rt as int)));
  }

  method Xor(ctx: InstructionContext)
    requires ctx.Valid() && InRange(ctx.GetFields())
    modifies ctx.registerFile
    ensures ctx.Valid()
    ensures ctx.State() == Isa.Xor(old(ctx.State()), old(ctx.GetFields()))
    ensures ctx.Cp0Kept()
  {
    ctx.WriteGpr(ctx.rd as int, Xor32(ctx.Reg(ctx.rs as int), ctx.Reg(ctx.rt as int)));
  }

  method Nor(ctx: InstructionContext)
    requires ctx.Valid() && InRange(ctx.GetFields())
    modifies ctx.registerFile
    ensures ctx.Valid()
    ensures ctx.State() == Isa.Nor(old(ctx.State()), old(ctx.GetFields()))
    ensures ctx.Cp0Kept()
  {
    ctx.WriteGpr(ctx.rd as int, Nor32(ctx.Reg(ctx.rs as int), ctx.Reg(ctx.rt as int)));
  }

  method Slt(ctx: InstructionContext)
    requires ctx.Valid() && InRange(ctx.GetFields())
    modifies ctx.registerFile
    ensures ctx.Valid()
    ensures ctx.State() == Isa.Slt(old(ctx.State()), old(ctx.GetFields()))
    ensures ctx.Cp0Kept()
  {
    ctx.WriteGpr(ctx.rd as int, SetLess(ctx.Reg(ctx.rs as int), ctx.Reg(ctx.rt as int)));
  }

  method Sltu(ctx: InstructionContext)
    requires ctx.Valid() && InRange(ctx.GetFields())
    modifies ctx.registerFile
    ensures ctx.Valid()
    ensures ctx.State() == Isa.Sltu(old(ctx.State()), old(ctx.GetFields()))
    ensures ctx.Cp0Kept()
  {
    ctx.WriteGpr(ctx.rd as int, SetLessUnsigned(ctx.Reg(ctx.rs as int), ctx.Reg(ctx.rt as int)));
  }

  // REGIMM, jumps and branches

  /** The case is chosen by the value of register rt.  Each condition
      compares an unsigned register with zero, so the greater-or-equal
      cases always branch and the less-than cases never do. */
  method Regimm(ctx: InstructionContext) returns (out: Isa.Outcome)
    requires ctx.Valid() && InRange(ctx.GetFields())
    modifies ctx.registerFile[31], ctx.pc, ctx.branchTarget, ctx.branchDelay
    ensures ctx.Valid()
    ensures (ctx.State(), out) == Isa.Regimm(old(ctx.State()), old(ctx.GetFields()))
    ensures ctx.Cp0Kept()
  {
    var sel := ctx.Reg(ctx.rt as int);
    out := Isa.Completed;
    if sel == 0x11 || sel == 0x13 {
      ctx.WriteGpr(31, Add32(ctx.pc.GetValue(), 4));
      TakeBranch(ctx);
    } else if sel == 0x1 || sel == 0x3 {
      TakeBranch(ctx);
    } else if sel == 0x12 || sel == 0x2 {
      ctx.WritePc(Add32(ctx.pc.GetValue(), 4));
    } else if sel != 0x0 && sel != 0x10 {
      out := Isa.Raised(Raise(CPU));
    }
  }

  /** The taken-branch tail shared by the REGIMM cases: the branch target
      computed from PC and the immediate, and the delay flag set. */
  method TakeBranch(ctx: InstructionContext)
    requires ctx.Valid() && InRange(ctx.GetFields())
    modifies ctx.branchTarget, ctx.branchDelay
    ensures ctx.Valid()
    ensures ctx.State() == Isa.TakeBranch(old(ctx.State()), old(ctx.GetFields()))
    ensures ctx.Cp0Kept()
  {
    ctx.WriteTarget(CalculateBTA(ctx.pc.GetValue(), ctx.imm));
    ctx.SetBranchDelay(true);
  }

  method J(ctx: InstructionContext)
    requires ctx.Valid() && InRange(ctx.GetFields())
    modifies ctx.branchTarget, ctx.branchDelay
    ensures ctx.Valid()
    ensures ctx.State() == Isa.Jump(old(ctx.State()), old(ctx.GetFields()))
    ensures ctx.Cp0Kept()
  {
    ctx.WriteTarget(CalculateETA(ctx.pc.GetValue(), ctx.jimm));
    ctx.SetBranchDelay(true);
  }

  method Jal(ctx: InstructionContext)
    requires ctx.Valid() && InRange(ctx.GetFields())
    modifies ctx.registerFile[31], ctx.branchTarget, ctx.branchDelay
    ensures ctx.Valid()
    ensures ctx.State() == Isa.Jal(old(ctx.State()), old(ctx.GetFields()))
    ensures ctx.Cp0Kept()
  {
    ctx.WriteGpr(31, Add32(ctx.pc.GetValue(), 4));
    ctx.WriteTarget(CalculateETA(ctx.pc.GetValue(), ctx.jimm));
    ctx.SetBranchDelay(true);
  }

  method Beq(ctx: InstructionContext)
    requires ctx.Valid() && InRange(ctx.GetFields())
    modifies ctx.branchTarget, ctx.branchDelay
    ensures ctx.Valid()
    ensures ctx.State() == Isa.Beq(old(ctx.State()), old(ctx.GetFields()))
    ensures ctx.Cp0Kept()
  {
    if ctx.Reg(ctx.rs as int) == ctx.Reg(ctx.rt as int) {
      ctx.WriteTarget(CalculateBTA(ctx.pc.GetValue(), ctx.imm));
      ctx.SetBranchDelay(true);
    }
  }

  method Bne(ctx: InstructionContext)
    requires ctx.Valid() && InRange(ctx.GetFields())
    modifies ctx.branchTarget, ctx.branchDelay
    ensures ctx.Valid()
    ensures ctx.State() == Isa.Bne(old(ctx.State()), old(ctx.GetFields()))
    ensures ctx.Cp0Kept()
  {
    if ctx.Reg(ctx.rs as int) != ctx.Reg(ctx.rt as int) {
      ctx.WriteTarget(CalculateBTA(ctx.pc.GetValue(), ctx.imm));
      ctx.SetBranchDelay(true);
    }
  }

  /** `GPR[rs] <= 0` on an unsigned register: taken only on zero. */
  method Blez(ctx: InstructionContext)
    requires ctx.Valid() && InRange(ctx.GetFields())
    modifies ctx.branchTarget, ctx.branchDelay
    ensures ctx.Valid()
    ensures ctx.State() == Isa.Blez(old(ctx.State()), old(ctx.GetFields()))
    ensures ctx.Cp0Kept()
  {
    if ctx.Reg(ctx.rs as int) == 0 {
      ctx.WriteTarget(CalculateBTA(ctx.pc.GetValue(), ctx.imm));
      ctx.SetBranchDelay(true);
    }
  }

  /** `GPR[rs] > 0` on an unsigned register: taken on every non-zero value. */
  method Bgtz(ctx: InstructionContext)
    requires ctx.Valid() && InRange(ctx.GetFields())
    modifies ctx.branchTarget, ctx.branchDelay
    ensures ctx.Valid()
    ensures ctx.State() == Isa.Bgtz(old(ctx.State()), old(ctx.GetFields()))
    ensures ctx.Cp0Kept()
  {
    if ctx.Reg(ctx.rs as int) != 0 {
      ctx.WriteTarget(CalculateBTA(ctx.pc.GetValue(), ctx.imm));
      ctx.SetBranchDelay(true);
    }
  }

  method Beql(ctx: InstructionContext)
    requires ctx.Valid() && InRange(ctx.GetFields())
    modifies ctx.pc, ctx.branchTarget, ctx.branchDelay
    ensures ctx.Valid()
    ensures ctx.State() == Isa.Beql(old(ctx.State()), old(ctx.GetFields()))
    ensures ctx.Cp0Kept()
  {
    if ctx.Reg(ctx.rs as int) == ctx.Reg(ctx.rt as int) {
      ctx.WriteTarget(CalculateBTA(ctx.pc.GetValue(), ctx.imm));
      ctx.SetBranchDelay(true);
    } else {
      ctx.WritePc(Add32(ctx.pc.GetValue(), 4));
    }
  }

  method Bnel(ctx: InstructionContext)
    requires ctx.Valid() && InRange(ctx.GetFields())
    modifies ctx.pc, ctx.branchTarget, ctx.branchDelay
    ensures ctx.Valid()
    ensures ctx.State() == Isa.Bnel(old(ctx.State()), old(ctx.GetFields()))
    ensures ctx.Cp0Kept()
  {
    if ctx.Reg(ctx.rs as int) != ctx.Reg(ctx.rt as int) {
      ctx.WriteTarget(CalculateBTA(ctx.pc.GetValue(), ctx.imm));
      ctx.SetBranchDelay(true);
    } else {
      ctx.WritePc(Add32(ctx.pc.GetValue(), 4));
    }
  }

  method Blezl(ctx: InstructionContext)
    requires ctx.Valid() && InRange(ctx.GetFields())
    modifies ctx.pc, ctx.branchTarget, ctx.branchDelay
    ensures ctx.Valid()
    ensures ctx.State() == Isa.Blezl(old(ctx.State()), old(ctx.GetFields()))
    ensures ctx.Cp0Kept()
  {
    if ctx.Reg(ctx.rs as int) == 0 {
      ctx.WriteTarget(CalculateBTA(ctx.pc.GetValue(), ctx.imm));
      ctx.SetBranchDelay(true);
    } else {
      ctx.WritePc(Add32(ctx.pc.GetValue(), 4));
    }
  }

  method Bgtzl(ctx: InstructionContext)
    requires ctx.Valid() && InRange(ctx.GetFields())
    modifies ctx.pc, ctx.branchTarget, ctx.branchDelay
    ensures ctx.Valid()
    ensures ctx.State() == Isa.Bgtzl(old(ctx.State()), old(ctx.GetFields()))
    ensures ctx.Cp0Kept()
  {
    if ctx.Reg(ctx.rs as int) != 0 {
      ctx.WriteTarget(CalculateBTA(ctx.pc.GetValue(), ctx.imm));
      ctx.SetBranchDelay(true);
    } else {
      ctx.WritePc(Add32(ctx.pc.GetValue(), 4));
    }
  }

  // Immediate arithmetic and logic

  /** `signExtend32` of the unsigned immediate widens it with zeros; the
      wrapped sum is written before OVF is thrown. */
  method Addi(ctx: InstructionContext) returns (out: Isa.Outcome)
    requires ctx.Valid() && InRange(ctx.GetFields())
    modifies ctx.registerFile
    ensures ctx.Valid()
    ensures (ctx.State(), out) == Isa.Addi(old(ctx.State()), old(ctx.GetFields()))
    ensures ctx.Cp0Kept()
  {
    var rs, b := ctx.Reg(ctx.rs as int), ZeroExtend32(ctx.imm);
    ctx.WriteGpr(ctx.rt as int, Add32(rs, b));
    if AddOverflows(rs, b) {
      out := Isa.Raised(Raise(OVF));
    } else {
      out := Isa.Completed;
    }
  }

  method Addiu(ctx: InstructionContext)
    requires ctx.Valid() && InRange(ctx.GetFields())
    modifies ctx.registerFile
    ensures ctx.Valid()
    ensures ctx.State() == Isa.Addiu(old(ctx.State()), old(ctx.GetFields()))
    ensures ctx.Cp0Kept()
  {
    ctx.WriteGpr(ctx.rt as int, Add32(ctx.Reg(ctx.rs as int), SignExtend16(ctx.imm)));
  }

  method Slti(ctx: InstructionContext)
    requires ctx.Valid() && InRange(ctx.GetFields())
    modifies ctx.registerFile
    ensures ctx.Valid()
    ensures ctx.State() == Isa.Slti(old(ctx.State()), old(ctx.GetFields()))
    ensures ctx.Cp0Kept()
  {
    ctx.WriteGpr(ctx.rt as int, Isa.SetLessImmediate(ctx.Reg(ctx.rs as int), ctx.imm));
  }

  method Sltiu(ctx: InstructionContext)
    requires ctx.Valid() && InRange(ctx.GetFields())
    modifies ctx.registerFile
    ensures ctx.Valid()
    ensures ctx.State() == Isa.Sltiu(old(ctx.State()), old(ctx.GetFields()))
    ensures ctx.Cp0Kept()
  {
    ctx.WriteGpr(ctx.rt as int, SetLessUnsigned(ctx.Reg(ctx.rs as int), ZeroExtend32(ctx.imm)));
  }

  method Andi(ctx: InstructionContext)
    requires ctx.Valid() && InRange(ctx.GetFields())
    modifies ctx.registerFile
    ensures ctx.Valid()
    ensures ctx.State() == Isa.Andi(old(ctx.State()), old(ctx.GetFields()))
    ensures ctx.Cp0Kept()
  {
    ctx.WriteGpr(ctx.rt as int, And32(ctx.Reg(ctx.rs as int), ZeroExtend32(ctx.imm)));
  }

  method Ori(ctx: InstructionContext)
    requires ctx.Valid() && InRange(ctx.GetFields())
    modifies ctx.registerFile
    ensures ctx.Valid()
    ensures ctx.State() == Isa.Ori(old(ctx.State()), old(ctx.GetFields()))
    ensures ctx.Cp0Kept()
  {
    ctx.WriteGpr(ctx.rt as int, Or32(ctx.Reg(ctx.rs as int), ZeroExtend32(ctx.imm)));
  }

  method Xori(ctx: InstructionContext)
    requires ctx.Valid() && InRange(ctx.GetFields())
    modifies ctx.registerFile
    ensures ctx.Valid()
    ensures ctx.State() == Isa.Xori(old(ctx.State()), old(ctx.GetFields()))
    ensures ctx.Cp0Kept()
  {
    ctx.WriteGpr(ctx.rt as int, Xor32(ctx.Reg(ctx.rs as int), ZeroExtend32(ctx.imm)));
  }

  method Lui(ctx: InstructionContext)
    requires ctx.Valid() && InRange(ctx.GetFields())
    modifies ctx.registerFile
    ensures ctx.Valid()
    ensures ctx.State() == Isa.LoadUpper(old(ctx.State()), old(ctx.GetFields()))
    ensures ctx.Cp0Kept()
  {
    ctx.WriteGpr(ctx.rt as int, Semantics.Lui(ctx.imm));
  }

  // Loads and stores

  /** The address is `signExtend16(imm) + (Int32)GPR[rs]`; the byte read
      is widened with zeros. */
  method Lb(ctx: InstructionContext)
    requires ctx.Valid() && InRange(ctx.GetFields())
    modifies ctx.registerFile, ctx.mainMemory
    ensures ctx.Valid()
    ensures ctx.State() == Isa.Lb(old(ctx.State()), old(ctx.GetFields()))
    ensures ctx.Cp0Kept()
  {
    var b := ctx.LoadByte(Add32(ctx.Reg(ctx.rs as int), SignExtend16(ctx.imm)));
    ctx.WriteGpr(ctx.rt as int, ByteToWord(b));
  }

  method Lh(ctx: InstructionContext)
    requires ctx.Valid() && InRange(ctx.GetFields())
    modifies ctx.registerFile, ctx.mainMemory
    ensures ctx.Valid()
    ensures ctx.State() == Isa.Lh(old(ctx.State()), old(ctx.GetFields()))
    ensures ctx.Cp0Kept()
  {
    var h := ctx.LoadHalf(Add32(ctx.Reg(ctx.rs as int), SignExtend16(ctx.imm)));
    ctx.WriteGpr(ctx.rt as int, HalfToWord(h));
  }

  method Lw(ctx: InstructionContext)
    requires ctx.Valid() && InRange(ctx.GetFields())
    modifies ctx.registerFile, ctx.mainMemory
    ensures ctx.Valid()
    ensures ctx.State() == Isa.Lw(old(ctx.State()), old(ctx.GetFields()))
    ensures ctx.Cp0Kept()
  {
    var w := ctx.LoadWord(Add32(ctx.Reg(ctx.rs as int), SignExtend16(ctx.imm)));
    ctx.WriteGpr(ctx.rt as int, w);
  }

  /** The address is register rd plus the zero-extended immediate. */
  method Lbu(ctx: InstructionContext)
    requires ctx.Valid() && InRange(ctx.GetFields())
    modifies ctx.registerFile, ctx.mainMemory
    ensures ctx.Valid()
    ensures ctx.State() == Isa.Lbu(old(ctx.State()), old(ctx.GetFields()))
    ensures ctx.Cp0Kept()
  {
    var b := ctx.LoadByte(Add32(ctx.Reg(ctx.rd as int), ZeroExtend32(ctx.imm)));
    ctx.WriteGpr(ctx.rt as int, ByteToWord(b));
  }

  method Lhu(ctx: InstructionContext)
    requires ctx.Valid() && InRange(ctx.GetFields())
    modifies ctx.registerFile, ctx.mainMemory
    ensures ctx.Valid()
    ensures ctx.State() == Isa.Lhu(old(ctx.State()), old(ctx.GetFields()))
    ensures ctx.Cp0Kept()
  {
    var h := ctx.LoadHalf(Add32(ctx.Reg(ctx.rd as int), ZeroExtend32(ctx.imm)));
    ctx.WriteGpr(ctx.rt as int, HalfToWord(h));
  }

  method Sb(ctx: InstructionContext)
    requires ctx.Valid() && InRange(ctx.GetFields())
    modifies ctx.mainMemory
    ensures ctx.Valid()
    ensures ctx.State() == Isa.Sb(old(ctx.State()), old(ctx.GetFields()))
    ensures ctx.Cp0Kept()
  {
    var vAddr := Add32(ctx.Reg(ctx.rs as int), SignExtend16(ctx.imm));
    ctx.StoreByte(vAddr, LowByte(ctx.Reg(ctx.rt as int)));
  }

  method Sh(ctx: InstructionContext)
    requires ctx.Valid() && InRange(ctx.GetFields())
    modifies ctx.mainMemory
    ensures ctx.Valid()
    ensures ctx.State() == Isa.Sh(old(ctx.State()), old(ctx.GetFields()))
    ensures ctx.Cp0Kept()
  {
    var vAddr := Add32(ctx.Reg(ctx.rs as int), SignExtend16(ctx.imm));
    ctx.StoreHalf(vAddr, LowHalf(ctx.Reg(ctx.rt as int)));
  }

  method Sw(ctx: InstructionContext)
    requires ctx.Valid() && InRange(ctx.GetFields())
    modifies ctx.mainMemory
    ensures ctx.Valid()
    ensures ctx.State() == Isa.Sw(old(ctx.State()), old(ctx.GetFields()))
    ensures ctx.Cp0Kept()
  {
    ctx.StoreWord(Add32(ctx.Reg(ctx.rs as int), SignExtend16(ctx.imm)), ctx.Reg(ctx.rt as int));
  }

  // Coprocessor 0

  /** MIPS_COP0 case 0, MFC0: the cell is numbered by the low byte of
      register rd's value and selected by the low three bits of the
      immediate; its value goes to register rt.  An unpopulated or
      out-of-range cell faults the host program. */
  method MoveFrom(ctx: InstructionContext) returns (out: Isa.Outcome)
    requires ctx.Valid() && InRange(ctx.GetFields()) && ctx.Cp0Ok()
    modifies ctx.registerFile
    ensures ctx.Valid() && ctx.Cp0Ok()
    ensures var s, f := old(ctx.State()), old(ctx.GetFields());
      (ctx.State(), out) == Isa.Mfc0(s, f, ctx.cp0.GetRegister(Isa.Cp0Source(s, f), Isa.Cp0Select(f.imm)))
    ensures forall r: nat, c: nat :: ctx.cp0.GetRegister(r, c) == old(ctx.cp0.GetRegister(r, c))
  {
    var cpcregister := LowByte(ctx.Reg(ctx.rd as int)) as int;
    var value := ctx.cp0.GetRegister(cpcregister, Isa.Cp0Select(ctx.imm));
    if value.None? {
      return Isa.HostFault;
    }
    ctx.WriteGpr(ctx.rt as int, value.value);
    out := Isa.Completed;
  }

  /** MIPS_COP0 case 4, MTC0: register rt is written through the bank's
      `setRegister` to the cell numbered by the rd field.  An unpopulated
      cell faults the host program; otherwise the cell takes the masked
      write and no other cell changes. */
  method MoveTo(ctx: InstructionContext) returns (out: Isa.Outcome)
    requires ctx.Valid() && InRange(ctx.GetFields()) && ctx.Cp0Ok()
    modifies ctx.cp0.Cells
    ensures ctx.Valid() && ctx.Cp0Ok()
    ensures ctx.State() == old(ctx.State())
    ensures var (reg, sel) := (ctx.rd as int, Isa.Cp0Select(ctx.imm));
      && (out == Isa.HostFault <==> !ctx.cp0.Populated(reg, sel))
      && (out != Isa.HostFault ==> out == Isa.Completed)
      && (out != Isa.HostFault ==>
            ctx.cp0.GetRegister(reg, sel)
            == Some(LegacyWrite(CellPolicy(ctx.cp0.Table(reg, sel)), old(ctx.cp0.GetRegister(reg, sel)).value,
                                old(ctx.State()).gpr[ctx.rt])))
      && (forall r: nat, c: nat :: (r, c) != (reg, sel) ==>
            ctx.cp0.GetRegister(r, c) == old(ctx.cp0.GetRegister(r, c)))
    ensures forall r: nat, c: nat :: ctx.cp0.Table(r, c) == DefaultCell && old(ctx.cp0.GetRegister(r, c)) == Some(0) ==>
              ctx.cp0.GetRegister(r, c) == Some(0)
  {
    var v := ctx.Reg(ctx.rt as int);
    var fault := ctx.cp0.SetRegister(ctx.rd as int, Isa.Cp0Select(ctx.imm), v);
    out := if fault then Isa.HostFault else Isa.Completed;
    ZeroCellWrite(DefaultCell, v);
  }

  /** MIPS_COP0: the switch on the rs field; any case other than 0 and 4
      throws CPU. */
  method Cop0(ctx: InstructionContext) returns (out: Isa.Outcome)
    requires ctx.Valid() && InRange(ctx.GetFields()) && ctx.Cp0Ok()
    modifies ctx.registerFile, ctx.cp0.Cells
    ensures ctx.Valid() && ctx.Cp0Ok()
    ensures ctx.rs == 0 ==> var s, f := old(ctx.State()), old(ctx.GetFields());
      (ctx.State(), out) == Isa.Mfc0(s, f, ctx.cp0.GetRegister(Isa.Cp0Source(s, f), Isa.Cp0Select(f.imm)))
    ensures ctx.rs == 4 ==> var (reg, sel) := (ctx.rd as int, Isa.Cp0Select(ctx.imm));
      && (out == Isa.HostFault <==> !ctx.cp0.Populated(reg, sel))
      && (out != Isa.HostFault ==>
            ctx.cp0.GetRegister(reg, sel)
            == Some(LegacyWrite(CellPolicy(ctx.cp0.Table(reg, sel)), old(ctx.cp0.GetRegister(reg, sel)).value,
                                old(ctx.State()).gpr[ctx.rt])))
      && (forall r: nat, c: nat :: (r, c) != (reg, sel) ==>
            ctx.cp0.GetRegister(r, c) == old(ctx.cp0.GetRegister(r, c)))
    ensures ctx.rs != 0 ==> ctx.State() == old(ctx.State())
    ensures ctx.rs != 4 ==> forall r: nat, c: nat :: ctx.cp0.GetRegister(r, c) == old(ctx.cp0.GetRegister(r, c))
    ensures ctx.rs != 0 && ctx.rs != 4 ==> out == Isa.Raised(Raise(CPU))
    ensures out == Isa.HostFault ==> ctx.rs == 0 || ctx.rs == 4
    ensures forall r: nat, c: nat :: ctx.cp0.Table(r, c) == DefaultCell && old(ctx.cp0.GetRegister(r, c)) == Some(0) ==>
              ctx.cp0.GetRegister(r, c) == Some(0)
  {
    if ctx.rs == 0 {
      out := MoveFrom(ctx);
    } else if ctx.rs == 4 {
      out := MoveTo(ctx);
    } else {
      out := Isa.Raised(Raise(CPU));
    }
  }

  // Bodies that only throw

  /** The shared body of SYSCALL, BREAK, SYNC, the traps, COP1, COP2,
      SPECIAL2, LWL, LWR, SWL, SWR, CACHE, LL, SC, SDC1, SDC2, LWCL, PREF
      and SWCL: UNIMPLEMENTED is thrown and nothing changes. */
  function Unimplemented(): (out: Isa.Outcome)
    ensures out.Raised? && GetCode(out.e) == UNIMPLEMENTED
  {
    Isa.Raised(Raise(UNIMPLEMENTED))
  }

  /** The reserved opcode 0x1F throws the reserved-instruction exception. */
  function ReservedInstruction(): (out: Isa.Outcome)
    ensures out.Raised? && GetCode(out.e) == RI
  {
    Isa.Raised(Raise(RI))
  }

  // Dispatch

  /** The dispatch of the shifts, the register jumps, the conditional moves and the HI/LO moves. */
  method ExecuteShiftsAndMoves(i: Isa.Instruction, ctx: InstructionContext) returns (out: Isa.Outcome)
    requires Isa.ShiftOrMove(i)
    requires ctx.Valid() && InRange(ctx.GetFields())
    modifies ctx.registerFile, ctx.pc, ctx.hi, ctx.lo, ctx.branchTarget, ctx.branchDelay
    modifies ctx.mainMemory
    ensures ctx.Valid()
    ensures out.Raised? ==> Throws(i)
    ensures out != Isa.HostFault
    ensures old(ctx.Cp0Ok()) ==> ctx.Cp0Ok() && forall r: nat, c: nat :: ctx.cp0.GetRegister(r, c) == old(ctx.cp0.GetRegister(r, c))
    ensures ctx.State() == Isa.ShiftOrMoveStep(i, old(ctx.State()), old(ctx.GetFields())) && out == Isa.Completed
  {
    out := Isa.Completed;
    match i
    case SLL => Sll(ctx);
    case SRL => Srl(ctx);
    case SRA => Sra(ctx);
    case SLLV => Sllv(ctx);
    case SRLV => Srlv(ctx);
    case SRAV => Srav(ctx);
    case JR => Jr(ctx);
    case JALR => Jalr(ctx);
    case MOVZ => Movz(ctx);
    case MOVN => Movn(ctx);
    case MFHI => Mfhi(ctx);
    case MTHI => Mthi(ctx);
    case MFLO => Mflo(ctx);
    case MTLO => Mtlo(ctx);
    case _ => assert false;
  }

  /** The dispatch of the multiplications and divisions. */
  method ExecuteMulDiv(i: Isa.Instruction, ctx: InstructionContext) returns (out: Isa.Outcome)
    requires Isa.MulDiv(i)
    requires ctx.Valid() && InRange(ctx.GetFields())
    modifies ctx.registerFile, ctx.pc, ctx.hi, ctx.lo, ctx.branchTarget, ctx.branchDelay
    modifies ctx.mainMemory
    ensures ctx.Valid()
    ensures old(ctx.Cp0Ok()) ==> ctx.Cp0Ok() && forall r: nat, c: nat :: ctx.cp0.GetRegister(r, c) == old(ctx.cp0.GetRegister(r, c))
    ensures ctx.State() == Isa.MulDivStep(i, old(ctx.State()), old(ctx.GetFields())) && out == Isa.Completed
  {
    out := Isa.Completed;
    match i
    case MULT => Mult(ctx);
    case MULTU => Multu(ctx);
    case DIV => Div(ctx);
    case DIVU => Divu(ctx);
    case _ => assert false;
  }

  /** The dispatch of the register arithmetic and logic (ADD .. SLTU). */
  method ExecuteArithmetic(i: Isa.Instruction, ctx: InstructionContext) returns (out: Isa.Outcome)
    requires Isa.Arithmetic(i)
    requires ctx.Valid() && InRange(ctx.GetFields())
    modifies ctx.registerFile, ctx.pc, ctx.hi, ctx.lo, ctx.branchTarget, ctx.branchDelay
    modifies ctx.mainMemory
    ensures ctx.Valid()
    ensures out.Raised? ==> Throws(i)
    ensures out != Isa.HostFault
    ensures old(ctx.Cp0Ok()) ==> ctx.Cp0Ok() && forall r: nat, c: nat :: ctx.cp0.GetRegister(r, c) == old(ctx.cp0.GetRegister(r, c))
    ensures ctx.State() == Isa.ArithmeticStep(i, old(ctx.State()), old(ctx.GetFields())).0
    ensures out == Isa.ArithmeticStep(i, old(ctx.State()), old(ctx.GetFields())).1
  {
    out := Isa.Completed;
    match i
    case ADD => out := Add(ctx);
    case ADDU => Addu(ctx);
    case SUB => out := Sub(ctx);
    case SUBU => Subu(ctx);
    case AND => And(ctx);
    case OR => Or(ctx);
    case XOR => Xor(ctx);
    case NOR => Nor(ctx);
    case SLT => Slt(ctx);
    case SLTU => Sltu(ctx);
    case _ => assert false;
  }

  /** The dispatch of REGIMM, the jumps and the branches of the opcode table. */
  method ExecuteBranches(i: Isa.Instruction, ctx: InstructionContext) returns (out: Isa.Outcome)
    requires Isa.BranchOrJump(i)
    requires ctx.Valid() && InRange(ctx.GetFields())
    modifies ctx.registerFile, ctx.pc, ctx.hi, ctx.lo, ctx.branchTarget, ctx.branchDelay
    modifies ctx.mainMemory
    ensures ctx.Valid()
    ensures out.Raised? ==> Throws(i)
    ensures out != Isa.HostFault
    ensures old(ctx.Cp0Ok()) ==> ctx.Cp0Ok() && forall r: nat, c: nat :: ctx.cp0.GetRegister(r, c) == old(ctx.cp0.GetRegister(r, c))
    ensures ctx.State() == Isa.BranchStep(i, old(ctx.State()), old(ctx.GetFields())).0
    ensures out == Isa.BranchStep(i, old(ctx.State()), old(ctx.GetFields())).1
  {
    out := Isa.Completed;
    match i
    case REGIMM => out := Regimm(ctx);
    case J => J(ctx);
    case JAL => Jal(ctx);
    case BEQ => Beq(ctx);
    case BNE => Bne(ctx);
    case BLEZ => Blez(ctx);
    case BGTZ => Bgtz(ctx);
    case BEQL => Beql(ctx);
    case BNEL => Bnel(ctx);
    case BLEZL => Blezl(ctx);
    case BGTZL => Bgtzl(ctx);
    case _ => assert false;
  }

  /** The dispatch of the immediate arithmetic and logic. */
  method ExecuteImmediates(i: Isa.Instruction, ctx: InstructionContext) returns (out: Isa.Outcome)
    requires Isa.ImmediateOp(i)
    requires ctx.Valid() && InRange(ctx.GetFields())
    modifies ctx.registerFile, ctx.pc, ctx.hi, ctx.lo, ctx.branchTarget, ctx.branchDelay
    modifies ctx.mainMemory
    ensures ctx.Valid()
    ensures out.Raised? ==> Throws(i)
    ensures out != Isa.HostFault
    ensures old(ctx.Cp0Ok()) ==> ctx.Cp0Ok() && forall r: nat, c: nat :: ctx.cp0.GetRegister(r, c) == old(ctx.cp0.GetRegister(r, c))
    ensures ctx.State() == Isa.ImmediateStep(i, old(ctx.State()), old(ctx.GetFields())).0
    ensures out == Isa.ImmediateStep(i, old(ctx.State()), old(ctx.GetFields())).1
  {
    out := Isa.Completed;
    match i
    case ADDI => out := Addi(ctx);
    case ADDIU => Addiu(ctx);
    case SLTI => Slti(ctx);
    case SLTIU => Sltiu(ctx);
    case ANDI => Andi(ctx);
    case ORI => Ori(ctx);
    case XORI => Xori(ctx);
    case LUI => Lui(ctx);
    case _ => assert false;
  }

  /** The dispatch of the loads and stores. */
  method ExecuteLoadsAndStores(i: Isa.Instruction, ctx: InstructionContext) returns (out: Isa.Outcome)
    requires Isa.LoadOrStore(i)
    requires ctx.Valid() && InRange(ctx.GetFields())
    modifies ctx.registerFile, ctx.pc, ctx.hi, ctx.lo, ctx.branchTarget, ctx.branchDelay
    modifies ctx.mainMemory
    ensures ctx.Valid()
    ensures out.Raised? ==> Throws(i)
    ensures out != Isa.HostFault
    ensures old(ctx.Cp0Ok()) ==> ctx.Cp0Ok() && forall r: nat, c: nat :: ctx.cp0.GetRegister(r, c) == old(ctx.cp0.GetRegister(r, c))
    ensures ctx.State() == Isa.LoadStoreStep(i, old(ctx.State()), old(ctx.GetFields())) && out == Isa.Completed
  {
    out := Isa.Completed;
    match i
    case LB => Lb(ctx);
    case LH => Lh(ctx);
    case LW => Lw(ctx);
    case LBU => Lbu(ctx);
    case LHU => Lhu(ctx);
    case SB => Sb(ctx);
    case SH => Sh(ctx);
    case SW => Sw(ctx);
    case _ => assert false;
  }

  /** The dispatch of the classes of the function table (opcode 0). */
  method ExecuteRegisterForms(i: Isa.Instruction, ctx: InstructionContext) returns (out: Isa.Outcome)
    requires Isa.ShiftOrMove(i) || Isa.MulDiv(i) || Isa.Arithmetic(i)
    requires ctx.Valid() && InRange(ctx.GetFields())
    modifies ctx.registerFile, ctx.pc, ctx.hi, ctx.lo, ctx.branchTarget, ctx.branchDelay
    modifies ctx.mainMemory
    ensures ctx.Valid()
    ensures out.Raised? ==> Throws(i)
    ensures out != Isa.HostFault
    ensures old(ctx.Cp0Ok()) ==> ctx.Cp0Ok() && forall r: nat, c: nat :: ctx.cp0.GetRegister(r, c) == old(ctx.cp0.GetRegister(r, c))
  {
    if Isa.ShiftOrMove(i) {
      out := ExecuteShiftsAndMoves(i, ctx);
    } else if Isa.MulDiv(i) {
      out := ExecuteMulDiv(i, ctx);
    } else {
      out := ExecuteArithmetic(i, ctx);
    }
  }

  /** The dispatch of the implemented classes of the opcode and REGIMM
      tables. */
  method ExecuteOpcodeForms(i: Isa.Instruction, ctx: InstructionContext) returns (out: Isa.Outcome)
    requires Isa.BranchOrJump(i) || Isa.ImmediateOp(i) || Isa.LoadOrStore(i)
    requires ctx.Valid() && InRange(ctx.GetFields())
    modifies ctx.registerFile, ctx.pc, ctx.hi, ctx.lo, ctx.branchTarget, ctx.branchDelay
    modifies ctx.mainMemory
    ensures ctx.Valid()
    ensures out.Raised? ==> Throws(i)
    ensures out != Isa.HostFault
    ensures old(ctx.Cp0Ok()) ==> ctx.Cp0Ok() && forall r: nat, c: nat :: ctx.cp0.GetRegister(r, c) == old(ctx.cp0.GetRegister(r, c))
  {
    if Isa.BranchOrJump(i) {
      out := ExecuteBranches(i, ctx);
    } else if Isa.ImmediateOp(i) {
      out := ExecuteImmediates(i, ctx);
    } else {
      out := ExecuteLoadsAndStores(i, ctx);
    }
  }

  /** The dispatch of every class that neither throws unconditionally nor
      touches coprocessor 0. */
  method ExecuteImplemented(i: Isa.Instruction, ctx: InstructionContext) returns (out: Isa.Outcome)
    requires Isa.Implemented(i)
    requires ctx.Valid() && InRange(ctx.GetFields())
    modifies ctx.registerFile, ctx.pc, ctx.hi, ctx.lo, ctx.branchTarget, ctx.branchDelay
    modifies ctx.mainMemory
    ensures ctx.Valid()
    ensures out.Raised? ==> Throws(i)
    ensures out != Isa.HostFault
    ensures old(ctx.Cp0Ok()) ==> ctx.Cp0Ok() && forall r: nat, c: nat :: ctx.cp0.GetRegister(r, c) == old(ctx.cp0.GetRegister(r, c))
  {
    if Isa.ShiftOrMove(i) || Isa.MulDiv(i) || Isa.Arithmetic(i) {
      out := ExecuteRegisterForms(i, ctx);
    } else {
      out := ExecuteOpcodeForms(i, ctx);
    }
  }

  /** `execute(ref context)` on the instruction object a table holds: the
      call runs the body of that object's class.  Only ADD, SUB, ADDI,
      REGIMM, COP0, the reserved opcode and the unimplemented classes can
      throw, and only COP0 can fault the host program. */
  method Execute(i: Isa.Instruction, ctx: InstructionContext) returns (out: Isa.Outcome)
    requires ctx.Valid() && InRange(ctx.GetFields()) && ctx.Cp0Ok()
    modifies ctx.registerFile, ctx.pc, ctx.hi, ctx.lo, ctx.branchTarget, ctx.branchDelay
    modifies ctx.mainMemory, ctx.cp0.Cells
    ensures ctx.Valid() && ctx.Cp0Ok()
    ensures out == Isa.HostFault ==> i == Isa.COP0
    ensures out.Raised? ==> Throws(i)
    ensures Isa.Unimplemented(i) ==> out.Raised? && GetCode(out.e) == UNIMPLEMENTED && ctx.State() == old(ctx.State())
    ensures i == Isa.RESERVED_INST ==> out.Raised? && GetCode(out.e) == RI && ctx.State() == old(ctx.State())
    ensures i != Isa.COP0 ==> forall r: nat, c: nat :: ctx.cp0.GetRegister(r, c) == old(ctx.cp0.GetRegister(r, c))
    ensures forall r: nat, c: nat :: ctx.cp0.Table(r, c) == DefaultCell && old(ctx.cp0.GetRegister(r, c)) == Some(0) ==>
              ctx.cp0.GetRegister(r, c) == Some(0)
  {
    if i == Isa.COP0 {
      out := Cop0(ctx);
    } else if i == Isa.RESERVED_INST {
      out := ReservedInstruction();
    } else if Isa.Unimplemented(i) {
      out := Unimplemented();
    } else {
      out := ExecuteImplemented(i, ctx);
    }
  }

  // Groups of classes

  /** The classes whose body can throw a `MIPS_Exception`. */
  predicate Throws(i: Isa.Instruction)
  {
    match i
    case ADD | SUB | ADDI | REGIMM | COP0 | RESERVED_INST => true
    case _ => Isa.Unimplemented(i)
  }
}
