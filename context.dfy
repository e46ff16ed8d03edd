/**
 * The instruction context `MIPS_InstructionContext`: the fields of the
 * instruction being executed, and handles on the machine state the
 * instructions read and write (the general-purpose register file, PC, HI,
 * LO, the branch target and branch-delay flag, main memory, and coprocessor
 * 0).
 *
 * The handles are the CPU's own objects, shared by reference; the C# never
 * reassigns them, so they are `const` here.  `State()` reads the machine
 * through them as one value of type `Arch`, and every write an instruction
 * makes goes through one of the helper methods below, each of which states
 * the new `State()` as an update of the old one.
 */
module Context {
  import opened Words
  import opened Registers
  import opened Paging
  import opened Cp0Bank

  /** `MIPS_Boolean`, a mutable boolean shared by reference between the CPU
      and the context (the class is not part of this model; this is the
      behaviour its uses rely on). */
  class Flag {
    var value: bool

    constructor (b: bool)
      ensures value == b
    {
      value := b;
    }

    method SetValue(b: bool)
      modifies this
      ensures value == b
    {
      value := b;
    }

    function GetValue(): bool
      reads this
    {
      value
    }
  }

  /** The decoded fields of an instruction word, as `setContext` receives
      them. */
  datatype Fields = Fields(opcode: byte, rs: byte, rt: byte, rd: byte, shamt: byte, funct: byte,
                           imm: bv16, jimm: bv32)

  /** The ranges the decoder produces: five-bit register fields and shift
      amount, six-bit opcode and function fields. */
  predicate InRange(f: Fields)
  {
    f.rs < 32 && f.rt < 32 && f.rd < 32 && f.shamt < 32 && f.opcode < 64 && f.funct < 64
  }

  /** The architectural state reachable through the context: the 32 general
      registers, PC, HI, LO, the pending branch target and delay flag, and
      main memory. */
  datatype Arch = Arch(gpr: seq<bv32>, pc: bv32, hi: bv32, lo: bv32, target: bv32, delay: bool,
                       mem: MemState)

  /** A well-formed state: 32 registers, register 0 reading 0, and memory
      in the shape `Memory.Valid` keeps. */
  predicate WfArch(s: Arch)
  {
    |s.gpr| == 32 && s.gpr[0] == 0 && Wf(s.mem)
  }

  /** The register file after `setValue(v)` on register r: register 0 is the
      muted cell and keeps its value. */
  function SetGpr(gpr: seq<bv32>, r: int, v: bv32): (g: seq<bv32>)
    requires |gpr| == 32 && 0 <= r < 32
    ensures |g| == 32 && g[0] == gpr[0]
    ensures forall i :: 0 <= i < 32 && i != r ==> g[i] == gpr[i]
    ensures r != 0 ==> g[r] == v
  {
    if r == 0 then gpr else gpr[r := v]
  }

  class InstructionContext {
    var opcode: byte
    var rs: byte
    var rt: byte
    var rd: byte
    var shamt: byte
    var funct: byte
    var imm: bv16
    var jimm: bv32
    const mainMemory: Memory
    const registerFile: seq<Register>
    const pc: Register
    const hi: Register
    const lo: Register
    const branchDelay: Flag
    const branchTarget: Register
    /** The coprocessor that `getCoprocessors()[0]` returns to MIPS_COP0. */
    const cp0: Cpc0

    /** The constructor: stores the handles and zeroes the fields (`shamt`
        keeps its default, also 0). */
    constructor (memory: Memory, regfile: seq<Register>, pc: Register, hi: Register, lo: Register,
                 branchTarget: Register, branchDelay: Flag, cp0: Cpc0)
      ensures mainMemory == memory && registerFile == regfile && this.pc == pc
      ensures this.hi == hi && this.lo == lo && this.branchTarget == branchTarget
      ensures this.branchDelay == branchDelay && this.cp0 == cp0
      ensures GetFields() == Fields(0, 0, 0, 0, 0, 0, 0, 0)
    {
      mainMemory := memory;
      registerFile := regfile;
      this.pc := pc;
      this.hi := hi;
      this.lo := lo;
      opcode, rs, rd, rt, imm, jimm, funct, shamt := 0, 0, 0, 0, 0, 0, 0, 0;
      this.branchDelay := branchDelay;
      this.branchTarget := branchTarget;
      this.cp0 := cp0;
    }

    /** `setContext`: loads the fields of the next instruction and nothing
        else. */
    method SetContext(opcode: byte, rs: byte, rt: byte, rd: byte, shamt: byte, funct: byte,
                      imm: bv16, jimm: bv32)
      modifies this
      ensures GetFields() == Fields(opcode, rs, rt, rd, shamt, funct, imm, jimm)
    {
      this.opcode := opcode;
      this.rs := rs;
      this.rt := rt;
      this.rd := rd;
      this.shamt := shamt;
      this.funct := funct;
      this.imm := imm;
      this.jimm := jimm;
    }

    /** The fields `setContext` last stored, as one value. */
    function GetFields(): Fields
      reads this
    {
      Fields(opcode, rs, rt, rd, shamt, funct, imm, jimm)
    }

    function GetOpcode(): byte reads this { opcode }
    function GetRS(): byte reads this { rs }
    function GetRT(): byte reads this { rt }
    function GetRD(): byte reads this { rd }
    function GetShamt(): byte reads this { shamt }
    function GetFunct(): byte reads this { funct }
    function GetImm(): bv16 reads this { imm }
    function GetJimm(): bv32 reads this { jimm }

    /** `setBranchDelay`: sets the shared flag. */
    method SetBranchDelay(value: bool)
      requires Valid()
      modifies branchDelay
      ensures Valid()
      ensures State() == old(State()).(delay := value)
      ensures Cp0Kept()
    {
      branchDelay.SetValue(value);
    }

    /** The register file has 32 distinct cells, cell 0 muted and holding 0,
        the others writable. */
    ghost predicate RegsOk()
      reads registerFile
    {
      && |registerFile| == 32
      && registerFile[0].muted && registerFile[0].register == 0
      && (forall i :: 1 <= i < 32 ==> !registerFile[i].muted)
      && (forall i, j :: 0 <= i < j < 32 ==> registerFile[i] != registerFile[j])
    }

    /** PC, HI, LO and the branch target are four further distinct, writable
        cells. */
    ghost predicate Separate()
      reads registerFile
    {
      && pc !in registerFile && hi !in registerFile && lo !in registerFile && branchTarget !in registerFile
      && pc != hi && pc != lo && pc != branchTarget && hi != lo && hi != branchTarget && lo != branchTarget
      && !pc.muted && !hi.muted && !lo.muted && !branchTarget.muted
    }

    ghost predicate Valid()
      reads registerFile, mainMemory
    {
      RegsOk() && Separate() && mainMemory.Valid()
    }

    /** Coprocessor 0 as its constructor leaves it, which every write keeps. */
    ghost predicate Cp0Ok()
      reads cp0, cp0.registerFile, cp0.Policy
    {
      cp0.Valid() && cp0.Shape() && cp0.Policies()
    }

    /** Coprocessor 0 as it was in the old state: its invariant and the
        value of every register. */
    twostate predicate Cp0Kept()
      reads cp0, cp0.registerFile, cp0.Cells, cp0.Policy
    {
      old(Cp0Ok()) ==>
        && Cp0Ok()
        && forall r: nat, c: nat :: cp0.GetRegister(r, c) == old(cp0.GetRegister(r, c))
    }

    ghost function Gpr(): (g: seq<bv32>)
      requires |registerFile| == 32
      reads registerFile
      ensures |g| == 32
    {
      seq(32, i requires 0 <= i < 32 reads registerFile => registerFile[i].register)
    }

    /** The machine state the handles lead to. */
    ghost function State(): (a: Arch)
      requires |registerFile| == 32
      reads registerFile, pc, hi, lo, branchTarget, branchDelay, mainMemory
      ensures |a.gpr| == 32
      ensures Valid() ==> WfArch(a)
    {
      Arch(Gpr(), pc.register, hi.register, lo.register, branchTarget.register, branchDelay.value,
           mainMemory.Model())
    }

    /** `getRegisters()[r].getValue()`. */
    function Reg(r: int): (v: bv32)
      requires RegsOk() && 0 <= r < 32
      reads registerFile
      ensures v == Gpr()[r]
    {
      registerFile[r].GetValue()
    }

    /** `getRegisters()[r].setValue(v)`. */
    method WriteGpr(r: int, v: bv32)
      requires Valid() && 0 <= r < 32
      modifies registerFile[r]
      ensures Valid()
      ensures State() == old(State()).(gpr := SetGpr(old(Gpr()), r, v))
      ensures Cp0Kept()
    {
      ghost var g := Gpr();
      registerFile[r].SetValue(v);
      assert Gpr() == SetGpr(g, r, v);
    }

    /** `getPC().setValue(v)`. */
    method WritePc(v: bv32)
      requires Valid()
      modifies pc
      ensures Valid()
      ensures State() == old(State()).(pc := v)
      ensures Cp0Kept()
    {
      pc.SetValue(v);
    }

    /** PC set to `v` and the delay flag cleared, as the exception entry
        leaves them. */
    method Vectored(v: bv32)
      requires Valid()
      modifies pc, branchDelay
      ensures Valid()
      ensures State() == old(State()).(pc := v, delay := false)
      ensures Cp0Kept()
    {
      pc.SetValue(v);
      branchDelay.SetValue(false);
    }

    /** `getHI().setValue(v)`. */
    method WriteHi(v: bv32)
      requires Valid()
      modifies hi
      ensures Valid()
      ensures State() == old(State()).(hi := v)
      ensures Cp0Kept()
    {
      hi.SetValue(v);
    }

    /** `getLO().setValue(v)`. */
    method WriteLo(v: bv32)
      requires Valid()
      modifies lo
      ensures Valid()
      ensures State() == old(State()).(lo := v)
      ensures Cp0Kept()
    {
      lo.SetValue(v);
    }

    /** `getBranchTarget().setValue(v)`. */
    method WriteTarget(v: bv32)
      requires Valid()
      modifies branchTarget
      ensures Valid()
      ensures State() == old(State()).(target := v)
      ensures Cp0Kept()
    {
      branchTarget.SetValue(v);
    }

    /** `getMemory().ReadByte(address)`. */
    method LoadByte(address: bv32) returns (b: bv8)
      requires Valid()
      modifies mainMemory
      ensures Valid()
      ensures b == ByteRead(old(State()).mem, address).0
      ensures State().mem == ByteRead(old(State()).mem, address).1
      ensures State() == old(State()).(mem := State().mem)
      ensures Cp0Kept()
    {
      ghost var g := Gpr();
      ghost var t := (pc.register, hi.register, lo.register, branchTarget.register, branchDelay.value);
      b := mainMemory.ReadByte(address);
      assert Gpr() == g;
      assert (pc.register, hi.register, lo.register, branchTarget.register, branchDelay.value) == t;
    }

    /** `getMemory().ReadHalf(address)`. */
    method LoadHalf(address: bv32) returns (h: bv16)
      requires Valid()
      modifies mainMemory
      ensures Valid()
      ensures h == HalfRead(old(State()).mem, address).0
      ensures State().mem == HalfRead(old(State()).mem, address).1
      ensures State() == old(State()).(mem := State().mem)
      ensures Cp0Kept()
    {
      ghost var g := Gpr();
      ghost var t := (pc.register, hi.register, lo.register, branchTarget.register, branchDelay.value);
      h := mainMemory.ReadHalf(address);
      assert Gpr() == g;
      assert (pc.register, hi.register, lo.register, branchTarget.register, branchDelay.value) == t;
    }

    /** `getMemory().ReadWord(address)`. */
    method LoadWord(address: bv32) returns (w: bv32)
      requires Valid()
      modifies mainMemory
      ensures Valid()
      ensures w == WordRead(old(State()).mem, address).0
      ensures State().mem == WordRead(old(State()).mem, address).1
      ensures State() == old(State()).(mem := State().mem)
      ensures Cp0Kept()
    {
      ghost var g := Gpr();
      ghost var t := (pc.register, hi.register, lo.register, branchTarget.register, branchDelay.value);
      w := mainMemory.ReadWord(address);
      assert Gpr() == g;
      assert (pc.register, hi.register, lo.register, branchTarget.register, branchDelay.value) == t;
    }

    /** `getMemory().StoreByte(address, value)`. */
    method StoreByte(address: bv32, value: bv8)
      requires Valid()
      modifies mainMemory
      ensures Valid()
      ensures State() == old(State()).(mem := ByteStore(old(State()).mem, address, value))
      ensures Cp0Kept()
    {
      ghost var g := Gpr();
      ghost var t := (pc.register, hi.register, lo.register, branchTarget.register, branchDelay.value);
      mainMemory.StoreByte(address, value);
      assert Gpr() == g;
      assert (pc.register, hi.register, lo.register, branchTarget.register, branchDelay.value) == t;
    }

    /** `getMemory().StoreHalf(address, value)`. */
    method StoreHalf(address: bv32, value: bv16)
      requires Valid()
      modifies mainMemory
      ensures Valid()
      ensures State() == old(State()).(mem := HalfStore(old(State()).mem, address, value))
      ensures Cp0Kept()
    {
      ghost var g := Gpr();
      ghost var t := (pc.register, hi.register, lo.register, branchTarget.register, branchDelay.value);
      mainMemory.StoreHalf(address, value);
      assert Gpr() == g;
      assert (pc.register, hi.register, lo.register, branchTarget.register, branchDelay.value) == t;
    }

    /** `getMemory().StoreWord(address, value)`. */
    method StoreWord(address: bv32, value: bv32)
      requires Valid()
      modifies mainMemory
      ensures Valid()
      ensures State() == old(State()).(mem := WordStore(old(State()).mem, address, value))
      ensures Cp0Kept()
    {
      ghost var g := Gpr();
      ghost var t := (pc.register, hi.register, lo.register, branchTarget.register, branchDelay.value);
      mainMemory.StoreWord(address, value);
      assert Gpr() == g;
      assert (pc.register, hi.register, lo.register, branchTarget.register, branchDelay.value) == t;
    }
  }
}
