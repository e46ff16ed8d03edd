/**
 * The emulator's exception type `MIPS_Exception`: a code from a 17-value
 * enumeration, fixed at construction.
 *
 * The interrupt number that the exception entry reads through
 * `getIntNumber` is not part of the exception class this model follows; it
 * is carried here as a second field, 0 for exceptions raised by
 * instructions.
 */
module Exceptions {
  import opened Words

  /** The enumeration in declaration order. */
  datatype ExceptionCode =
    | INT | MOD | TLBL | TLBS | ADDRL | ADDRS | IBUS
    | DBUS | SYSCALL | BKPT | RI | CPU | OVF | Reserved13
    | Reserved14 | Reserved15 | UNIMPLEMENTED

  /** The numeric value of an enumerator: its position in the declaration,
      the C# default for an enum without explicit values. */
  function Ordinal(c: ExceptionCode): (n: bv32)
    ensures n < 17
  {
    match c
    case INT => 0
    case MOD => 1
    case TLBL => 2
    case TLBS => 3
    case ADDRL => 4
    case ADDRS => 5
    case IBUS => 6
    case DBUS => 7
    case SYSCALL => 8
    case BKPT => 9
    case RI => 10
    case CPU => 11
    case OVF => 12
    case Reserved13 => 13
    case Reserved14 => 14
    case Reserved15 => 15
    case UNIMPLEMENTED => 16
  }

  /** The enumerator with a given numeric value. */
  function FromOrdinal(n: bv32): (c: Option<ExceptionCode>)
    ensures c.Some? <==> n < 17
    ensures c.Some? ==> Ordinal(c.value) == n
  {
    if n == 0 then Some(INT) else if n == 1 then Some(MOD)
    else if n == 2 then Some(TLBL) else if n == 3 then Some(TLBS)
    else if n == 4 then Some(ADDRL) else if n == 5 then Some(ADDRS)
    else if n == 6 then Some(IBUS) else if n == 7 then Some(DBUS)
    else if n == 8 then Some(SYSCALL) else if n == 9 then Some(BKPT)
    else if n == 10 then Some(RI) else if n == 11 then Some(CPU)
    else if n == 12 then Some(OVF) else if n == 13 then Some(Reserved13)
    else if n == 14 then Some(Reserved14) else if n == 15 then Some(Reserved15)
    else if n == 16 then Some(UNIMPLEMENTED)
    else None
  }

  /** Distinct enumerators have distinct values: every value names one
      enumerator. */
  lemma {:induction false} OrdinalInjective(a: ExceptionCode, b: ExceptionCode)
    requires Ordinal(a) == Ordinal(b)
    ensures a == b
  {
    assert FromOrdinal(Ordinal(a)) == Some(a);
  }

  /** Every enumerator's value fits the five-bit ExcCode field of the
      Cause register (bits 2..6 once shifted left by 2). */
  lemma {:induction false} OrdinalFitsExcCode(c: ExceptionCode)
    ensures Ordinal(c) < 32
    ensures (Ordinal(c) << 2) & 0x7C == Ordinal(c) << 2
  {
  }

  /** Values 0 to 12 follow the Cause.ExcCode numbering of the MIPS32
      privileged architecture: Int, Mod, TLBL, TLBS, AdEL, AdES, IBE, DBE,
      Sys, Bp, RI, CpU, Ov. */
  lemma {:induction false} ArchitecturalCodes()
    ensures Ordinal(INT) == 0 && Ordinal(MOD) == 1 && Ordinal(TLBL) == 2 && Ordinal(TLBS) == 3
    ensures Ordinal(ADDRL) == 4 && Ordinal(ADDRS) == 5 && Ordinal(IBUS) == 6 && Ordinal(DBUS) == 7
    ensures Ordinal(SYSCALL) == 8 && Ordinal(BKPT) == 9 && Ordinal(RI) == 10
    ensures Ordinal(CPU) == 11 && Ordinal(OVF) == 12
  {
  }

  /** UNIMPLEMENTED is the only enumerator above the reserved codes: 16,
      which no architectural code of the enumeration shares. */
  lemma {:induction false} UnimplementedDistinct(c: ExceptionCode)
    requires c != UNIMPLEMENTED
    ensures Ordinal(c) < 16 && Ordinal(UNIMPLEMENTED) == 16
  {
  }

  /** An exception object: its code, and the interrupt number read by the
      exception entry for `INT`. */
  datatype MipsException = MipsException(code: ExceptionCode, intNumber: bv32)

  /** `new MIPS_Exception(code)`: an exception raised by an instruction. */
  function Raise(code: ExceptionCode): (e: MipsException)
    ensures GetCode(e) == code
  {
    MipsException(code, 0)
  }

  /** `getCode`: the code given to the constructor. */
  function GetCode(e: MipsException): ExceptionCode
  {
    e.code
  }
}
