/**
 * The value computations of the instruction bodies: the helpers of the
 * abstract class `MIPS_Instruction` (sign and zero extension, branch and
 * jump target addresses) and the C# arithmetic the `execute` methods
 * perform on `UInt32`, `Int32`, `Int16` and `Int64` values.
 *
 * Words are `bv32`, on which `+`, `-`, `*`, the shifts and the bitwise
 * operators are the C# unchecked `UInt32` operators.  Where the C# works on
 * the signed reading of a word (`(Int32)x`) it is the integer `Signed(x)`;
 * the checked additions of ADD, ADDI and SUB are tests on those integers.
 * The lemmas state what the results mean and where they depart from the
 * MIPS32 instruction set the code follows.
 */
module Semantics {
  import opened Words

  const TWO16: int := 0x1_0000
  const TWO32: int := 0x1_0000_0000
  const MinInt32: int := -0x8000_0000
  const MaxInt32: int := 0x7FFF_FFFF

  /** `(Int32)x`: the two's-complement reading of a word. */
  function Signed(x: bv32): int
  {
    var n := x as int;
    if n < 0x8000_0000 then n else n - TWO32
  }

  /** `(Int16)v`: the two's-complement reading of a half-word. */
  function SignedHalf(v: bv16): int
  {
    var n := v as int;
    if n < 0x8000 then n else n - TWO16
  }

  /** The signed reading of a word lies in the `Int32` range. */
  lemma {:induction false} SignedRange(x: bv32)
    ensures MinInt32 <= Signed(x) <= MaxInt32
  {
  }

  // ---------------------------------------------------------------------
  // The helpers of MIPS_Instruction

  /** `(UInt32)signExtend16(v)`: the half-word widened with copies of its
      sign bit. */
  function SignExtend16(v: bv16): bv32
  {
    if v < 0x8000 then v as bv32 else (v as bv32) | 0xFFFF_0000
  }

  /** `zeroExtend32(v)`: the half-word widened with zeros. */
  function ZeroExtend32(v: bv16): bv32
  {
    v as bv32
  }

  /** A non-negative half-word keeps its bits and gains sixteen zeros. */
  lemma {:induction false} SignExtendPositive(v: bv16)
    requires v < 0x8000
    ensures SignExtend16(v) & 0xFFFF == v as bv32 && SignExtend16(v) >> 16 == 0
    ensures SignExtend16(v) == ZeroExtend32(v)
  {
  }

  /** A negative half-word keeps its bits and gains sixteen ones. */
  lemma {:induction false} SignExtendNegative(v: bv16)
    requires v >= 0x8000
    ensures SignExtend16(v) & 0xFFFF == v as bv32 && SignExtend16(v) >> 16 == 0xFFFF
    ensures SignExtend16(v) != ZeroExtend32(v)
  {
  }

  /** `zeroExtend32` keeps the bits and clears the upper half. */
  lemma {:induction false} ZeroExtendParts(v: bv16)
    ensures ZeroExtend32(v) & 0xFFFF == v as bv32 && ZeroExtend32(v) >> 16 == 0
  {
  }

  /** `calculateBTA(pc, imm)`: the offset `imm << 2` is computed in an
      `Int16`, so it keeps only sixteen bits before it is sign-extended and
      added to the address. */
  function CalculateBTA(pc: bv32, imm: bv16): bv32
  {
    pc + SignExtend16(imm << 2)
  }

  /** `calculateETA(pc, jimm)`: the 256 MB region of `pc` with the jump
      field, shifted left by two, or-ed in. */
  function CalculateETA(pc: bv32, jimm: bv32): bv32
  {
    (pc & 0xF000_0000) | (jimm << 2)
  }

  /** A forward offset below 0x2000 words moves the target by four bytes
      per word, as the MIPS32 branches define it. */
  lemma {:induction false} BtaForward(pc: bv32, imm: bv16)
    requires imm < 0x2000
    ensures CalculateBTA(pc, imm) == pc + SignExtend16(imm) * 4
  {
  }

  /** So does a backward offset of at most 0x2000 words. */
  lemma {:induction false} BtaBackward(pc: bv32, imm: bv16)
    requires imm >= 0xE000
    ensures CalculateBTA(pc, imm) == pc + SignExtend16(imm) * 4
  {
  }

  /** Outside [-0x2000, 0x1FFF] words the `Int16` offset wraps: a forward
      offset of 0x2000 words lands 0x8000 bytes back instead of 0x8000
      bytes ahead. */
  lemma {:induction false} BtaWraps(pc: bv32)
    ensures CalculateBTA(pc, 0x2000) == pc - 0x8000
    ensures pc + SignExtend16(0x2000) * 4 == pc + 0x8000
  {
  }

  /** For a jump field below 2^26 the target stays in the region of `pc`
      (top four bits kept), is word aligned, and carries the field in bits
      2 to 27. */
  lemma {:induction false} EtaRegion(pc: bv32, jimm: bv32)
    requires jimm < 0x400_0000
    ensures CalculateETA(pc, jimm) & 0xF000_0000 == pc & 0xF000_0000
    ensures CalculateETA(pc, jimm) & 3 == 0
    ensures (CalculateETA(pc, jimm) & 0x0FFF_FFFF) >> 2 == jimm
  {
  }

  // ---------------------------------------------------------------------
  // Arithmetic and logic

  /** `UInt32` addition, modulo 2^32. */
  function Add32(a: bv32, b: bv32): bv32
  {
    a + b
  }

  /** Adding the same word to two words that differ gives sums that
      differ. */
  lemma {:induction false} AddCancels(a: bv32, x: bv32, y: bv32)
    requires a + x == a + y
    ensures x == y
  {
  }

  /** Adding the zero-extended and the sign-extended reading of a negative
      16-bit immediate to the same word gives different sums. */
  lemma {:induction false} ExtendedSumsDiffer(a: bv32, imm: bv16)
    requires imm >= 0x8000
    ensures Add32(a, ZeroExtend32(imm)) != Add32(a, SignExtend16(imm))
  {
    SignExtendNegative(imm);
    if Add32(a, ZeroExtend32(imm)) == Add32(a, SignExtend16(imm)) {
      AddCancels(a, ZeroExtend32(imm), SignExtend16(imm));
      assert false;
    }
  }

  /** `UInt32` subtraction, modulo 2^32. */
  function Sub32(a: bv32, b: bv32): bv32
  {
    a - b
  }

  /** `checked(signExtend32(a) + signExtend32(b))` throws: the sum of the
      signed readings leaves the `Int32` range. */
  predicate AddOverflows(a: bv32, b: bv32)
  {
    !(MinInt32 <= Signed(a) + Signed(b) <= MaxInt32)
  }

  /** `checked(signExtend32(a) - signExtend32(b))` throws. */
  predicate SubOverflows(a: bv32, b: bv32)
  {
    !(MinInt32 <= Signed(a) - Signed(b) <= MaxInt32)
  }

  function And32(a: bv32, b: bv32): bv32 { a & b }
  function Or32(a: bv32, b: bv32): bv32 { a | b }
  function Xor32(a: bv32, b: bv32): bv32 { a ^ b }
  function Nor32(a: bv32, b: bv32): bv32 { !(a | b) }

  /** ANDI clears the upper half of the register. */
  lemma {:induction false} AndImmediateClearsHigh(a: bv32, imm: bv16)
    ensures And32(a, ZeroExtend32(imm)) >> 16 == 0
  {
  }

  /** ORI keeps the upper half of the register. */
  lemma {:induction false} OrImmediateKeepsHigh(a: bv32, imm: bv16)
    ensures Or32(a, ZeroExtend32(imm)) >> 16 == a >> 16
  {
  }

  /** XORI keeps the upper half of the register. */
  lemma {:induction false} XorImmediateKeepsHigh(a: bv32, imm: bv16)
    ensures Xor32(a, ZeroExtend32(imm)) >> 16 == a >> 16
  {
  }

  /** `(UInt32)imm << 16`. */
  function Lui(imm: bv16): bv32
  {
    (imm as bv32) << 16
  }

  /** LUI puts the immediate in the upper half and zeros below it. */
  lemma {:induction false} LuiParts(imm: bv16)
    ensures Lui(imm) & 0xFFFF == 0 && Lui(imm) >> 16 == imm as bv32
  {
  }

  /** SLT's `(Int32)a < (Int32)b`, as 1 or 0. */
  function SetLess(a: bv32, b: bv32): bv32
  {
    if Signed(a) < Signed(b) then 1 else 0
  }

  /** SLTU's and SLTIU's unsigned `a < b`, as 1 or 0. */
  function SetLessUnsigned(a: bv32, b: bv32): bv32
  {
    if a < b then 1 else 0
  }

  /** A word with bit 31 set is below 0 for SLT and above it for SLTU. */
  lemma {:induction false} SignedVersusUnsigned()
    ensures SetLess(0xFFFF_FFFF, 0) == 1 && SetLessUnsigned(0xFFFF_FFFF, 0) == 0
    ensures SetLess(0x8000_0000, 0x7FFF_FFFF) == 1 && SetLessUnsigned(0x8000_0000, 0x7FFF_FFFF) == 0
  {
  }

  // ---------------------------------------------------------------------
  // Shifts.  C# masks the count of a 32-bit shift to its low five bits.

  function ShiftLeft(x: bv32, n: bv32): bv32
  {
    x << (n & 31)
  }

  function ShiftRightLogical(x: bv32, n: bv32): bv32
  {
    x >> (n & 31)
  }

  /** `(Int32)x >> n`: the vacated bits are copies of the sign bit. */
  function ShiftRightArithmetic(x: bv32, n: bv32): bv32
  {
    if x < 0x8000_0000 then x >> (n & 31) else !((!x) >> (n & 31))
  }

  /** A count is taken modulo 32: a shift by n + 32 is a shift by n. */
  lemma {:induction false} ShiftCountModulo(x: bv32, n: bv32)
    ensures ShiftLeft(x, n + 32) == ShiftLeft(x, n)
    ensures ShiftRightLogical(x, n + 32) == ShiftRightLogical(x, n)
    ensures ShiftRightArithmetic(x, n + 32) == ShiftRightArithmetic(x, n)
  {
  }

  /** The arithmetic shift keeps the sign of its operand. */
  lemma {:induction false} ArithmeticShiftSign(x: bv32, n: bv32)
    ensures (ShiftRightArithmetic(x, n) >= 0x8000_0000) == (x >= 0x8000_0000)
  {
  }

  /** On a negative word and a count that is not a multiple of 32 the
      arithmetic shift fills with ones where the logical one fills with
      zeros. */
  lemma {:induction false} ArithmeticShiftFill(x: bv32, n: bv32)
    requires x >= 0x8000_0000 && n & 31 != 0
    ensures ShiftRightArithmetic(x, n) >= 0x8000_0000 && ShiftRightLogical(x, n) < 0x8000_0000
  {
  }

  // ---------------------------------------------------------------------
  // Multiplication and division.  HI is the first component, LO the second.

  // C# multiplies and divides the integer values of the operands and casts
  // the results back to `UInt32`.  The model does the same; the lemmas
  // below connect a word to its integer value bit by bit.

  /** `(UInt32)n` of a value in the `UInt32` range. */
  function Word(n: int): bv32
    requires 0 <= n < TWO32
  {
    n as bv32
  }

  /** `(UInt32)n` of an `Int32` value: its two's-complement word. */
  function FromInt32(n: int): bv32
    requires MinInt32 <= n <= MaxInt32
  {
    Word(if n < 0 then n + 0x1_0000_0000 else n)
  }

  /** The word built from the binary digits of n, most significant first. */
  function Binary(n: int): bv32
    requires 0 <= n < TWO32
    decreases n
  {
    if n == 0 then 0 else (Binary(n / 2) << 1) | (if n % 2 == 0 then 0 else 1)
  }

  /** Shifting one digit in doubles the value and adds the digit. */
  lemma {:induction false} ShiftIn(x: bv32)
    requires x as int < 0x8000_0000
    ensures (x << 1) as int == 2 * (x as int)
    ensures ((x << 1) | 1) as int == 2 * (x as int) + 1
  {
  }

  lemma {:induction false} BinaryValue(n: int)
    requires 0 <= n < TWO32
    ensures Binary(n) as int == n
  {
    if n > 0 {
      BinaryValue(n / 2);
      ShiftIn(Binary(n / 2));
      assert (Binary(n / 2) << 1) | 0 == Binary(n / 2) << 1;
    }
  }

  /** A word is the cast of its own value. */
  lemma {:induction false} ValueCast(x: bv32)
    ensures (x as int) as bv32 == x
  {
  }

  /** `(UInt32)n` has the value n. */
  lemma {:induction false} WordValue(n: int)
    requires 0 <= n < TWO32
    ensures Word(n) as int == n
  {
    BinaryValue(n);
    ValueCast(Binary(n));
  }

  /** Reading `(UInt32)n` back as `Int32` gives n. */
  lemma {:induction false} SignedFromInt32(n: int)
    requires MinInt32 <= n <= MaxInt32
    ensures Signed(FromInt32(n)) == n
  {
    WordValue(if n < 0 then n + 0x1_0000_0000 else n);
  }

  /** Distinct words have distinct `Int32` readings. */
  lemma {:induction false} SignedInjective(x: bv32, y: bv32)
    requires Signed(x) == Signed(y)
    ensures x == y
  {
    assert x as int == y as int by {
      if x as int < 0x8000_0000 && y as int >= 0x8000_0000 {
        assert false;
      } else if x as int >= 0x8000_0000 && y as int < 0x8000_0000 {
        assert false;
      }
    }
    ValueCast(x);
    ValueCast(y);
  }

  /** A non-zero word has a positive value. */
  lemma {:induction false} PositiveValue(b: bv32)
    requires b != 0
    ensures b as int >= 1
  {
    ValueCast(b);
  }

  /** A word is non-negative as an `Int32` exactly when bit 31 is clear. */
  lemma {:induction false} SignBit(x: bv32)
    ensures x < 0x8000_0000 <==> Signed(x) >= 0
  {
    var low := x & 0x7FFF_FFFF;
    var high := low | 0x8000_0000;
    TopSplit(x);
    TopSplit(high);
    assert high & 0x7FFF_FFFF == low && high >= 0x8000_0000;
    assert low as int < 0x8000_0000;
  }

  lemma {:induction false} TopSplit(x: bv32)
    ensures x as int == (x & 0x7FFF_FFFF) as int + (x & 0x8000_0000) as int
    ensures (x & 0x8000_0000) as int == if x < 0x8000_0000 then 0 else 0x8000_0000
  {
  }

  /** The readings of the words the division tests compare against. */
  lemma {:induction false} DivisionWords(a: bv32, b: bv32)
    ensures Signed(b) == 0 <==> b == 0
    ensures Signed(a) == MinInt32 <==> a == 0x8000_0000
    ensures Signed(b) == -1 <==> b == 0xFFFF_FFFF
  {
    assert Signed(0) == 0 && Signed(0x8000_0000) == MinInt32 && Signed(0xFFFF_FFFF) == -1;
    if Signed(b) == 0 { SignedInjective(b, 0); }
    if Signed(a) == MinInt32 { SignedInjective(a, 0x8000_0000); }
    if Signed(b) == -1 { SignedInjective(b, 0xFFFF_FFFF); }
  }

  const TWO64: int := 0x1_0000_0000_0000_0000
  const MinInt64: int := -0x8000_0000_0000_0000
  const MaxInt64: int := 0x7FFF_FFFF_FFFF_FFFF

  /** The 64-bit value whose upper word is h and lower word l. */
  function Join(h: int, l: int): int
  {
    h * 0x1_0000_0000 + l
  }

  /** HI and LO of a 64-bit result p: `(UInt32)(p >> 32)` and
      `(UInt32)(p & 0xFFFFFFFF)`.  Both the shift of the `Int64` and the
      mask keep two's-complement bits, which on integers is the floor
      division and the Euclidean remainder by 2^32. */
  function Halves(p: int): (bv32, bv32)
  {
    (Word((p / 0x1_0000_0000) % 0x1_0000_0000), Word(p % 0x1_0000_0000))
  }

  /** MULT: an `Int64` holding `rs` (a `UInt32`, so widened with zeros)
      times `(Int32)rt`. */
  function Mult(a: bv32, b: bv32): (bv32, bv32)
  {
    Halves(a as int * Signed(b))
  }

  /** MULTU: the `UInt64` product of the two `UInt32` values. */
  function Multu(a: bv32, b: bv32): (bv32, bv32)
  {
    Halves(a as int * b as int)
  }

  /** A product of bounded non-negative factors is bounded by the product
      of the bounds. */
  lemma {:induction false} ProductBound(x: nat, y: nat, mx: nat, my: nat)
    requires x <= mx && y <= my
    ensures x * y <= mx * my
  {
    NonNegativeProduct(mx - x, y);
    NonNegativeProduct(mx, my - y);
    assert mx * y == x * y + (mx - x) * y;
    assert mx * my == mx * y + mx * (my - y);
  }

  lemma {:induction false} NonNegativeProduct(m: nat, n: nat)
    ensures m * n >= 0
  {
  }

  /** HI:LO read as a 64-bit value is p, for any p whose HI fits an
      `Int32`. */
  lemma {:induction false} HalvesSigned(p: int)
    requires MinInt64 <= p <= MaxInt64
    ensures Join(Signed(Halves(p).0), Halves(p).1 as int) == p
  {
    var h, l := p / 0x1_0000_0000, p % 0x1_0000_0000;
    assert p == h * 0x1_0000_0000 + l;
    assert MinInt32 <= h <= MaxInt32;
    WordValue(l);
    SignedFromInt32(h);
    WrapInt32(h);
  }

  /** The remainder modulo 2^32 of an `Int32` value is its
      two's-complement pattern. */
  lemma {:induction false} WrapInt32(h: int)
    requires MinInt32 <= h <= MaxInt32
    ensures h % 0x1_0000_0000 == if h < 0 then h + 0x1_0000_0000 else h
  {
    var q, r := h / 0x1_0000_0000, h % 0x1_0000_0000;
    assert h == q * 0x1_0000_0000 + r && 0 <= r < 0x1_0000_0000;
    if h < 0 {
      assert q == -1;
    } else {
      assert q == 0;
    }
  }

  /** HI:LO read as an unsigned 64-bit value is p, for p in the `UInt64`
      range. */
  lemma {:induction false} HalvesUnsigned(p: int)
    requires 0 <= p < TWO64
    ensures Join(Halves(p).0 as int, Halves(p).1 as int) == p
  {
    var h, l := p / 0x1_0000_0000, p % 0x1_0000_0000;
    assert p == h * 0x1_0000_0000 + l;
    assert 0 <= h < 0x1_0000_0000;
    WordValue(l);
    WordValue(h);
  }

  /** MULTU keeps the whole product: HI:LO is rs times rt. */
  lemma {:induction false} MultuIsProduct(a: bv32, b: bv32)
    ensures Join(Multu(a, b).0 as int, Multu(a, b).1 as int) == a as int * b as int
  {
    var x, y := a as int, b as int;
    UnsignedProductRange(x, y);
    HalvesUnsigned(x * y);
  }

  /** Two unsigned words multiply within the `UInt64` range. */
  lemma {:induction false} UnsignedProductRange(x: int, y: int)
    requires 0 <= x < TWO32 && 0 <= y < TWO32
    ensures 0 <= x * y < TWO64
  {
    ProductBound(x, y, 0xFFFF_FFFF, 0xFFFF_FFFF);
    NonNegativeProduct(x, y);
  }

  /** MULT keeps the whole product of the unsigned rs and the signed rt:
      HI:LO, read as an `Int64`, is that product. */
  lemma {:induction false} MultIsProduct(a: bv32, b: bv32)
    ensures Join(Signed(Mult(a, b).0), Mult(a, b).1 as int) == a as int * Signed(b)
  {
    var x, y := a as int, Signed(b);
    SignedRange(b);
    MixedProductRange(x, y);
    HalvesSigned(x * y);
  }

  /** An unsigned word times an `Int32` fits an `Int64`. */
  lemma {:induction false} MixedProductRange(x: int, y: int)
    requires 0 <= x < TWO32 && MinInt32 <= y <= MaxInt32
    ensures MinInt64 <= x * y <= MaxInt64
  {
    if y >= 0 {
      ProductBound(x, y, 0xFFFF_FFFF, 0x7FFF_FFFF);
    } else {
      ProductBound(x, -y, 0xFFFF_FFFF, 0x8000_0000);
      assert x * y == -(x * -y);
    }
  }

  /** Splitting HI:LO again gives HI and LO back. */
  lemma {:induction false} HalvesJoin(h: int, l: int)
    requires MinInt32 <= h < TWO32 && 0 <= l < TWO32
    ensures Halves(Join(h, l)) == (Word(if h < 0 then h + 0x1_0000_0000 else h), Word(l))
  {
    var p := Join(h, l);
    assert p / 0x1_0000_0000 == h && p % 0x1_0000_0000 == l;
    var q, r := h / 0x1_0000_0000, h % 0x1_0000_0000;
    assert h == q * 0x1_0000_0000 + r && 0 <= r < 0x1_0000_0000;
    if h < 0 {
      assert q == -1;
    } else {
      assert q == 0;
    }
  }

  /** MULT reads a negative `rs` as a large unsigned number: -1 times 1
      leaves HI at 0, where the signed product -1 has HI = 0xFFFFFFFF. */
  lemma {:induction false} MultZeroExtendsRs()
    ensures Mult(0xFFFF_FFFF, 1) == (0, 0xFFFF_FFFF)
    ensures Halves(Signed(0xFFFF_FFFF) * Signed(1)) == (0xFFFF_FFFF, 0xFFFF_FFFF)
    ensures Mult(2, 0xFFFF_FFFF) == (0xFFFF_FFFF, 0xFFFF_FFFE)
  {
    assert (0xFFFF_FFFF as bv32) as int == 0xFFFF_FFFF && Signed(1) == 1 && Signed(0xFFFF_FFFF) == -1;
    assert (2 as bv32) as int == 2;
    HalvesJoin(0, 0xFFFF_FFFF);
    HalvesJoin(-1, 0xFFFF_FFFF);
    HalvesJoin(-1, 0xFFFF_FFFE);
  }

  /** MULT widens only its second operand with the sign, so on a
      non-negative second operand it is MULTU. */
  lemma {:induction false} MultMatchesMultu(a: bv32, b: bv32)
    requires b < 0x8000_0000
    ensures Mult(a, b) == Multu(a, b)
  {
    SignBit(b);
  }

  /** MULTU of two maximal words: HI:LO = 0xFFFFFFFE_00000001. */
  lemma {:induction false} MultuFullWidth()
    ensures Multu(0xFFFF_FFFF, 0xFFFF_FFFF) == (0xFFFF_FFFE, 1)
  {
    assert (0xFFFF_FFFF as bv32) as int == 0xFFFF_FFFF;
    HalvesJoin(0xFFFF_FFFE, 1);
  }

  function Abs(n: int): nat
  {
    if n < 0 then -n else n
  }

  /** C#'s `Int32` division: the quotient truncated toward zero. */
  function Quotient(x: int, y: int): int
    requires y != 0
  {
    if (x < 0) == (y < 0) then Abs(x) / Abs(y) else -(Abs(x) / Abs(y))
  }

  /** C#'s `%`: the remainder that goes with the truncated quotient. */
  function Remainder(x: int, y: int): int
    requires y != 0
  {
    x - y * Quotient(x, y)
  }

  /** The truncated division of C#: the remainder is smaller than the
      divisor in magnitude and takes the sign of the dividend. */
  lemma {:induction false} TruncatedDivision(x: int, y: int)
    requires y != 0
    ensures x == y * Quotient(x, y) + Remainder(x, y)
    ensures Abs(Remainder(x, y)) < Abs(y)
    ensures Remainder(x, y) == 0 || (Remainder(x, y) < 0) == (x < 0)
  {
    var q: int, r: int := Abs(x) / Abs(y), Abs(x) % Abs(y);
    var bq: int := Abs(y) * q;
    assert Abs(x) == bq + r && 0 <= r < Abs(y);
    ProductSigns(y, q, (x < 0) == (y < 0));
    if x < 0 {
      assert Remainder(x, y) == bq - Abs(x) == -r;
    } else {
      assert Remainder(x, y) == Abs(x) - bq == r;
    }
  }

  /** The divisor times the truncated quotient, from the magnitudes: the
      sign of the product is the sign of the dividend. */
  lemma {:induction false} ProductSigns(y: int, q: int, sameSign: bool)
    requires y != 0
    ensures y * (if sameSign then q else -q) == if sameSign == (y < 0) then -(Abs(y) * q) else Abs(y) * q
  {
    if y < 0 {
      assert y * q == -(Abs(y) * q);
      assert y * -q == Abs(y) * q;
    }
  }

  /** A quotient by at least one is at most the dividend, and by at
      least two at most half of it. */
  lemma {:induction false} QuotientShrinks(x: nat, y: nat)
    requires y >= 1
    ensures 0 <= x / y <= x
    ensures y >= 2 ==> x / y <= x / 2
  {
    var q := x / y;
    assert x == y * q + x % y && x % y >= 0 && q >= 0;
    assert y * q == q + (y - 1) * q;
    NonNegativeProduct(y - 1, q);
    if y >= 2 {
      assert y * q == 2 * q + (y - 2) * q;
      NonNegativeProduct(y - 2, q);
    }
  }

  /** The truncated quotient and remainder of two `Int32` values fit an
      `Int32`, except MinValue / -1. */
  lemma {:induction false} DivisionFits(x: int, y: int)
    requires MinInt32 <= x <= MaxInt32 && MinInt32 <= y <= MaxInt32 && y != 0
    requires !(x == MinInt32 && y == -1)
    ensures MinInt32 <= Quotient(x, y) <= MaxInt32
    ensures MinInt32 < Remainder(x, y) < -MinInt32
  {
    TruncatedDivision(x, y);
    QuotientShrinks(Abs(x), Abs(y));
  }

  /** DIV: `None` when the C# division throws (a zero divisor, or
      MinValue / -1), which the body's catch swallows before HI or LO is
      written; otherwise (HI, LO) = `(UInt32)(rs % rt)`, `(UInt32)(rs / rt)`
      on the `Int32` readings of the operands. */
  function Div(a: bv32, b: bv32): Option<(bv32, bv32)>
  {
    var x, y := Signed(a), Signed(b);
    if y == 0 || (x == MinInt32 && y == -1) then None
    else
      SignedRange(a);
      SignedRange(b);
      Some(Truncated(x, y))
  }

  /** The remainder and quotient of two `Int32` values, as words. */
  function Truncated(x: int, y: int): (bv32, bv32)
    requires MinInt32 <= x <= MaxInt32 && MinInt32 <= y <= MaxInt32 && y != 0
    requires !(x == MinInt32 && y == -1)
  {
    DivisionFits(x, y);
    (FromInt32(Remainder(x, y)), FromInt32(Quotient(x, y)))
  }

  /** DIVU: `None` for a zero divisor; otherwise (HI, LO) = (a % b, a / b)
      on the `UInt32` values. */
  function Divu(a: bv32, b: bv32): Option<(bv32, bv32)>
  {
    if b == 0 then None
    else
      PositiveValue(b);
      Some(Unsigned(a as int, b as int))
  }

  /** The remainder and quotient of two `UInt32` values, as words. */
  function Unsigned(x: int, y: int): (bv32, bv32)
    requires 0 <= x < TWO32 && 1 <= y < TWO32
  {
    QuotientShrinks(x, y);
    (Word(x % y), Word(x / y))
  }

  /** DIV is C#'s truncated division: read as `Int32`, LO holds the
      quotient truncated toward zero and HI the remainder with the sign of
      the dividend, whenever the division does not throw (a divisor
      reading 0 is the word 0, by `DivisionWords`). */
  lemma {:induction false} DivIsTruncated(a: bv32, b: bv32)
    requires Signed(b) != 0 && !(Signed(a) == MinInt32 && Signed(b) == -1)
    ensures Div(a, b).Some?
    ensures Signed(Div(a, b).value.1) == Quotient(Signed(a), Signed(b))
    ensures Signed(Div(a, b).value.0) == Remainder(Signed(a), Signed(b))
  {
    var x, y := Signed(a), Signed(b);
    SignedRange(a);
    SignedRange(b);
    TruncatedReadsBack(x, y);
    assert Div(a, b) == Some(Truncated(x, y));
  }

  lemma {:induction false} TruncatedReadsBack(x: int, y: int)
    requires MinInt32 <= x <= MaxInt32 && MinInt32 <= y <= MaxInt32 && y != 0
    requires !(x == MinInt32 && y == -1)
    ensures Signed(Truncated(x, y).1) == Quotient(x, y)
    ensures Signed(Truncated(x, y).0) == Remainder(x, y)
  {
    DivisionFits(x, y);
    SignedFromInt32(Quotient(x, y));
    SignedFromInt32(Remainder(x, y));
  }

  /** DIVU is the division of the unsigned values: LO is the quotient and
      HI the remainder. */
  lemma {:induction false} DivuIsDivision(a: bv32, b: bv32)
    requires b != 0
    ensures Divu(a, b).Some?
    ensures Divu(a, b).value.1 as int == a as int / b as int
    ensures Divu(a, b).value.0 as int == a as int % b as int
  {
    PositiveValue(b);
    UnsignedValues(a as int, b as int);
  }

  lemma {:induction false} UnsignedValues(x: int, y: int)
    requires 0 <= x < TWO32 && 1 <= y < TWO32
    ensures Unsigned(x, y).1 as int == x / y
    ensures Unsigned(x, y).0 as int == x % y
  {
    QuotientShrinks(x, y);
    WordValue(x / y);
    WordValue(x % y);
  }

  /** On two non-negative operands DIV is DIVU. */
  lemma {:induction false} DivMatchesDivu(a: bv32, b: bv32)
    requires a < 0x8000_0000 && b < 0x8000_0000
    ensures Div(a, b) == Divu(a, b)
  {
    SignBit(a);
    SignBit(b);
    DivisionWords(a, b);
    if b != 0 {
      PositiveValue(b);
      NaturalDivision(a as int, b as int);
    }
  }

  /** On non-negative operands the truncated division is the unsigned one. */
  lemma {:induction false} NaturalDivision(x: int, y: int)
    requires 0 <= x <= MaxInt32 && 1 <= y <= MaxInt32
    ensures Truncated(x, y) == Unsigned(x, y)
  {
    var q, r := x / y, x % y;
    QuotientShrinks(x, y);
    assert Quotient(x, y) == q;
    assert Remainder(x, y) == r;
    assert 0 <= r < y;
    FromNatural(q);
    FromNatural(r);
  }

  /** A non-negative `Int32` is cast to the word of its value. */
  lemma {:induction false} FromNatural(n: int)
    requires 0 <= n <= MaxInt32
    ensures FromInt32(n) == Word(n)
  {
  }

  /** The throwing cases of DIV and DIVU. */
  lemma {:induction false} DivFaults(a: bv32)
    ensures Div(a, 0) == None && Divu(a, 0) == None
    ensures Div(0x8000_0000, 0xFFFF_FFFF) == None
    ensures a != 0x8000_0000 ==> Div(a, 0xFFFF_FFFF).Some?
  {
    DivisionWords(a, 0xFFFF_FFFF);
  }

  /** -53 / 200 truncates to 0 with remainder -53 (the unsigned reading,
      4294967243, is 21474836 times 200 plus 43); 7 / -2 is -3 remainder
      1; -7 / 2 is -3 remainder -1. */
  lemma {:induction false} DivVectors()
    ensures Div(0xFFFF_FFCB, 200) == Some((0xFFFF_FFCB, 0))
    ensures Signed(0xFFFF_FFCB) == -53 && Quotient(-53, 200) == 0 && Remainder(-53, 200) == -53
    ensures Divu(0xFFFF_FFCB, 200) == Some((43, 21474836))
    ensures Div(7, 0xFFFF_FFFE) == Some((1, 0xFFFF_FFFD))
    ensures Signed(0xFFFF_FFFD) == -3 && Quotient(7, -2) == -3 && Remainder(7, -2) == 1
    ensures Div(0xFFFF_FFF9, 2) == Some((0xFFFF_FFFF, 0xFFFF_FFFD))
    ensures Quotient(-7, 2) == -3 && Remainder(-7, 2) == -1
  {
    assert Signed(0xFFFF_FFCB) == -53 && Signed(200) == 200;
    assert Quotient(-53, 200) == 0 && Remainder(-53, 200) == -53;
    assert FromInt32(-53) == 0xFFFF_FFCB && FromInt32(0) == 0;
    assert Truncated(-53, 200) == (0xFFFF_FFCB, 0);
    assert (0xFFFF_FFCB as bv32) as int == 4294967243 && (200 as bv32) as int == 200;
    assert Unsigned(4294967243, 200) == (43, 21474836);
    assert Signed(7) == 7 && Signed(0xFFFF_FFFE) == -2;
    assert Quotient(7, -2) == -3 && Remainder(7, -2) == 1;
    assert FromInt32(-3) == 0xFFFF_FFFD && FromInt32(1) == 1;
    assert Truncated(7, -2) == (1, 0xFFFF_FFFD);
    assert Signed(0xFFFF_FFF9) == -7 && Signed(2) == 2;
    assert Quotient(-7, 2) == -3 && Remainder(-7, 2) == -1;
    assert FromInt32(-1) == 0xFFFF_FFFF;
    assert Truncated(-7, 2) == (0xFFFF_FFFF, 0xFFFF_FFFD);
  }

  // ---------------------------------------------------------------------
  // Loads and stores

  /** `(byte)x`: the low eight bits. */
  function LowByte(x: bv32): bv8
  {
    (x & 0xFF) as bv8
  }

  /** `(UInt16)x`: the low sixteen bits. */
  function LowHalf(x: bv32): bv16
  {
    (x & 0xFFFF) as bv16
  }

  /** A byte or half-word widened to a word with zeros, as every load
      widens what it read. */
  function ByteToWord(b: bv8): bv32 { b as bv32 }
  function HalfToWord(h: bv16): bv32 { h as bv32 }

  /** A loaded byte or half-word never has bits above its width. */
  lemma {:induction false} LoadsZeroExtend(b: bv8, h: bv16)
    ensures ByteToWord(b) < 0x100 && HalfToWord(h) < 0x1_0000
    ensures LowByte(ByteToWord(b)) == b && LowHalf(HalfToWord(h)) == h
  {
  }
}
