/**
 * Shared vocabulary of the emulator model: an optional value and the
 * 32-bit word helpers the C# code gets from its uint / Int32 / Int16
 * types, their casts and the `1 << i` bit masks of its loops.
 *
 * Every word is a `bv32`; bit positions are `bv8`s.  The single-bit mask
 * `Mask(k)` is the `1 << i` the C# loops write.
 */
module Words {

  datatype Option<T> = None | Some(value: T)

  /** The C# `byte` of the decoded instruction fields, kept as an integer
      so that it can index sequences directly. */
  newtype byte = x: int | 0 <= x < 256

  /** The word with only bit k set: the `1 << i` of the C# loops.  Bit
      positions are bytes, so that masks stay within bit-vector arithmetic. */
  function Mask(k: bv8): bv32
    requires k < 32
  {
    (1 as bv32) << k
  }

  /** A single-bit mask is non-zero, and any word has either none or all of it. */
  lemma {:induction false} OneHot(x: bv32, k: bv8)
    requires k < 32
    ensures Mask(k) != 0
    ensures x & Mask(k) == 0 || x & Mask(k) == Mask(k)
  {
  }

  /** Masks of different positions share no bit. */
  lemma {:induction false} MaskDistinct(j: bv8, k: bv8)
    requires j < 32 && k < 32 && j != k
    ensures Mask(j) & Mask(k) == 0
  {
  }

  /** The bit value `(byte)((x & (1 << k)) >> k)` of the C# loops, for the
      single-bit mask m = Mask(k): 1 when that bit of x is set, else 0. */
  function Bit(x: bv32, m: bv32): bv32
  {
    if x & m == 0 then 0 else 1
  }

  /** Bit is the shifted-down bit the loops compute. */
  lemma {:induction false} BitIsShiftedBit(x: bv32, k: bv8)
    requires k < 32
    ensures Bit(x, Mask(k)) == (x & Mask(k)) >> k
  {
  }

  function Or(a: bv32, b: bv32): bv32 { a | b }

  /** The word whose bits 0 .. n-1 are set. */
  function Low(n: bv8): bv32
    requires n <= 32
  {
    if n == 0 then 0 else Or(Low(n - 1), Mask(n - 1))
  }

  /** Bits at or above n are not in Low(n). */
  lemma {:induction false} LowDisjoint(n: bv8, k: bv8)
    requires n <= k < 32
    ensures Low(n) & Mask(k) == 0
  {
    if n > 0 {
      LowDisjoint(n - 1, k);
      MaskDistinct(n - 1, k);
    }
  }

  /** The bits a loop over positions 0 .. n-1 visits form the word
      `(1 << n) - 1` (for n = 32 the shift gives 0, and 0 - 1 wraps to all
      ones). */
  lemma {:induction false} LowIsMask(n: bv8)
    requires n <= 32
    ensures Low(n) == ((1 as bv32) << n) - 1
  {
    if n > 0 {
      LowIsMask(n - 1);
      ShiftStep(n - 1);
    }
  }

  /** One more set bit: `((1 << k) - 1) | (1 << k)` is `(1 << (k + 1)) - 1`. */
  lemma {:induction false} ShiftStep(k: bv8)
    requires k < 32
    ensures Or(((1 as bv32) << k) - 1, Mask(k)) == ((1 as bv32) << (k + 1)) - 1
  {
  }

  lemma {:induction false} Low31()
    ensures Low(31) == 0x7FFF_FFFF
  {
    LowIsMask(31);
  }

  lemma {:induction false} Low32()
    ensures Low(32) == 0xFFFF_FFFF
  {
    LowIsMask(32);
  }
}
