/**
 * The per-bit access policy of a coprocessor-0 register and what its
 * masking loops compute.  Both versions of MIPS_CPC0Register (the
 * two-mode one in MIPS_CPC0Register.cs and the older one-argument one in
 * Standalone_MIPS_Emulator/MIPS_CPC0Register.cs) are proved against the
 * functions here.
 *
 * The loops build their result one bit at a time; `Merge` and `Collapse`
 * follow them bit by bit, and the lemmas turn them into closed forms over
 * whole words (`MaskedWrite`) and into per-bit descriptions.
 */
module Cp0Masking {
  import opened Words

  /** REGBitRW: LOCKED (the C# default value), READ, READWRITE. */
  datatype BitPolicy = Locked | Read | ReadWrite

  /** The policy array of a freshly allocated register: all LOCKED. */
  function AllLocked(): (p: seq<BitPolicy>)
    ensures |p| == 32 && forall k :: 0 <= k < 32 ==> p[k] == Locked
  {
    seq(32, _ => Locked)
  }

  // ---------------------------------------------------------------------
  // setRWMask

  /** What setRWMask stores for one pair of bit values (value1 from mask1,
      value2 from mask2); None where it throws. */
  function Classify(value1: bv32, value2: bv32): Option<BitPolicy>
  {
    if value1 == 0 && value2 == 0 then Some(Locked)
    else if value1 == 1 && value2 == 0 then Some(Read)
    else if value1 == 1 && value2 == 1 then Some(ReadWrite)
    else None
  }

  /** The classification of the bit pair under the single-bit mask b. */
  function ClassifyAt(mask1: bv32, mask2: bv32, b: bv32): Option<BitPolicy>
  {
    Classify(Bit(mask1, b), Bit(mask2, b))
  }

  /** The pair (0, 1) is the only one setRWMask rejects, and the others map
      to LOCKED, READ and READWRITE. */
  lemma {:induction false} ClassifyTable(mask1: bv32, mask2: bv32, k: bv8)
    requires k < 32
    ensures ClassifyAt(mask1, mask2, Mask(k)).None? <==> mask1 & Mask(k) == 0 && mask2 & Mask(k) != 0
    ensures ClassifyAt(mask1, mask2, Mask(k)) == Some(Locked) <==> mask1 & Mask(k) == 0 && mask2 & Mask(k) == 0
    ensures ClassifyAt(mask1, mask2, Mask(k)) == Some(Read) <==> mask1 & Mask(k) != 0 && mask2 & Mask(k) == 0
    ensures ClassifyAt(mask1, mask2, Mask(k)) == Some(ReadWrite) <==> mask1 & Mask(k) != 0 && mask2 & Mask(k) != 0
  {
  }

  /** The number of bits setRWMask classifies, starting at `from`, before it
      stops: 31 when no pair below bit 31 is rejected, else the position of
      the first rejected pair. */
  function Reach(mask1: bv32, mask2: bv32, from: bv8): (n: bv8)
    requires from <= 31
    ensures from <= n <= 31
    ensures forall k: bv8 {:trigger ClassifyAt(mask1, mask2, Mask(k))} :: from <= k < n ==> ClassifyAt(mask1, mask2, Mask(k)).Some?
    ensures n < 31 ==> ClassifyAt(mask1, mask2, Mask(n)).None?
    decreases 31 - from
  {
    if from == 31 then 31
    else if ClassifyAt(mask1, mask2, Mask(from)).None? then from
    else Reach(mask1, mask2, from + 1)
  }

  /** A mask pair that setRWMask accepts: no bit below 31 set in mask2 and
      clear in mask1.  Bit 31 is never looked at. */
  predicate MasksValid(mask1: bv32, mask2: bv32)
  {
    mask2 & !mask1 & 0x7FFF_FFFF == 0
  }

  lemma {:induction false} AcceptedBit(mask1: bv32, mask2: bv32, k: bv8)
    requires k < 32
    requires ClassifyAt(mask1, mask2, Mask(k)).Some?
    ensures mask2 & !mask1 & Mask(k) == 0
  {
  }

  lemma {:induction false} AcceptedBelow(mask1: bv32, mask2: bv32, n: bv8)
    requires n <= 31
    requires forall k: bv8 {:trigger ClassifyAt(mask1, mask2, Mask(k))} :: k < n ==> ClassifyAt(mask1, mask2, Mask(k)).Some?
    ensures mask2 & !mask1 & Low(n) == 0
  {
    if n > 0 {
      AcceptedBelow(mask1, mask2, n - 1);
      AcceptedBit(mask1, mask2, n - 1);
    }
  }

  lemma {:induction false} LowCovers(n: bv8, k: bv8)
    requires k < n <= 32
    ensures Low(n) & Mask(k) == Mask(k)
  {
    if k < n - 1 {
      LowCovers(n - 1, k);
    }
  }

  lemma {:induction false} RejectedBit(mask1: bv32, mask2: bv32, k: bv8)
    requires k < 31
    requires ClassifyAt(mask1, mask2, Mask(k)).None?
    ensures mask2 & !mask1 & Low(31) != 0
  {
    LowCovers(31, k);
  }

  /** setRWMask runs through all 31 bits exactly for the pairs MasksValid
      accepts. */
  lemma {:induction false} ReachIsValidity(mask1: bv32, mask2: bv32)
    ensures Reach(mask1, mask2, 0) == 31 <==> MasksValid(mask1, mask2)
  {
    if Reach(mask1, mask2, 0) == 31 {
      ReachAll(mask1, mask2);
    } else {
      ReachShort(mask1, mask2, Reach(mask1, mask2, 0));
    }
  }

  lemma {:induction false} ReachAll(mask1: bv32, mask2: bv32)
    requires Reach(mask1, mask2, 0) == 31
    ensures MasksValid(mask1, mask2)
  {
    Low31();
    AcceptedBelow(mask1, mask2, 31);
  }

  lemma {:induction false} ReachShort(mask1: bv32, mask2: bv32, n: bv8)
    requires n == Reach(mask1, mask2, 0) < 31
    ensures !MasksValid(mask1, mask2)
  {
    Low31();
    RejectedBit(mask1, mask2, n);
  }

  /** The policy setRWMask stores for the bit under b.  It is only
      consulted at accepted pairs (ClassifyAt is Some there); the rejected
      pair never reaches the array. */
  function PolicyAt(mask1: bv32, mask2: bv32, b: bv32): BitPolicy
  {
    match ClassifyAt(mask1, mask2, b) case Some(p) => p case None => Locked
  }

  /** The policy array after setRWMask classified bits 0 .. n-1 without
      throwing, one array element per iteration. */
  function Classified(mask1: bv32, mask2: bv32, before: seq<BitPolicy>, n: bv8): (p: seq<BitPolicy>)
    requires |before| == 32 && n <= 31
    ensures |p| == 32
  {
    if n == 0 then before
    else Classified(mask1, mask2, before, n - 1)[n - 1 := PolicyAt(mask1, mask2, Mask(n - 1))]
  }

  /** Bits below n take their classification, the others keep their policy. */
  lemma {:induction false} ClassifiedAt(mask1: bv32, mask2: bv32, before: seq<BitPolicy>, n: bv8, k: bv8)
    requires |before| == 32 && n <= 31 && k < 32
    ensures Classified(mask1, mask2, before, n)[k]
         == if k < n then PolicyAt(mask1, mask2, Mask(k)) else before[k]
  {
    if n > 0 && k != n - 1 {
      ClassifiedAt(mask1, mask2, before, n - 1, k);
    }
  }

  /** One more iteration of the setRWMask loop updates element n. */
  lemma {:induction false} ClassifiedNext(mask1: bv32, mask2: bv32, before: seq<BitPolicy>, n: bv8)
    requires |before| == 32 && n < 31
    ensures Classified(mask1, mask2, before, n + 1)
         == Classified(mask1, mask2, before, n)[n := PolicyAt(mask1, mask2, Mask(n))]
  {
  }

  /** An accepted pair at position i lets the setRWMask loop go on. */
  lemma {:induction false} ReachContinues(mask1: bv32, mask2: bv32, i: bv8)
    requires i < 31 && i <= Reach(mask1, mask2, 0)
    requires ClassifyAt(mask1, mask2, Mask(i)).Some?
    ensures i + 1 <= Reach(mask1, mask2, 0)
  {
  }

  /** A rejected pair at position i is where the setRWMask loop throws. */
  lemma {:induction false} ReachStops(mask1: bv32, mask2: bv32, i: bv8)
    requires i < 31 && i <= Reach(mask1, mask2, 0)
    requires ClassifyAt(mask1, mask2, Mask(i)).None?
    ensures i == Reach(mask1, mask2, 0)
  {
  }

  /** The policy of a register built by the three-argument constructor from
      an accepted mask pair. */
  function PolicyOf(mask1: bv32, mask2: bv32): (p: seq<BitPolicy>)
    requires MasksValid(mask1, mask2)
    ensures |p| == 32
  {
    Classified(mask1, mask2, AllLocked(), 31)
  }

  /** Bit 31 keeps the default LOCKED policy whatever the masks say; every
      other bit is classified from its mask pair. */
  lemma {:induction false} PolicyOfAt(mask1: bv32, mask2: bv32, k: bv8)
    requires MasksValid(mask1, mask2) && k < 32
    ensures k < 31 ==> ClassifyAt(mask1, mask2, Mask(k)) == Some(PolicyOf(mask1, mask2)[k])
    ensures k == 31 ==> PolicyOf(mask1, mask2)[k] == Locked
  {
    ReachIsValidity(mask1, mask2);
    ClassifiedAt(mask1, mask2, AllLocked(), 31, k);
  }

  // ---------------------------------------------------------------------
  // setValue(value, hwmode) of the two-mode register

  /** Whether a write takes the new bit at a position of this policy:
      READWRITE always, READ only for a hardware write, LOCKED never. */
  predicate TakesNew(p: BitPolicy, hwmode: bool)
  {
    p == ReadWrite || (hwmode && p == Read)
  }

  function Sel(t: bool, m: bv32): bv32 { if t then m else 0 }

  /** The bit that the loop ORs in: `value & (1 << i)` or `register & (1 << i)`. */
  function Pick(t: bool, v: bv32, prev: bv32, m: bv32): bv32 { if t then v & m else prev & m }

  /** The positions below n at which a write takes the new bit. */
  function NewMask(pol: seq<BitPolicy>, hwmode: bool, n: bv8): bv32
    requires |pol| == 32 && n <= 32
  {
    if n == 0 then 0 else Or(NewMask(pol, hwmode, n - 1), TakeBit(pol, hwmode, n - 1))
  }

  /** Bit k when the write takes the new bit at k, else 0. */
  function TakeBit(pol: seq<BitPolicy>, hwmode: bool, k: bv8): bv32
    requires |pol| == 32 && k < 32
  {
    Sel(TakesNew(pol[k], hwmode), Mask(k))
  }

  /** The word the setValue loop has built after bits 0 .. n-1. */
  function Merge(pol: seq<BitPolicy>, hwmode: bool, prev: bv32, v: bv32, n: bv8): bv32
    requires |pol| == 32 && n <= 32
  {
    if n == 0 then 0
    else Or(Merge(pol, hwmode, prev, v, n - 1), Pick(TakesNew(pol[n - 1], hwmode), v, prev, Mask(n - 1)))
  }
  /** One more iteration of the two-mode setValue loop: the word built so
      far, ORed with the bit the policy of position n selects. */
  lemma {:induction false} MergeNext(pol: seq<BitPolicy>, hwmode: bool, prev: bv32, v: bv32, n: bv8, acc: bv32, b: bv32)
    requires |pol| == 32 && n < 32
    requires acc == Merge(pol, hwmode, prev, v, n)
    requires TakesNew(pol[n], hwmode) ==> b == v & Mask(n)
    requires !TakesNew(pol[n], hwmode) ==> b == prev & Mask(n)
    ensures acc | b == Merge(pol, hwmode, prev, v, n + 1)
  {
  }


  /** The new value where m is set, the previous one elsewhere. */
  function Blend(m: bv32, prev: bv32, v: bv32): bv32 { (v & m) | (prev & !m) }

  /** What a masked write leaves in a register: the new value at the
      positions the policy lets this kind of write change, the previous
      value everywhere else. */
  function MaskedWrite(pol: seq<BitPolicy>, prev: bv32, v: bv32, hwmode: bool): bv32
    requires |pol| == 32
  {
    Blend(NewMask(pol, hwmode, 32), prev, v)
  }

  /** Merge's closed form: the new value on m, the previous value on the
      positions of `low` outside m, nothing elsewhere. */
  function Closed(v: bv32, prev: bv32, m: bv32, low: bv32): bv32 { (v & m) | (prev & !m & low) }

  lemma {:induction false} NewMaskBelow(pol: seq<BitPolicy>, hwmode: bool, n: bv8)
    requires |pol| == 32 && n <= 32
    ensures NewMask(pol, hwmode, n) & !Low(n) == 0
  {
    if n > 0 {
      NewMaskBelow(pol, hwmode, n - 1);
    }
  }

  lemma {:induction false} StepTake(v: bv32, prev: bv32, m: bv32, low: bv32, b: bv32)
    requires m & !low == 0 && low & b == 0
    ensures ((v & m) | (prev & !m & low)) | (v & b) == (v & (m | b)) | (prev & !(m | b) & (low | b))
  {
  }

  lemma {:induction false} StepKeep(v: bv32, prev: bv32, m: bv32, low: bv32, b: bv32)
    requires m & !low == 0 && low & b == 0
    ensures ((v & m) | (prev & !m & low)) | (prev & b) == (v & m) | (prev & !m & (low | b))
  {
  }

  lemma {:induction false} GlueTake(a: bv32, a1: bv32, m: bv32, m1: bv32, low: bv32, low1: bv32, v: bv32, prev: bv32, b: bv32)
    requires a == Or(a1, Pick(true, v, prev, b)) && a1 == Closed(v, prev, m1, low1)
    requires m == Or(m1, Sel(true, b)) && low == Or(low1, b)
    requires m1 & !low1 == 0 && low1 & b == 0
    ensures a == Closed(v, prev, m, low)
  {
    StepTake(v, prev, m1, low1, b);
  }

  lemma {:induction false} GlueKeep(a: bv32, a1: bv32, m: bv32, m1: bv32, low: bv32, low1: bv32, v: bv32, prev: bv32, b: bv32)
    requires a == Or(a1, Pick(false, v, prev, b)) && a1 == Closed(v, prev, m1, low1)
    requires m == Or(m1, Sel(false, b)) && low == Or(low1, b)
    requires m1 & !low1 == 0 && low1 & b == 0
    ensures a == Closed(v, prev, m, low)
  {
    StepKeep(v, prev, m1, low1, b);
  }

  /** One loop step keeps the closed form, stated over plain words. */
  lemma {:induction false} StepGlue(a: bv32, a1: bv32, m: bv32, m1: bv32, low: bv32, low1: bv32, v: bv32, prev: bv32, t: bool, b: bv32)
    requires a == Or(a1, Pick(t, v, prev, b)) && a1 == Closed(v, prev, m1, low1)
    requires m == Or(m1, Sel(t, b)) && low == Or(low1, b)
    requires m1 & !low1 == 0 && low1 & b == 0
    ensures a == Closed(v, prev, m, low)
  {
    if t {
      GlueTake(a, a1, m, m1, low, low1, v, prev, b);
    } else {
      GlueKeep(a, a1, m, m1, low, low1, v, prev, b);
    }
  }

  lemma {:induction false} MergeClosedStep(pol: seq<BitPolicy>, hwmode: bool, prev: bv32, v: bv32, n: bv8)
    requires |pol| == 32 && 0 < n <= 32
    requires Merge(pol, hwmode, prev, v, n - 1) == Closed(v, prev, NewMask(pol, hwmode, n - 1), Low(n - 1))
    ensures Merge(pol, hwmode, prev, v, n) == Closed(v, prev, NewMask(pol, hwmode, n), Low(n))
  {
    NewMaskBelow(pol, hwmode, n - 1);
    LowDisjoint(n - 1, n - 1);
    StepGlue(Merge(pol, hwmode, prev, v, n), Merge(pol, hwmode, prev, v, n - 1),
             NewMask(pol, hwmode, n), NewMask(pol, hwmode, n - 1), Low(n), Low(n - 1),
             v, prev, TakesNew(pol[n - 1], hwmode), Mask(n - 1));
  }

  /** After n steps the loop holds the new value at the positions below n
      the policy takes and the previous value at the other positions below n. */
  lemma {:induction false} MergeClosed(pol: seq<BitPolicy>, hwmode: bool, prev: bv32, v: bv32, n: bv8)
    requires |pol| == 32 && n <= 32
    ensures Merge(pol, hwmode, prev, v, n) == Closed(v, prev, NewMask(pol, hwmode, n), Low(n))
  {
    if n > 0 {
      MergeClosed(pol, hwmode, prev, v, n - 1);
      MergeClosedStep(pol, hwmode, prev, v, n);
    }
  }

  lemma {:induction false} ClosedAll(v: bv32, prev: bv32, m: bv32)
    ensures Closed(v, prev, m, 0xFFFF_FFFF) == Blend(m, prev, v)
  {
  }

  /** The 32-step loop of setValue(value, hwmode) computes MaskedWrite. */
  lemma {:induction false} MergeIsMaskedWrite(pol: seq<BitPolicy>, hwmode: bool, prev: bv32, v: bv32)
    requires |pol| == 32
    ensures Merge(pol, hwmode, prev, v, 32) == MaskedWrite(pol, prev, v, hwmode)
  {
    MergeClosed(pol, hwmode, prev, v, 32);
    Low32();
    ClosedAll(v, prev, NewMask(pol, hwmode, 32));
  }

  // ---------------------------------------------------------------------
  // What a masked write does, bit by bit

  lemma {:induction false} SelSame(t: bool, b: bv32)
    ensures Sel(t, b) & b == Sel(t, b)
  {
  }

  lemma {:induction false} SelOther(t: bool, m: bv32, b: bv32)
    requires m & b == 0
    ensures Sel(t, m) & b == 0
  {
  }

  lemma {:induction false} OrBitLeft(r: bv32, a: bv32, s: bv32, b: bv32, x: bv32)
    requires r == Or(a, s) && a & b == x && s & b == 0
    ensures r & b == x
  {
  }

  lemma {:induction false} OrBitRight(r: bv32, a: bv32, s: bv32, b: bv32, x: bv32)
    requires r == Or(a, s) && a & b == 0 && s & b == x
    ensures r & b == x
  {
  }

  lemma {:induction false} OutsideBit(a: bv32, low: bv32, b: bv32)
    requires a & !low == 0 && low & b == 0
    ensures a & b == 0
  {
  }

  /** No position at or above n is in NewMask(n). */
  lemma {:induction false} NewMaskAbove(pol: seq<BitPolicy>, hwmode: bool, n: bv8, k: bv8)
    requires |pol| == 32 && n <= k < 32
    ensures NewMask(pol, hwmode, n) & Mask(k) == 0
  {
    NewMaskBelow(pol, hwmode, n);
    LowDisjoint(n, k);
    OutsideBit(NewMask(pol, hwmode, n), Low(n), Mask(k));
  }

  /** Bit k < n of NewMask(n) is set exactly when the write takes the new
      bit at position k. */
  lemma {:induction false} NewMaskBit(pol: seq<BitPolicy>, hwmode: bool, n: bv8, k: bv8)
    requires |pol| == 32 && k < n <= 32
    ensures NewMask(pol, hwmode, n) & Mask(k) == Sel(TakesNew(pol[k], hwmode), Mask(k))
  {
    if k == n - 1 {
      NewMaskBitTop(pol, hwmode, n);
    } else {
      NewMaskBit(pol, hwmode, n - 1, k);
      NewMaskBitLower(pol, hwmode, n, k);
    }
  }

  lemma {:induction false} NewMaskBitTop(pol: seq<BitPolicy>, hwmode: bool, n: bv8)
    requires |pol| == 32 && 0 < n <= 32
    ensures NewMask(pol, hwmode, n) & Mask(n - 1) == Sel(TakesNew(pol[n - 1], hwmode), Mask(n - 1))
  {
    NewMaskAbove(pol, hwmode, n - 1, n - 1);
    SelSame(TakesNew(pol[n - 1], hwmode), Mask(n - 1));
    OrBitRight(NewMask(pol, hwmode, n), NewMask(pol, hwmode, n - 1), Sel(TakesNew(pol[n - 1], hwmode), Mask(n - 1)),
               Mask(n - 1), Sel(TakesNew(pol[n - 1], hwmode), Mask(n - 1)));
  }

  lemma {:induction false} NewMaskBitLower(pol: seq<BitPolicy>, hwmode: bool, n: bv8, k: bv8)
    requires |pol| == 32 && k < n - 1 && 0 < n <= 32
    requires NewMask(pol, hwmode, n - 1) & Mask(k) == Sel(TakesNew(pol[k], hwmode), Mask(k))
    ensures NewMask(pol, hwmode, n) & Mask(k) == Sel(TakesNew(pol[k], hwmode), Mask(k))
  {
    MaskDistinct(n - 1, k);
    SelOther(TakesNew(pol[n - 1], hwmode), Mask(n - 1), Mask(k));
    OrBitLeft(NewMask(pol, hwmode, n), NewMask(pol, hwmode, n - 1), Sel(TakesNew(pol[n - 1], hwmode), Mask(n - 1)),
              Mask(k), Sel(TakesNew(pol[k], hwmode), Mask(k)));
  }

  lemma {:induction false} BlendIn(m: bv32, prev: bv32, v: bv32, b: bv32)
    requires m & b == b
    ensures Blend(m, prev, v) & b == v & b
  {
  }

  lemma {:induction false} BlendOut(m: bv32, prev: bv32, v: bv32, b: bv32)
    requires m & b == 0
    ensures Blend(m, prev, v) & b == prev & b
  {
  }

  /** A write copies the new bit where the policy lets this kind of write
      change it: READWRITE bits always, READ bits in a hardware write. */
  lemma {:induction false} MaskedWriteTakesNew(pol: seq<BitPolicy>, prev: bv32, v: bv32, hwmode: bool, k: bv8)
    requires |pol| == 32 && k < 32
    requires pol[k] == ReadWrite || (hwmode && pol[k] == Read)
    ensures MaskedWrite(pol, prev, v, hwmode) & Mask(k) == v & Mask(k)
  {
    NewMaskBit(pol, hwmode, 32, k);
    BlendIn(NewMask(pol, hwmode, 32), prev, v, Mask(k));
  }

  /** ... and keeps the old bit everywhere else: LOCKED bits always, READ
      bits in a software write. */
  lemma {:induction false} MaskedWriteKeepsOld(pol: seq<BitPolicy>, prev: bv32, v: bv32, hwmode: bool, k: bv8)
    requires |pol| == 32 && k < 32
    requires pol[k] == Locked || (!hwmode && pol[k] == Read)
    ensures MaskedWrite(pol, prev, v, hwmode) & Mask(k) == prev & Mask(k)
  {
    NewMaskBit(pol, hwmode, 32, k);
    BlendOut(NewMask(pol, hwmode, 32), prev, v, Mask(k));
  }

  /** Software and hardware writes of the same value agree at every bit
      that is not READ. */
  lemma {:induction false} ModesDifferOnlyAtRead(pol: seq<BitPolicy>, prev: bv32, v: bv32, k: bv8)
    requires |pol| == 32 && k < 32 && pol[k] != Read
    ensures MaskedWrite(pol, prev, v, false) & Mask(k) == MaskedWrite(pol, prev, v, true) & Mask(k)
  {
    if pol[k] == Locked {
      MaskedWriteKeepsOld(pol, prev, v, false, k);
      MaskedWriteKeepsOld(pol, prev, v, true, k);
    } else {
      MaskedWriteTakesNew(pol, prev, v, false, k);
      MaskedWriteTakesNew(pol, prev, v, true, k);
    }
  }

  /** Without READ bits the two modes write the same word. */
  lemma {:induction false} NoReadSameMask(pol: seq<BitPolicy>, n: bv8)
    requires |pol| == 32 && n <= 32
    requires forall k: bv8 :: k < n ==> pol[k] != Read
    ensures NewMask(pol, false, n) == NewMask(pol, true, n)
  {
    if n > 0 {
      NoReadSameMask(pol, n - 1);
    }
  }

  lemma {:induction false} NoReadModesAgree(pol: seq<BitPolicy>, prev: bv32, v: bv32)
    requires |pol| == 32 && forall k: bv8 :: k < 32 ==> pol[k] != Read
    ensures MaskedWrite(pol, prev, v, false) == MaskedWrite(pol, prev, v, true)
  {
    NoReadSameMask(pol, 32);
  }

  lemma {:induction false} BlendTwice(m: bv32, prev: bv32, v: bv32)
    ensures Blend(m, Blend(m, prev, v), v) == Blend(m, prev, v)
  {
  }

  /** Writing the same value twice in the same mode is writing it once. */
  lemma {:induction false} MaskedWriteIdempotent(pol: seq<BitPolicy>, prev: bv32, v: bv32, hwmode: bool)
    requires |pol| == 32
    ensures MaskedWrite(pol, MaskedWrite(pol, prev, v, hwmode), v, hwmode) == MaskedWrite(pol, prev, v, hwmode)
  {
    BlendTwice(NewMask(pol, hwmode, 32), prev, v);
  }

  lemma {:induction false} AllLockedMask(hwmode: bool, n: bv8)
    requires n <= 32
    ensures NewMask(AllLocked(), hwmode, n) == 0
  {
    if n > 0 {
      AllLockedMask(hwmode, n - 1);
    }
  }

  /** A register whose bits are all LOCKED ignores writes of either mode. */
  lemma {:induction false} AllLockedUnchanged(prev: bv32, v: bv32, hwmode: bool)
    ensures MaskedWrite(AllLocked(), prev, v, hwmode) == prev
  {
    AllLockedMask(hwmode, 32);
  }

  // ---------------------------------------------------------------------
  // The masks a constructed register writes through

  lemma {:induction false} MaskStep(pol: seq<BitPolicy>, hwmode: bool, x: bv32, n: bv8)
    requires |pol| == 32 && 0 < n <= 32
    requires NewMask(pol, hwmode, n - 1) == x & Low(n - 1)
    requires TakeBit(pol, hwmode, n - 1) == x & Mask(n - 1)
    ensures NewMask(pol, hwmode, n) == x & Low(n)
  {
  }

  /** At a classified bit, a software write takes the new bit exactly
      where mask2 is set ... */
  lemma {:induction false} SoftwareSelBit(mask1: bv32, mask2: bv32, k: bv8)
    requires MasksValid(mask1, mask2) && k < 31
    ensures Sel(TakesNew(PolicyOf(mask1, mask2)[k], false), Mask(k)) == mask2 & Mask(k)
  {
    PolicyOfAt(mask1, mask2, k);
    ClassifyTable(mask1, mask2, k);
    OneHot(mask2, k);
  }

  /** ... and a hardware write exactly where mask1 is set. */
  lemma {:induction false} HardwareSelBit(mask1: bv32, mask2: bv32, k: bv8)
    requires MasksValid(mask1, mask2) && k < 31
    ensures Sel(TakesNew(PolicyOf(mask1, mask2)[k], true), Mask(k)) == mask1 & Mask(k)
  {
    PolicyOfAt(mask1, mask2, k);
    ClassifyTable(mask1, mask2, k);
    OneHot(mask1, k);
  }

  lemma {:induction false} SoftwareMaskBelow(mask1: bv32, mask2: bv32, n: bv8)
    requires MasksValid(mask1, mask2) && n <= 31
    ensures NewMask(PolicyOf(mask1, mask2), false, n) == mask2 & Low(n)
  {
    if n > 0 {
      SoftwareMaskBelow(mask1, mask2, n - 1);
      SoftwareMaskStep(mask1, mask2, n);
    }
  }

  lemma {:induction false} SoftwareMaskStep(mask1: bv32, mask2: bv32, n: bv8)
    requires MasksValid(mask1, mask2) && 0 < n <= 31
    requires NewMask(PolicyOf(mask1, mask2), false, n - 1) == mask2 & Low(n - 1)
    ensures NewMask(PolicyOf(mask1, mask2), false, n) == mask2 & Low(n)
  {
    SoftwareSelBit(mask1, mask2, n - 1);
    MaskStep(PolicyOf(mask1, mask2), false, mask2, n);
  }

  lemma {:induction false} HardwareMaskBelow(mask1: bv32, mask2: bv32, n: bv8)
    requires MasksValid(mask1, mask2) && n <= 31
    ensures NewMask(PolicyOf(mask1, mask2), true, n) == mask1 & Low(n)
  {
    if n > 0 {
      HardwareMaskBelow(mask1, mask2, n - 1);
      HardwareMaskStep(mask1, mask2, n);
    }
  }

  lemma {:induction false} HardwareMaskStep(mask1: bv32, mask2: bv32, n: bv8)
    requires MasksValid(mask1, mask2) && 0 < n <= 31
    requires NewMask(PolicyOf(mask1, mask2), true, n - 1) == mask1 & Low(n - 1)
    ensures NewMask(PolicyOf(mask1, mask2), true, n) == mask1 & Low(n)
  {
    HardwareSelBit(mask1, mask2, n - 1);
    MaskStep(PolicyOf(mask1, mask2), true, mask1, n);
  }

  lemma {:induction false} TopUnused(pol: seq<BitPolicy>, hwmode: bool)
    requires |pol| == 32 && pol[31] == Locked
    ensures NewMask(pol, hwmode, 32) == NewMask(pol, hwmode, 31)
  {
  }

  /** A register built from an accepted mask pair: a software write changes
      the bits of mask2 below 31, a hardware write the bits of mask1 below
      31, and bit 31 is never written. */
  lemma {:induction false} WriteMasksOfPolicy(mask1: bv32, mask2: bv32)
    requires MasksValid(mask1, mask2)
    ensures NewMask(PolicyOf(mask1, mask2), false, 32) == mask2 & 0x7FFF_FFFF
    ensures NewMask(PolicyOf(mask1, mask2), true, 32) == mask1 & 0x7FFF_FFFF
  {
    PolicyOfAt(mask1, mask2, 31);
    TopUnused(PolicyOf(mask1, mask2), false);
    TopUnused(PolicyOf(mask1, mask2), true);
    SoftwareMaskBelow(mask1, mask2, 31);
    HardwareMaskBelow(mask1, mask2, 31);
    Low31();
  }

  // ---------------------------------------------------------------------
  // setValue(value) of the one-argument register

  /** 1 when some bit of x is set, else 0. */
  function AnySet(x: bv32): bv32 { if x == 0 then 0 else 1 }

  /** The bit the one-argument loop ORs in at position k: the register's bit
      shifted down to bit 0 at LOCKED and READ positions, the new value's at
      READWRITE ones, masked with 1. */
  function LegacyBit(p: BitPolicy, prev: bv32, v: bv32, k: bv8): bv32
    requires k < 32
  {
    match p
    case Locked => Bit(prev, Mask(k)) & 1
    case Read => Bit(prev, Mask(k)) & 1
    case ReadWrite => Bit(v, Mask(k)) & 1
  }

  /** The word the one-argument loop has built after bits 0 .. n-1. */
  function Collapse(pol: seq<BitPolicy>, prev: bv32, v: bv32, n: bv8): bv32
    requires |pol| == 32 && n <= 32
  {
    if n == 0 then 0 else Or(Collapse(pol, prev, v, n - 1), LegacyBit(pol[n - 1], prev, v, n - 1))
  }
  /** One more iteration of the one-argument setValue loop. */
  lemma {:induction false} CollapseNext(pol: seq<BitPolicy>, prev: bv32, v: bv32, n: bv8, acc: bv32, b: bv32)
    requires |pol| == 32 && n < 32
    requires acc == Collapse(pol, prev, v, n)
    requires b == LegacyBit(pol[n], prev, v, n)
    ensures acc | b == Collapse(pol, prev, v, n + 1)
  {
  }


  /** What the one-argument setValue leaves in the register: 1 when the
      software-masked write has a set bit below bit 31, else 0. */
  function LegacyWrite(pol: seq<BitPolicy>, prev: bv32, v: bv32): bv32
    requires |pol| == 32
  {
    AnySet(Below31(MaskedWrite(pol, prev, v, false)))
  }

  /** Bits 0 .. 30 of w: the bits the one-argument loop visits. */
  function Below31(w: bv32): bv32 { w & 0x7FFF_FFFF }

  lemma {:induction false} AnySetOr(a: bv32, s: bv32)
    ensures AnySet(Or(a, s)) == Or(AnySet(a), AnySet(s))
  {
  }

  lemma {:induction false} BitIsAnySet(x: bv32, b: bv32)
    ensures Bit(x, b) & 1 == AnySet(x & b)
  {
  }

  lemma {:induction false} LegacyBitIsPick(pol: seq<BitPolicy>, prev: bv32, v: bv32, k: bv8)
    requires |pol| == 32 && k < 32
    ensures LegacyBit(pol[k], prev, v, k) == AnySet(Pick(TakesNew(pol[k], false), v, prev, Mask(k)))
  {
    BitIsAnySet(prev, Mask(k));
    BitIsAnySet(v, Mask(k));
  }

  lemma {:induction false} CollapseStep(c: bv32, c1: bv32, a: bv32, a1: bv32, lb: bv32, p: bv32)
    requires c == Or(c1, lb) && c1 == AnySet(a1) && a == Or(a1, p) && lb == AnySet(p)
    ensures c == AnySet(a)
  {
    AnySetOr(a1, p);
  }

  /** The one-argument loop records whether the two-mode software loop would
      have set any bit so far. */
  lemma {:induction false} CollapseIsAnySet(pol: seq<BitPolicy>, prev: bv32, v: bv32, n: bv8)
    requires |pol| == 32 && n <= 32
    ensures Collapse(pol, prev, v, n) == AnySet(Merge(pol, false, prev, v, n))
  {
    if n > 0 {
      CollapseIsAnySet(pol, prev, v, n - 1);
      LegacyBitIsPick(pol, prev, v, n - 1);
      CollapseStep(Collapse(pol, prev, v, n), Collapse(pol, prev, v, n - 1),
                   Merge(pol, false, prev, v, n), Merge(pol, false, prev, v, n - 1),
                   LegacyBit(pol[n - 1], prev, v, n - 1), Pick(TakesNew(pol[n - 1], false), v, prev, Mask(n - 1)));
    }
  }

  lemma {:induction false} BlendBelowTop(m: bv32, m1: bv32, s: bv32, prev: bv32, v: bv32, low: bv32)
    requires m == Or(m1, s) && s & low == 0 && m1 & !low == 0
    ensures Blend(m, prev, v) & low == Closed(v, prev, m1, low)
  {
  }

  /** The 31-step loop of setValue(value) computes LegacyWrite. */
  lemma {:induction false} CollapseIsLegacyWrite(pol: seq<BitPolicy>, prev: bv32, v: bv32)
    requires |pol| == 32
    ensures Collapse(pol, prev, v, 31) == LegacyWrite(pol, prev, v)
  {
    CollapseIsAnySet(pol, prev, v, 31);
    MergeClosed(pol, false, prev, v, 31);
    NewMaskBelow(pol, false, 31);
    LowDisjoint(31, 31);
    Low31();
    BlendBelowTop(NewMask(pol, false, 32), NewMask(pol, false, 31), Sel(TakesNew(pol[31], false), Mask(31)), prev, v, Low(31));
  }

  /** Bit 31 of the old or the new value never reaches the result. */
  lemma {:induction false} LegacyIgnoresBit31(pol: seq<BitPolicy>, prev: bv32, v: bv32)
    requires |pol| == 32
    ensures LegacyWrite(pol, prev & 0x7FFF_FFFF, v & 0x7FFF_FFFF) == LegacyWrite(pol, prev, v)
  {
  }

  lemma {:induction false} ReadAsLockedMask(pol: seq<BitPolicy>, k: bv8, n: bv8)
    requires |pol| == 32 && k < 32 && n <= 32 && pol[k] == Read
    ensures NewMask(pol[k := Locked], false, n) == NewMask(pol, false, n)
  {
    if n > 0 {
      ReadAsLockedMask(pol, k, n - 1);
    }
  }

  /** READ bits are treated exactly like LOCKED bits: turning one into the
      other changes no result. */
  lemma {:induction false} LegacyReadIsLocked(pol: seq<BitPolicy>, prev: bv32, v: bv32, k: bv8)
    requires |pol| == 32 && k < 32 && pol[k] == Read
    ensures LegacyWrite(pol[k := Locked], prev, v) == LegacyWrite(pol, prev, v)
  {
    ReadAsLockedMask(pol, k, 32);
  }

  /** A default-constructed register (value 0, all LOCKED) stays 0. */
  lemma {:induction false} LegacyAllLockedStaysZero(v: bv32)
    ensures LegacyWrite(AllLocked(), 0, v) == 0
  {
    AllLockedUnchanged(0, v, false);
  }

  /** For a register built from an accepted mask pair: 1 exactly when the
      new value has a set bit of mask2 below 31 or the old value has a set
      bit outside mask2 below 31. */
  lemma {:induction false} LegacyOfMasks(mask1: bv32, mask2: bv32, prev: bv32, v: bv32)
    requires MasksValid(mask1, mask2)
    ensures LegacyWrite(PolicyOf(mask1, mask2), prev, v) == AnySet((v & mask2 & 0x7FFF_FFFF) | (prev & !mask2 & 0x7FFF_FFFF))
  {
    WriteMasksOfPolicy(mask1, mask2);
  }
}
