/**
 * The register cells of the emulator.
 *
 *  - `Register` is the general-purpose cell `MIPS_Register`: a 32-bit word
 *    with a "muted" flag that makes every write a no-op (how GPR 0 stays 0).
 *  - `Cp0Register` is the coprocessor-0 register of MIPS_CPC0Register.cs with
 *    the two-mode write `setValue(value, hwmode)`.
 *  - `LegacyCp0Register` is the older coprocessor-0 register with the
 *    one-argument write, the class the CP0 bank actually instantiates.
 *
 * The loops of the C# methods are kept; each is proved against the
 * functions of `Cp0Masking`, where their properties are stated.
 */
module Registers {
  import opened Words
  import opened Cp0Masking

  /** One iteration of `setRWMask`: the bits of both masks at position i,
      shifted down, select LOCKED, READ or READWRITE; `None` is the throw. */
  method ClassifyBit(mask1: bv32, mask2: bv32, i: bv8) returns (p: Option<BitPolicy>)
    requires i < 31
    ensures p == ClassifyAt(mask1, mask2, Mask(i))
  {
    var value1 := (mask1 & Mask(i)) >> i;
    var value2 := (mask2 & Mask(i)) >> i;
    BitIsShiftedBit(mask1, i);
    BitIsShiftedBit(mask2, i);
    if value1 == 0 && value2 == 0 {
      p := Some(Locked);
    } else if value1 == 1 && value2 == 0 {
      p := Some(Read);
    } else if value1 == 1 && value2 == 1 {
      p := Some(ReadWrite);
    } else {
      p := None;
    }
  }

  /** One iteration of the two-mode `setValue`: the register's bit i where
      the policy keeps the old bit, the argument's bit i where it takes it. */
  method SelectBit(policy: BitPolicy, hwmode: bool, current: bv32, value: bv32, i: bv8) returns (b: bv32)
    requires i < 32
    ensures TakesNew(policy, hwmode) ==> b == value & Mask(i)
    ensures !TakesNew(policy, hwmode) ==> b == current & Mask(i)
  {
    var bit1 := current & Mask(i);
    var bit2 := value & Mask(i);
    match policy {
      case Locked =>
        b := bit1;
      case Read =>
        if hwmode {
          b := bit2;
        } else {
          b := bit1;
        }
      case ReadWrite =>
        b := bit2;
    }
  }

  /** One iteration of the one-argument `setValue`: bit i of the register
      (LOCKED, READ) or of the argument (READWRITE), shifted down to bit 0. */
  method SelectLegacyBit(policy: BitPolicy, current: bv32, value: bv32, i: bv8) returns (b: bv32)
    requires i < 32
    ensures b == LegacyBit(policy, current, value, i)
  {
    var bit1 := (current & Mask(i)) >> i;
    var bit2 := (value & Mask(i)) >> i;
    BitIsShiftedBit(current, i);
    BitIsShiftedBit(value, i);
    match policy {
      case Locked =>
        b := bit1 & 1;
      case Read =>
        b := bit1 & 1;
      case ReadWrite =>
        b := bit2 & 1;
    }
  }

  /** A general-purpose register cell. */
  class Register {
    var register: bv32
    const muted: bool

    /** `MIPS_Register()`: value 0, writable. */
    constructor ()
      ensures register == 0 && !muted
    {
      register := 0;
      muted := false;
    }

    /** `MIPS_Register(value)`: the flag keeps its default, false. */
    constructor Init(value: bv32)
      ensures register == value && !muted
    {
      register := value;
      muted := false;
    }

    /** `MIPS_Register(value, mute)`. */
    constructor Muted(value: bv32, mute: bool)
      ensures register == value && muted == mute
    {
      register := value;
      muted := mute;
    }

    /** A muted cell ignores the write; otherwise the cell now holds `value`. */
    method SetValue(value: bv32)
      modifies this
      ensures muted ==> register == old(register)
      ensures !muted ==> register == value
    {
      if muted {
        return;
      } else {
        register := value;
      }
    }

    function GetValue(): bv32
      reads this
    {
      register
    }
  }

  /** The coprocessor-0 register with hardware and software write modes. */
  class Cp0Register {
    const bitfields: array<BitPolicy>
    var register: bv32

    ghost predicate Valid()
    {
      bitfields.Length == 32
    }

    /** The default constructor: value 0, every bit LOCKED (the enum's 0). */
    constructor ()
      ensures Valid() && fresh(bitfields)
      ensures bitfields[..] == AllLocked() && register == 0
    {
      register := 0;
      bitfields := new BitPolicy[32](_ => Locked);
    }

    /** The first two statements of the parameterised constructor: the reset
        value is stored unmasked and a LOCKED policy array is allocated. */
    constructor Blank(value: bv32)
      ensures Valid() && fresh(bitfields)
      ensures bitfields[..] == AllLocked() && register == value
    {
      register := value;
      bitfields := new BitPolicy[32](_ => Locked);
    }

    /** The parameterised constructor.  `None` is the ApplicationException
        that `setRWMask` throws out of it on an invalid mask pair. */
    static method Create(value: bv32, mask1: bv32, mask2: bv32) returns (r: Option<Cp0Register>)
      ensures r.Some? <==> MasksValid(mask1, mask2)
      ensures r.Some? ==> fresh(r.value) && fresh(r.value.bitfields) && r.value.Valid()
      ensures r.Some? ==> r.value.GetValue() == value && r.value.bitfields[..] == PolicyOf(mask1, mask2)
    {
      var c := new Cp0Register.Blank(value);
      var ok := c.SetRWMask(mask1, mask2);
      if ok {
        r := Some(c);
      } else {
        r := None;
      }
    }

    /** Classifies bits 0..30 from the mask pair.  `ok` is false when the
        loop throws at the first (0, 1) pair; the bits before it have been
        classified by then, the rest are untouched. */
    method SetRWMask(mask1: bv32, mask2: bv32) returns (ok: bool)
      requires Valid()
      modifies bitfields
      ensures ok <==> MasksValid(mask1, mask2)
      ensures bitfields[..] == Classified(mask1, mask2, old(bitfields[..]), Reach(mask1, mask2, 0))
    {
      var i: bv8 := 0;
      while i < 31
        invariant i <= Reach(mask1, mask2, 0)
        invariant bitfields[..] == Classified(mask1, mask2, old(bitfields[..]), i)
        decreases 31 - i
      {
        var policy := ClassifyBit(mask1, mask2, i);
        match policy {
          case None =>
            ReachStops(mask1, mask2, i);
            ReachIsValidity(mask1, mask2);
            return false;
          case Some(p) =>
            ReachContinues(mask1, mask2, i);
            ClassifiedNext(mask1, mask2, old(bitfields[..]), i);
            bitfields[i] := p;
        }
        i := i + 1;
      }
      ReachIsValidity(mask1, mask2);
      return true;
    }

    function GetValue(): bv32
      reads this
    {
      register
    }

    /** Rebuilds the word bit by bit: the old bit where the policy refuses
        the write, the new bit where it accepts it. */
    method SetValue(value: bv32, hwmode: bool)
      requires Valid()
      modifies this
      ensures Valid()
      ensures register == MaskedWrite(bitfields[..], old(register), value, hwmode)
    {
      var newvalue: bv32 := 0;
      var i: bv8 := 0;
      while i < 32
        invariant i <= 32 && register == old(register)
        invariant newvalue == Merge(bitfields[..], hwmode, register, value, i)
        decreases 32 - i
      {
        var bit := SelectBit(bitfields[i], hwmode, register, value, i);
        MergeNext(bitfields[..], hwmode, register, value, i, newvalue, bit);
        newvalue := newvalue | bit;
        i := i + 1;
      }
      MergeIsMaskedWrite(bitfields[..], hwmode, register, value);
      register := newvalue;
    }
  }

  /** The older coprocessor-0 register, whose only write collapses the
      accepted bits into bit 0. */
  class LegacyCp0Register {
    const bitfields: array<BitPolicy>
    var register: bv32

    ghost predicate Valid()
    {
      bitfields.Length == 32
    }

    /** The default constructor: value 0, every bit LOCKED. */
    constructor ()
      ensures Valid() && fresh(bitfields)
      ensures bitfields[..] == AllLocked() && register == 0
    {
      register := 0;
      bitfields := new BitPolicy[32](_ => Locked);
    }

    constructor Blank(value: bv32)
      ensures Valid() && fresh(bitfields)
      ensures bitfields[..] == AllLocked() && register == value
    {
      register := value;
      bitfields := new BitPolicy[32](_ => Locked);
    }

    /** The parameterised constructor; `None` is the exception `setRWMask`
        throws on an invalid mask pair. */
    static method Create(value: bv32, mask1: bv32, mask2: bv32) returns (r: Option<LegacyCp0Register>)
      ensures r.Some? <==> MasksValid(mask1, mask2)
      ensures r.Some? ==> fresh(r.value) && fresh(r.value.bitfields) && r.value.Valid()
      ensures r.Some? ==> r.value.GetValue() == value && r.value.bitfields[..] == PolicyOf(mask1, mask2)
    {
      var c := new LegacyCp0Register.Blank(value);
      var ok := c.SetRWMask(mask1, mask2);
      if ok {
        r := Some(c);
      } else {
        r := None;
      }
    }

    /** The same classification loop as `Cp0Register.SetRWMask`. */
    method SetRWMask(mask1: bv32, mask2: bv32) returns (ok: bool)
      requires Valid()
      modifies bitfields
      ensures ok <==> MasksValid(mask1, mask2)
      ensures bitfields[..] == Classified(mask1, mask2, old(bitfields[..]), Reach(mask1, mask2, 0))
    {
      var i: bv8 := 0;
      while i < 31
        invariant i <= Reach(mask1, mask2, 0)
        invariant bitfields[..] == Classified(mask1, mask2, old(bitfields[..]), i)
        decreases 31 - i
      {
        var policy := ClassifyBit(mask1, mask2, i);
        match policy {
          case None =>
            ReachStops(mask1, mask2, i);
            ReachIsValidity(mask1, mask2);
            return false;
          case Some(p) =>
            ReachContinues(mask1, mask2, i);
            ClassifiedNext(mask1, mask2, old(bitfields[..]), i);
            bitfields[i] := p;
        }
        i := i + 1;
      }
      ReachIsValidity(mask1, mask2);
      return true;
    }

    function GetValue(): bv32
      reads this
    {
      register
    }

    /** Ors the selected bit of each position 0..30, shifted down to bit 0,
        into the new value: the register ends up 0 or 1. */
    method SetValue(value: bv32)
      requires Valid()
      modifies this
      ensures Valid()
      ensures register == LegacyWrite(bitfields[..], old(register), value)
    {
      var newvalue: bv32 := 0;
      var i: bv8 := 0;
      while i < 31
        invariant i <= 31 && register == old(register)
        invariant newvalue == Collapse(bitfields[..], register, value, i)
        decreases 31 - i
      {
        var bit := SelectLegacyBit(bitfields[i], register, value, i);
        CollapseNext(bitfields[..], register, value, i, newvalue, bit);
        newvalue := newvalue | bit;
        i := i + 1;
      }
      CollapseIsLegacyWrite(bitfields[..], register, value);
      register := newvalue;
    }
  }
}
