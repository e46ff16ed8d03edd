/**
 * The coprocessor-0 bank `MIPS_CPC0`: a 32 x 32 array of CP0 registers
 * indexed by (register number, select field).  The constructor populates
 * 46 cells with fixed reset values and masks; the other cells stay null, so
 * that reading or writing them fails in the host.
 */
module Cp0Bank {
  import opened Words
  import opened Cp0Masking
  import opened Registers

  /** What the constructor puts at a cell: nothing, a default-constructed
      register, or a register built from a (mask1, mask2) pair.  Every
      reset value is 0. */
  datatype CellReset = Absent | DefaultCell | MaskedCell(mask1: bv32, mask2: bv32)

  /** The reset table of the `MIPS_CPC0` constructor. */
  function ResetCell(reg: int, sel: int): CellReset
  {
    if reg == 0 && sel == 0 then MaskedCell(0x8000_003F, 0x3F)              // Index
    else if reg == 1 && sel == 0 then MaskedCell(0x8000_003F, 0x0)          // Random
    else if reg == 2 && sel == 0 then MaskedCell(0xFFFF_FFFF, 0x7FFF_FFFF)  // EntryLo0
    else if reg == 3 && sel == 0 then MaskedCell(0xFFFF_FFFF, 0x7FFF_FFFF)  // EntryLo1
    else if reg == 4 && sel == 0 then MaskedCell(0xFFFF_FFF0, 0x0FF8_0000)  // Context
    else if reg == 5 && sel == 0 then MaskedCell(0x1FFF_F000, 0x1FFF_F000)  // PageMask
    else if reg == 6 && sel == 0 then MaskedCell(0x3F, 0x3F)                // Wired
    else if reg == 7 && sel == 0 then MaskedCell(0x0, 0x0)                  // reserved
    else if reg == 8 && sel == 0 then MaskedCell(0xFFFF_FFFF, 0x0)          // BadVAddr
    else if reg == 9 && sel == 0 then MaskedCell(0xFFFF_FFFF, 0xFFFF_FFFF)  // Count
    else if reg == 9 && (sel == 6 || sel == 7) then MaskedCell(0x0, 0x0)    // reserved
    else if reg == 10 && sel == 0 then MaskedCell(0xFFFF_E0FF, 0xFFFF_E0FF) // EntryHi
    else if reg == 11 && sel == 0 then MaskedCell(0xFFFF_FFFF, 0xFFFF_FFFF) // Compare
    else if reg == 11 && (sel == 6 || sel == 7) then MaskedCell(0x0, 0x0)   // reserved
    else if 12 <= reg <= 31 && sel == 0 then DefaultCell                    // Status .. DESAVE
    else if reg == 16 && (1 <= sel <= 3 || sel == 6 || sel == 7) then DefaultCell
    else if reg == 27 && 1 <= sel <= 3 then DefaultCell
    else if (reg == 28 || reg == 29) && sel == 1 then DefaultCell
    else Absent
  }

  /** No mask pair of the table has a (0, 1) bit, so no constructor throws. */
  lemma {:induction false} ResetMasksValid(reg: int, sel: int)
    requires ResetCell(reg, sel).MaskedCell?
    ensures MasksValid(ResetCell(reg, sel).mask1, ResetCell(reg, sel).mask2)
  {
    if sel == 0 {
      assert 0 <= reg <= 11;
    } else {
      assert sel == 6 || sel == 7;
    }
  }

  /** Status (12, 0), Cause (13, 0) and (30, 0) are default cells. */
  lemma {:induction false} StatusCauseCells()
    ensures ResetCell(12, 0) == ResetCell(13, 0) == ResetCell(30, 0) == DefaultCell
  {
  }

  /** Only registers 0..31 with selects 0..31 are in the table. */
  lemma {:induction false} ResetCellBounds()
    ensures forall r, s :: ResetCell(r, s) != Absent ==> 0 <= r < 32 && 0 <= s < 32
  {
  }

  /** The policy array of the register a table entry builds (for a masked
      entry, `PolicyOf` of its masks, which are all valid). */
  function CellPolicy(c: CellReset): (p: seq<BitPolicy>)
    ensures |p| == 32
  {
    match c
    case MaskedCell(mask1, mask2) => Classified(mask1, mask2, AllLocked(), 31)
    case _ => AllLocked()
  }

  /** Cells whose software write can never set a bit: the default ones and
      those whose mask2 is 0. */
  predicate StaysZero(c: CellReset)
  {
    c == DefaultCell || (c.MaskedCell? && c.mask2 == 0)
  }

  /** A zero cell of that kind is still zero after any software write. */
  lemma {:induction false} ZeroCellWrite(c: CellReset, v: bv32)
    requires StaysZero(c) && (c.MaskedCell? ==> MasksValid(c.mask1, c.mask2))
    ensures LegacyWrite(CellPolicy(c), 0, v) == 0
  {
    if c == DefaultCell {
      LegacyAllLockedStaysZero(v);
    } else {
      LegacyOfMasks(c.mask1, c.mask2, 0, v);
    }
  }

  /** Index (0,0) is READWRITE at bits 0-5 only: from a collapsed value (0 or
      1) a software write leaves 1 exactly when v has one of those bits. */
  lemma {:induction false} IndexWrite(prev: bv32, v: bv32)
    requires prev <= 1
    ensures ResetCell(0, 0) == MaskedCell(0x8000_003F, 0x3F)
    ensures LegacyWrite(CellPolicy(ResetCell(0, 0)), prev, v) == if v & 0x3F == 0 then 0 else 1
  {
    LegacyOfMasks(0x8000_003F, 0x3F, prev, v);
  }

  /** A default cell ignores hardware writes as well. */
  lemma {:induction false} DefaultCellHardwareWrite(prev: bv32, v: bv32)
    ensures MaskedWrite(CellPolicy(DefaultCell), prev, v, true) == prev
  {
    AllLockedUnchanged(prev, v, true);
  }

  /** The constructor has built cell (i, j) once it has reached cell (r, s)
      of its row-major walk. */
  predicate Done(i: int, j: int, r: int, s: int)
  {
    i < r || (i == r && j < s)
  }

  lemma {:induction false} DoneNext(r: int, s: int)
    ensures forall i, j :: Done(i, j, r, s + 1) <==> Done(i, j, r, s) || (i == r && j == s)
  {
  }

  lemma {:induction false} DoneRow(r: int)
    ensures forall i, j :: 0 <= j < 32 ==> (Done(i, j, r, 32) <==> Done(i, j, r + 1, 0))
  {
  }

  class Cpc0 {
    var registerFile: array2<LegacyCp0Register?>
    /** The populated cells. */
    ghost var Cells: set<LegacyCp0Register>
    /** Their policy arrays. */
    ghost var Policy: set<array<BitPolicy>>
    /** The position of each cell, which makes the cells pairwise distinct. */
    ghost var Pos: map<LegacyCp0Register, (int, int)>
    /** The reset table, held as a value so that the invariants below do not
        unfold it at every cell. */
    ghost const Table: (int, int) -> CellReset

    /** The footprint: every cell is in `Cells`, its policy array in
        `Policy`, it sits at its own position and has 32 policy entries. */
    ghost predicate Valid()
      reads this, registerFile
    {
      && registerFile.Length0 == 32 && registerFile.Length1 == 32
      && (forall r, s :: 0 <= r < 32 && 0 <= s < 32 && registerFile[r, s] != null ==>
            CellOk(registerFile[r, s], r, s))
    }

    ghost predicate CellOk(c: LegacyCp0Register, r: int, s: int)
      reads this
    {
      c in Cells && c in Pos && Pos[c] == (r, s) && c.bitfields in Policy && c.Valid()
    }

    /** Exactly the cells of the reset table are populated. */
    ghost predicate Shape()
      reads this, registerFile
    {
      && registerFile.Length0 == 32 && registerFile.Length1 == 32
      && (forall r, s :: Table(r, s) != Absent ==> 0 <= r < 32 && 0 <= s < 32)
      && (forall r, s :: 0 <= r < 32 && 0 <= s < 32 ==>
            (registerFile[r, s] == null <==> Table(r, s) == Absent))
    }

    /** Every cell carries the policy of its table entry. */
    ghost predicate Policies()
      requires Valid()
      reads this, registerFile, Policy
    {
      forall r, s :: 0 <= r < 32 && 0 <= s < 32 && registerFile[r, s] != null ==>
        registerFile[r, s].bitfields[..] == CellPolicy(Table(r, s))
    }

    /** A cell of the reset table (`Table` is `ResetCell`). */
    ghost predicate Populated(reg: int, sel: int)
    {
      Table(reg, sel) != Absent
    }

    /** `getRegister`: `None` is the host fault of an unpopulated cell or an
        index outside the array. */
    function GetRegister(reg: nat, sel: nat): (r: Option<bv32>)
      requires Valid() && Shape()
      reads this, registerFile, Cells
      ensures r.Some? <==> Populated(reg, sel)
    {
      if reg < 32 && sel < 32 && registerFile[reg, sel] != null then
        Some(registerFile[reg, sel].register)
      else
        None
    }

    /** The constructor: the 46 table entries, each reading 0. */
    constructor ()
      ensures Table == ResetCell
      ensures Valid() && Shape() && Policies() && fresh(Cells) && fresh(Policy)
      ensures forall reg: nat, sel: nat :: Populated(reg, sel) ==> GetRegister(reg, sel) == Some(0)
    {
      registerFile := new LegacyCp0Register?[32, 32]((_, _) => null);
      Cells := {};
      Policy := {};
      Pos := map[];
      Table := ResetCell;
      new;
      ResetCellBounds();
      var r := 0;
      while r < 32
        invariant 0 <= r <= 32 && fresh(Cells) && fresh(Policy) && fresh(registerFile)
        invariant Valid() && Policies() && BuiltUpTo(r, 0)
      {
        InstallRow(r);
        r := r + 1;
      }
    }

    /** The constructor has built every table entry before (r, s), each
        reading 0, and nothing from (r, s) on. */
    ghost predicate BuiltUpTo(r: int, s: int)
      reads this, registerFile, Cells
    {
      && registerFile.Length0 == 32 && registerFile.Length1 == 32
      && forall i, j :: 0 <= i < 32 && 0 <= j < 32 ==>
           && (registerFile[i, j] == null <==> (!Done(i, j, r, s) || Table(i, j) == Absent))
           && (registerFile[i, j] != null ==> registerFile[i, j] in Cells && registerFile[i, j].register == 0)
    }

    /** One row of the constructor's table. */
    method InstallRow(r: int)
      requires 0 <= r < 32 && Table == ResetCell
      requires Valid() && Policies() && BuiltUpTo(r, 0)
      modifies this, registerFile
      ensures Valid() && Policies() && BuiltUpTo(r + 1, 0) && registerFile == old(registerFile)
      ensures fresh(Cells - old(Cells)) && fresh(Policy - old(Policy))
    {
      var s := 0;
      while s < 32
        invariant 0 <= s <= 32 && fresh(Cells - old(Cells)) && fresh(Policy - old(Policy))
        invariant Valid() && Policies() && BuiltUpTo(r, s) && registerFile == old(registerFile)
      {
        Install(r, s, ResetCell(r, s));
        DoneNext(r, s);
        s := s + 1;
      }
      DoneRow(r);
    }

    /** One statement of the constructor: builds the table entry (r, s). */
    method Install(r: int, s: int, entry: CellReset)
      requires 0 <= r < 32 && 0 <= s < 32 && Table == ResetCell && entry == Table(r, s)
      requires Valid() && Policies() && registerFile[r, s] == null
      requires forall i, j :: 0 <= i < 32 && 0 <= j < 32 && registerFile[i, j] != null ==>
                 registerFile[i, j].register == 0
      modifies this, registerFile
      ensures Valid() && Policies() && registerFile == old(registerFile)
      ensures fresh(Cells - old(Cells)) && fresh(Policy - old(Policy))
      ensures forall i, j :: 0 <= i < 32 && 0 <= j < 32 && (i, j) != (r, s) ==>
                registerFile[i, j] == old(registerFile[i, j])
      ensures registerFile[r, s] == null <==> Table(r, s) == Absent
      ensures forall i, j :: 0 <= i < 32 && 0 <= j < 32 && registerFile[i, j] != null ==>
                registerFile[i, j].register == 0
    {
      match entry {
        case Absent =>
        case DefaultCell =>
          var c := new LegacyCp0Register();
          Place(r, s, c);
        case MaskedCell(mask1, mask2) =>
          ResetMasksValid(r, s);
          var made := LegacyCp0Register.Create(0, mask1, mask2);
          if made.Some? {
            Place(r, s, made.value);
          }
      }
    }

    /** Stores a new cell at (r, s) and adds it to the footprint. */
    method Place(r: int, s: int, c: LegacyCp0Register)
      requires 0 <= r < 32 && 0 <= s < 32
      requires Valid() && Policies() && registerFile[r, s] == null
      requires c.Valid() && c !in Cells && c.bitfields !in Policy
      requires c.bitfields[..] == CellPolicy(Table(r, s))
      modifies this, registerFile
      ensures Valid() && Policies() && registerFile == old(registerFile)
      ensures Cells == old(Cells) + {c} && Policy == old(Policy) + {c.bitfields}
      ensures registerFile[r, s] == c
      ensures forall i, j :: 0 <= i < 32 && 0 <= j < 32 && (i, j) != (r, s) ==>
                registerFile[i, j] == old(registerFile[i, j])
    {
      registerFile[r, s] := c;
      Cells := Cells + {c};
      Policy := Policy + {c.bitfields};
      Pos := Pos[c := (r, s)];
    }

    /** `setRegister`: the one-argument write of that cell, and nothing
        else changes; `true` is the host fault of an unpopulated cell. */
    method SetRegister(reg: nat, sel: nat, value: bv32) returns (fault: bool)
      requires Valid() && Shape() && Policies()
      modifies Cells
      ensures Valid() && Shape() && Policies()
      ensures fault <==> !Populated(reg, sel)
      ensures !fault ==> GetRegister(reg, sel) == Some(LegacyWrite(CellPolicy(Table(reg, sel)),
                                                                   old(GetRegister(reg, sel)).value, value))
      ensures forall r: nat, s: nat :: (r, s) != (reg, sel) ==> GetRegister(r, s) == old(GetRegister(r, s))
    {
      if reg < 32 && sel < 32 && registerFile[reg, sel] != null {
        var cell := registerFile[reg, sel];
        cell.SetValue(value);
        fault := false;
      } else {
        fault := true;
      }
    }

    /** Stand-in for the bank's hardware write `setRegisterHW`, which the
        exception entry uses: the cell's policy applied in the hardware mode
        of `Cp0Register.SetValue` (READ bits are written too). */
    method SetRegisterHW(reg: nat, sel: nat, value: bv32) returns (fault: bool)
      requires Valid() && Shape() && Policies()
      modifies Cells
      ensures Valid() && Shape() && Policies()
      ensures fault <==> !Populated(reg, sel)
      ensures !fault ==> GetRegister(reg, sel) == Some(MaskedWrite(CellPolicy(Table(reg, sel)),
                                                                   old(GetRegister(reg, sel)).value, value, true))
      ensures forall r: nat, s: nat :: (r, s) != (reg, sel) ==> GetRegister(r, s) == old(GetRegister(r, s))
    {
      if reg < 32 && sel < 32 && registerFile[reg, sel] != null {
        var cell := registerFile[reg, sel];
        cell.register := MaskedWrite(cell.bitfields[..], cell.register, value, true);
        fault := false;
      } else {
        fault := true;
      }
    }
  }
}
