# A verified model of the Standalone MIPS Emulator core

Standalone_MIPS_Emulator is a C# emulator for the MIPS32 integer instruction
set.  This project models its core in Dafny:

- the register cells;
- the coprocessor-0 (CP0) register bank;
- the paged memory with its memory-mapped device table;
- the instruction decoder and its four dispatch tables;
- the `execute` bodies of the instruction classes;
- the fetch and branch-delay state machine;
- the exception entry;
- one iteration of the fetch-decode-execute loop.

The model follows the C# code as written, not the MIPS32 architecture.
Where the two part, a lemma states the difference.  Examples:

- the unsigned BLEZ and BGTZ tests;
- the zero-extending ADDI, LB and LH;
- JALR linking GPR[rd];
- SUB raising INT;
- the EXL and ERL tests that can never read 1.

Modules, one per source file or group of source files:

| module | file | what it holds |
|---|---|---|
| `Words` | `base.dfy` | an `Option` type, the 32-bit masks `1 << i` and the bit extraction of the C# loops. |
| `Registers` | `registers.dfy` | `MIPS_Register` (the general-purpose cell with the muted flag); the two versions of `MIPS_CPC0Register` as two classes: `Cp0Register` is the two-mode write of `MIPS_CPC0Register.cs`, `LegacyCp0Register` is the one-argument write of the nested `Standalone_MIPS_Emulator/MIPS_CPC0Register.cs`, the one the bank instantiates. Their loops are kept, with invariants. |
| `Cp0Masking` | `cp0_masking.dfy` | the functions those loops are proved against (`Classified`, `Merge`, `Collapse`), their closed forms (`MaskedWrite`, `LegacyWrite`) and the per-bit properties of both writes. |
| `Cp0Bank` | `cp0_bank.dfy` | `MIPS_CPC0`: the 32 x 32 bank, its reset table, `getRegister`, `setRegister`, and a stand-in for the hardware write `setRegisterHW`. |
| `Paging` | `memory.dfy` | `MIPS_MemoryPage` as a class, and `MIPS_Memory` as a class that holds its frames as byte sequences rather than page objects, whose methods are proved against functions on a value `MemState`: byte, half-word and word reads and stores, and `attachDevice`. |
| `Exceptions` | `exceptions.dfy` | `MIPS_Exception` and its code enumeration. |
| `Context` | `context.dfy` | `MIPS_InstructionContext`: the decoded fields and the handles on the CPU's own register cells, memory and CP0 bank. It also holds the value `Arch` that those handles reach. |
| `Semantics` | `semantics.dfy` | the value computations of the instruction bodies: extensions, branch and jump targets, checked and unchecked arithmetic, shifts, products and truncated division. |
| `Isa` | `isa.dfy` | every `execute` body as a function on `Arch`, and lemmas on what the bodies mean. |
| `Instructions` | `instructions.dfy` | every `execute` body as a method on the context, proved to compute the `Isa` function of the same name; the call `execute(ref context)` on a table entry. |
| `Cpu` | `cpu.dfy` | `MIPS_CPU`: decode, the dispatch tables, `fetch`, `serviceints`, the constructor, and one iteration of `start`. Each is a method of `Processor`, proved against a function (`Decode`, `Dispatch`, `FetchNext`, `Service`/`Serviced`). |

Source paths below are relative to the repository root.

## Model

| member | source | states |
|---|---|---|
| Words.OneHot | Standalone_MIPS_Emulator/MIPS_CPC0Register.cs:58-59 | the mask `1 << i` of the loops is non-zero, and any word holds either none of it or all of it |
| Words.MaskDistinct | Standalone_MIPS_Emulator/MIPS_CPC0Register.cs:57-59 | masks of different loop positions share no bit |
| Words.BitIsShiftedBit | Standalone_MIPS_Emulator/Standalone_MIPS_Emulator/MIPS_CPC0Register.cs:88-89 | `Bit` is the `(x & (1 << i)) >> i` of the loops |
| Words.LowIsMask | Standalone_MIPS_Emulator/Standalone_MIPS_Emulator/MIPS_CPC0Register.cs:87 | the bits a loop over positions 0 .. n-1 visits form the word `(1 << n) - 1`, with the shift wrapping to 0 at n = 32 |
| Words.LowDisjoint | Standalone_MIPS_Emulator/MIPS_CPC0Register.cs:97-99 | no bit at or above position n is among those visited before it |
| Words.Low31 | Standalone_MIPS_Emulator/Standalone_MIPS_Emulator/MIPS_CPC0Register.cs:87 | the 31-step loop of the one-argument write visits 0x7FFFFFFF |
| Words.Low32 | Standalone_MIPS_Emulator/MIPS_CPC0Register.cs:97 | the 32-step loop of the two-mode write visits 0xFFFFFFFF |
| Registers.Register.constructor | Standalone_MIPS_Emulator/MIPS_Register.cs:24-27 | the default cell holds 0 and is writable |
| Registers.Register.Init | Standalone_MIPS_Emulator/MIPS_Register.cs:30-32 | the one-argument constructor stores the value; the muted flag keeps its default, false |
| Registers.Register.Muted | Standalone_MIPS_Emulator/MIPS_Register.cs:35-38 | the two-argument constructor stores the value and the flag |
| Registers.Register.SetValue | Standalone_MIPS_Emulator/MIPS_Register.cs:41-48 | a muted cell keeps its value; any other cell takes the argument |
| Registers.Register.GetValue | Standalone_MIPS_Emulator/MIPS_Register.cs:50-52 | `getValue` returns the stored word; `SetValue` states what is stored |
| Registers.ClassifyBit | Standalone_MIPS_Emulator/MIPS_CPC0Register.cs:58-71 | one iteration of `setRWMask` classifies the bit pair at position i, or throws |
| Registers.SelectBit | Standalone_MIPS_Emulator/MIPS_CPC0Register.cs:98-120 | one iteration of the two-mode write picks the argument's bit where the policy takes the new bit, the register's bit elsewhere |
| Registers.SelectLegacyBit | Standalone_MIPS_Emulator/Standalone_MIPS_Emulator/MIPS_CPC0Register.cs:88-104 | one iteration of the one-argument write yields the register's bit i (LOCKED, READ) or the argument's (READWRITE), shifted down to bit 0 |
| Registers.Cp0Register.constructor | Standalone_MIPS_Emulator/MIPS_CPC0Register.cs:35-37 | the default register holds 0, every bit LOCKED |
| Registers.Cp0Register.Blank | Standalone_MIPS_Emulator/MIPS_CPC0Register.cs:40-42 | the reset value is stored unmasked, over an all-LOCKED policy array |
| Registers.Cp0Register.Create | Standalone_MIPS_Emulator/MIPS_CPC0Register.cs:40-44 | the parameterised constructor succeeds exactly on a valid mask pair, then reads the reset value with policy `PolicyOf(mask1, mask2)` |
| Registers.Cp0Register.SetRWMask | Standalone_MIPS_Emulator/MIPS_CPC0Register.cs:52-73 | returns true exactly for a valid mask pair; positions below the first rejected pair (all 31 when none is rejected) get their classification, the others keep their policy |
| Registers.Cp0Register.SetValue | Standalone_MIPS_Emulator/MIPS_CPC0Register.cs:87-125 | the 32-step loop leaves `MaskedWrite(policy, old, value, hwmode)` |
| Registers.Cp0Register.GetValue | Standalone_MIPS_Emulator/MIPS_CPC0Register.cs:78-80 | `getValue` returns the stored word, which `SetValue` proves to be `MaskedWrite` of the previous one |
| Registers.LegacyCp0Register.constructor | Standalone_MIPS_Emulator/Standalone_MIPS_Emulator/MIPS_CPC0Register.cs:30-32 | the default register holds 0, every bit LOCKED |
| Registers.LegacyCp0Register.Blank | Standalone_MIPS_Emulator/Standalone_MIPS_Emulator/MIPS_CPC0Register.cs:34-36 | the reset value is stored unmasked, over an all-LOCKED policy array |
| Registers.LegacyCp0Register.Create | Standalone_MIPS_Emulator/Standalone_MIPS_Emulator/MIPS_CPC0Register.cs:34-38 | succeeds exactly on a valid mask pair, then reads the reset value with policy `PolicyOf(mask1, mask2)` |
| Registers.LegacyCp0Register.SetRWMask | Standalone_MIPS_Emulator/Standalone_MIPS_Emulator/MIPS_CPC0Register.cs:46-67 | the same classification as the two-mode class: true exactly on a valid pair; bits before the first rejected pair are classified |
| Registers.LegacyCp0Register.SetValue | Standalone_MIPS_Emulator/Standalone_MIPS_Emulator/MIPS_CPC0Register.cs:81-108 | the 31-step loop leaves `LegacyWrite(policy, old, value)` |
| Registers.LegacyCp0Register.GetValue | Standalone_MIPS_Emulator/Standalone_MIPS_Emulator/MIPS_CPC0Register.cs:72-74 | `getValue` returns the stored word, which `SetValue` proves to be `LegacyWrite` of the previous one |
| Cp0Masking.AllLocked | Standalone_MIPS_Emulator/MIPS_CPC0Register.cs:22-26 | a fresh policy array is 32 LOCKED entries, the enum's zero |
| Cp0Masking.Classify | Standalone_MIPS_Emulator/MIPS_CPC0Register.cs:58-71 | one iteration of `setRWMask` on a bit pair: LOCKED, READ, READWRITE, or none where it throws; `ClassifyTable` states each case as an if-and-only-if |
| Cp0Masking.ClassifyTable | Standalone_MIPS_Emulator/MIPS_CPC0Register.cs:60-71 | bit pair (0,0) is LOCKED, (1,0) READ, (1,1) READWRITE, and (0,1) alone throws, each an if-and-only-if |
| Cp0Masking.Reach | Standalone_MIPS_Emulator/MIPS_CPC0Register.cs:57-72 | the number of positions classified before the loop stops: every pair below it is accepted, and a count below 31 sits on a rejected pair |
| Cp0Masking.ReachIsValidity | Standalone_MIPS_Emulator/MIPS_CPC0Register.cs:57-72 | the loop runs through all 31 positions exactly when no pair below bit 31 is (0,1) |
| Cp0Masking.Classified | Standalone_MIPS_Emulator/MIPS_CPC0Register.cs:57-72 | the policy array after n iterations of `setRWMask`: 32 entries, element k < n updated by iteration k (`ClassifiedAt`) |
| Cp0Masking.ClassifiedAt | Standalone_MIPS_Emulator/MIPS_CPC0Register.cs:57-72 | after n iterations, positions below n hold their classification and the others keep their earlier policy |
| Cp0Masking.ClassifiedNext | Standalone_MIPS_Emulator/MIPS_CPC0Register.cs:58-68 | one more iteration updates exactly array element n |
| Cp0Masking.ReachContinues | Standalone_MIPS_Emulator/MIPS_CPC0Register.cs:57-68 | an accepted pair lets the loop go on |
| Cp0Masking.ReachStops | Standalone_MIPS_Emulator/MIPS_CPC0Register.cs:69-71 | a rejected pair is where the loop throws |
| Cp0Masking.PolicyOfAt | Standalone_MIPS_Emulator/MIPS_CPC0Register.cs:40-44 | a register built from a valid pair has bits 0-30 classified from the masks and bit 31 LOCKED whatever the masks say |
| Cp0Masking.PolicyOf | Standalone_MIPS_Emulator/MIPS_CPC0Register.cs:40-44 | the policy array of a register built from a valid pair has 32 entries, classified by `PolicyOfAt` |
| Cp0Masking.MaskedWrite | Standalone_MIPS_Emulator/MIPS_CPC0Register.cs:87-125 | the closed form of the two-mode write; `MergeIsMaskedWrite` ties it to the loop and the lemmas below give its per-bit meaning |
| Cp0Masking.Merge | Standalone_MIPS_Emulator/MIPS_CPC0Register.cs:97-121 | the word the two-mode loop has built after n iterations; `MergeNext`, `MergeClosed` and `MergeIsMaskedWrite` state its value |
| Cp0Masking.MergeNext | Standalone_MIPS_Emulator/MIPS_CPC0Register.cs:97-121 | one iteration of the two-mode loop ORs the selected bit into the word built so far |
| Cp0Masking.MergeClosed | Standalone_MIPS_Emulator/MIPS_CPC0Register.cs:97-121 | after n iterations the word holds the new bits the policy takes below n and the old bits elsewhere below n |
| Cp0Masking.MergeIsMaskedWrite | Standalone_MIPS_Emulator/MIPS_CPC0Register.cs:87-125 | the full two-mode loop computes `MaskedWrite` |
| Cp0Masking.MaskedWriteTakesNew | Standalone_MIPS_Emulator/MIPS_CPC0Register.cs:104-117 | a write copies the new bit at READWRITE positions, and at READ positions in hardware mode |
| Cp0Masking.MaskedWriteKeepsOld | Standalone_MIPS_Emulator/MIPS_CPC0Register.cs:100-112 | a write keeps the old bit at LOCKED positions, and at READ positions in software mode |
| Cp0Masking.ModesDifferOnlyAtRead | Standalone_MIPS_Emulator/MIPS_CPC0Register.cs:100-117 | software and hardware writes of the same value agree at every non-READ bit |
| Cp0Masking.NoReadModesAgree | Standalone_MIPS_Emulator/MIPS_CPC0Register.cs:100-117 | without READ bits the two modes write the same word |
| Cp0Masking.MaskedWriteIdempotent | Standalone_MIPS_Emulator/MIPS_CPC0Register.cs:87-125 | writing the same value twice in the same mode is writing it once |
| Cp0Masking.AllLockedUnchanged | Standalone_MIPS_Emulator/MIPS_CPC0Register.cs:100-103 | an all-LOCKED register ignores writes of either mode |
| Cp0Masking.SoftwareSelBit | Standalone_MIPS_Emulator/MIPS_CPC0Register.cs:114-116 | for a valid pair, a software write takes the new bit exactly where mask2 is set |
| Cp0Masking.HardwareSelBit | Standalone_MIPS_Emulator/MIPS_CPC0Register.cs:104-117 | for a valid pair, a hardware write takes the new bit exactly where mask1 is set |
| Cp0Masking.WriteMasksOfPolicy | Standalone_MIPS_Emulator/MIPS_CPC0Register.cs:40-44 | a register built from a valid pair: software writes change the bits of mask2 below 31, hardware writes those of mask1 below 31, bit 31 never |
| Cp0Masking.CollapseNext | Standalone_MIPS_Emulator/Standalone_MIPS_Emulator/MIPS_CPC0Register.cs:87-105 | one iteration of the one-argument loop ORs in the selected bit, shifted down to bit 0 |
| Cp0Masking.LegacyBitIsPick | Standalone_MIPS_Emulator/Standalone_MIPS_Emulator/MIPS_CPC0Register.cs:88-101 | the bit the one-argument loop ORs in is 1 exactly when the bit the software-mode loop would pick is set |
| Cp0Masking.CollapseIsAnySet | Standalone_MIPS_Emulator/Standalone_MIPS_Emulator/MIPS_CPC0Register.cs:87-105 | the one-argument loop records whether the software-mode loop would have set any bit so far |
| Cp0Masking.CollapseIsLegacyWrite | Standalone_MIPS_Emulator/Standalone_MIPS_Emulator/MIPS_CPC0Register.cs:81-108 | the 31-step loop computes `LegacyWrite`: 1 when the software-masked write has a set bit below 31, else 0 |
| Cp0Masking.Collapse | Standalone_MIPS_Emulator/Standalone_MIPS_Emulator/MIPS_CPC0Register.cs:87-104 | the one-argument loop after n iterations; `CollapseIsAnySet` gives its value |
| Cp0Masking.LegacyWrite | Standalone_MIPS_Emulator/Standalone_MIPS_Emulator/MIPS_CPC0Register.cs:81-108 | the closed form of the one-argument write: 1 exactly when some picked bit below 31 is set (`LegacyOfMasks`) |
| Cp0Masking.LegacyIgnoresBit31 | Standalone_MIPS_Emulator/Standalone_MIPS_Emulator/MIPS_CPC0Register.cs:87 | bit 31 of the old or the new value never affects the result |
| Cp0Masking.LegacyReadIsLocked | Standalone_MIPS_Emulator/Standalone_MIPS_Emulator/MIPS_CPC0Register.cs:90-97 | READ bits behave exactly like LOCKED bits |
| Cp0Masking.LegacyAllLockedStaysZero | Standalone_MIPS_Emulator/Standalone_MIPS_Emulator/MIPS_CPC0Register.cs:30-32 | a default register (0, all LOCKED) stays 0 under every write |
| Cp0Masking.LegacyOfMasks | Standalone_MIPS_Emulator/Standalone_MIPS_Emulator/MIPS_CPC0Register.cs:87-107 | for a valid pair the result is 1 iff the new value has a set mask2 bit below 31 or the old value a set non-mask2 bit below 31 |
| Cp0Bank.ResetCell | Standalone_MIPS_Emulator/MIPS_CPC0.cs:44-156 | the constructor's cell table: each (register, select) pair is absent, a default cell or a masked cell with its mask pair; `ResetMasksValid`, `StatusCauseCells`, `ResetCellBounds` and `ZeroCellWrite` state its properties |
| Cp0Bank.ResetMasksValid | Standalone_MIPS_Emulator/MIPS_CPC0.cs:44-121 | no mask pair in the constructor has a (0,1) bit, so no cell construction throws |
| Cp0Bank.StatusCauseCells | Standalone_MIPS_Emulator/MIPS_CPC0.cs:127-155 | Status (12,0), Cause (13,0) and (30,0) are default-constructed cells |
| Cp0Bank.ResetCellBounds | Standalone_MIPS_Emulator/MIPS_CPC0.cs:37-156 | every populated cell lies inside the 32 x 32 array |
| Cp0Bank.ZeroCellWrite | Standalone_MIPS_Emulator/MIPS_CPC0.cs:52-156 | default cells and cells with mask2 = 0 (Random, (7,0), BadVAddr, (9,6), (9,7), (11,6), (11,7)) read 0 after any software write from 0 |
| Cp0Bank.IndexWrite | Standalone_MIPS_Emulator/MIPS_CPC0.cs:44 | Index (0,0) is READWRITE at bits 0-5 only; from a value of 0 or 1 a write leaves 1 iff `v & 0x3F != 0`, else 0 |
| Cp0Bank.DefaultCellHardwareWrite | Standalone_MIPS_Emulator/MIPS_CPC0.cs:127-156 | a default cell ignores hardware-mode writes too |
| Cp0Bank.Cpc0.GetRegister | Standalone_MIPS_Emulator/MIPS_CPC0.cs:159-162 | a value is returned exactly for a populated cell; any other pair is a host fault (a null dereference) |
| Cp0Bank.Cpc0.constructor | Standalone_MIPS_Emulator/MIPS_CPC0.cs:24-157 | exactly the cells of the reset table are populated, each with its table policy, each reading 0 |
| Cp0Bank.Cpc0.InstallRow | Standalone_MIPS_Emulator/MIPS_CPC0.cs:44-156 | one row of the constructor: all its table entries built, the earlier ones kept |
| Cp0Bank.Cpc0.Install | Standalone_MIPS_Emulator/MIPS_CPC0.cs:44-156 | one statement of the constructor builds the entry at (r, s) and touches no other cell |
| Cp0Bank.Cpc0.SetRegister | Standalone_MIPS_Emulator/MIPS_CPC0.cs:164-167 | host fault exactly on an unpopulated cell; otherwise that cell takes the one-argument write and no other cell changes |
| Cp0Bank.Cpc0.SetRegisterHW | Standalone_MIPS_Emulator/MIPS_CPU.cs:353-394 | host fault exactly on an unpopulated cell; otherwise the hardware-mode masked write of that cell, no other cell changing |
| Paging.Offset | Standalone_MIPS_Emulator/MIPS_MemoryPage.cs:21-22 | `address & pagemask` is always a valid index into the 4096-byte frame |
| Paging.OffsetAlias | Standalone_MIPS_Emulator/MIPS_MemoryPage.cs:35-41 | two addresses select the same byte of a frame iff their low 12 bits agree |
| Paging.SameByte | Standalone_MIPS_Emulator/MIPS_Memory.cs:36 | the page key `a & 0xFFFFF000` and the offset together determine the address |
| Paging.Zeros | Standalone_MIPS_Emulator/MIPS_MemoryPage.cs:32 | a new frame is 4096 zero bytes |
| Paging.MemoryPage.constructor | Standalone_MIPS_Emulator/MIPS_MemoryPage.cs:29-33 | base and flags stored as given; the frame is freshly allocated and all zero |
| Paging.MemoryPage.ReadByte | Standalone_MIPS_Emulator/MIPS_MemoryPage.cs:35-37 | the byte at the address's offset |
| Paging.MemoryPage.WriteByte | Standalone_MIPS_Emulator/MIPS_MemoryPage.cs:39-41 | the frame with exactly the byte at the address's offset replaced |
| Paging.PageWriteRead | Standalone_MIPS_Emulator/MIPS_MemoryPage.cs:35-41 | a write then a read of the same address gives the byte written; every other offset is unchanged |
| Paging.Touch | Standalone_MIPS_Emulator/MIPS_Memory.cs:69-71 | a lookup adds the page key of the address and no other key |
| Paging.Frame | Standalone_MIPS_Emulator/MIPS_Memory.cs:69-72 | the frame looked up always has 4096 bytes |
| Paging.ByteRead | Standalone_MIPS_Emulator/MIPS_Memory.cs:60-75 | a read never changes the device table and keeps memory well formed |
| Paging.ByteStore | Standalone_MIPS_Emulator/MIPS_Memory.cs:104-120 | a store never changes the device table and keeps memory well formed |
| Paging.HalfStore | Standalone_MIPS_Emulator/MIPS_Memory.cs:123-126 | a half-word store keeps memory well formed |
| Paging.WordStore | Standalone_MIPS_Emulator/MIPS_Memory.cs:129-134 | a word store keeps memory well formed |
| Paging.ReadKeepsBytes | Standalone_MIPS_Emulator/MIPS_Memory.cs:66-73 | a read changes no byte value; at most it allocates a zero-filled frame |
| Paging.ReadUnclaimed | Standalone_MIPS_Emulator/MIPS_Memory.cs:66-73 | an unclaimed read returns the paged byte, 0 for a missing frame; the frame is then allocated under `a & 0xFFFFF000`; device logs are untouched |
| Paging.StoreSets | Standalone_MIPS_Emulator/MIPS_Memory.cs:112-119 | an unclaimed store leaves the stored byte at its address |
| Paging.StoreKeeps | Standalone_MIPS_Emulator/MIPS_Memory.cs:112-119 | an unclaimed store leaves every other address's byte as it was, also in the same frame |
| Paging.StoreOnlyByte | Standalone_MIPS_Emulator/MIPS_Memory.cs:112-119 | an unclaimed store sets that byte and no other, even in the same frame, and no device sees it |
| Paging.ClaimedAccess | Standalone_MIPS_Emulator/MIPS_Memory.cs:62-65 | a claimed address goes to its device before any page lookup; a read returns the device's answer and logs a load; a store logs the store; paged memory is untouched |
| Paging.ByteRoundTrip | Standalone_MIPS_Emulator/MIPS_Memory.cs:60-120 | a byte stored at an unclaimed address reads back |
| Paging.BigEndianBytes | Standalone_MIPS_Emulator/MIPS_Memory.cs:89-101 | splitting a word into four bytes, most significant first, and shifting them back together gives the word |
| Paging.HalfBytes | Standalone_MIPS_Emulator/MIPS_Memory.cs:78-86 | the same for a half-word |
| Paging.FourBytes | Standalone_MIPS_Emulator/MIPS_Memory.cs:94-98 | a .. a+3, computed with 32-bit wraparound, are four distinct addresses |
| Paging.WordStoreBytes | Standalone_MIPS_Emulator/MIPS_Memory.cs:129-134 | after `StoreWord(a, w)`, bytes a .. a+3 hold w's bytes, most significant first |
| Paging.WordReadBytes | Standalone_MIPS_Emulator/MIPS_Memory.cs:89-101 | `ReadWord(a)` assembles bytes a .. a+3 big-endian |
| Paging.WordRoundTrip | Standalone_MIPS_Emulator/MIPS_Memory.cs:89-134 | `StoreWord` then `ReadWord` at the same unclaimed address returns the word |
| Paging.HalfRoundTrip | Standalone_MIPS_Emulator/MIPS_Memory.cs:78-126 | `StoreHalf` then `ReadHalf` at the same unclaimed address returns the half-word |
| Paging.HalfRead | Standalone_MIPS_Emulator/MIPS_Memory.cs:78-86 | `ReadHalf` on the value model: bytes a and a+1, most significant first (`HalfBytes`, `HalfRoundTrip`) |
| Paging.WordRead | Standalone_MIPS_Emulator/MIPS_Memory.cs:89-101 | `ReadWord` on the value model: bytes a .. a+3, most significant first (`WordReadBytes`, `WordRoundTrip`) |
| Paging.Claim | Standalone_MIPS_Emulator/MIPS_Memory.cs:46-57 | the `attachDevice` loop on the device table: the verdict and the table it leaves; `ClaimSucceeds`, `ClaimKeeps` and `ClaimPrefix` state both |
| Paging.FreeRunTail | Standalone_MIPS_Emulator/MIPS_Memory.cs:47-50 | claiming the first address turns a free run of the rest into a free run of the whole list, and back |
| Paging.ClaimSucceeds | Standalone_MIPS_Emulator/MIPS_Memory.cs:46-57 | `attachDevice` returns true iff none of the device's addresses is claimed already and none is listed twice |
| Paging.ClaimKeeps | Standalone_MIPS_Emulator/MIPS_Memory.cs:46-57 | `attachDevice` never takes an address from another device; every address it adds is the device's own |
| Paging.ClaimPrefix | Standalone_MIPS_Emulator/MIPS_Memory.cs:47-53 | every address before the first clash stays claimed for the device, also when the attach fails |
| Paging.Memory.Model | Standalone_MIPS_Emulator/MIPS_Memory.cs:20-26 | the memory as a value: its page table, device table and device logs |
| Paging.Memory.constructor | Standalone_MIPS_Emulator/MIPS_Memory.cs:29-32 | both tables start empty; no device has been accessed or initialised |
| Paging.Memory.History | Standalone_MIPS_Emulator/MIPS_Memory.cs:62-65 | the accesses a device has received, as the value model records them |
| Paging.Memory.ReadByte | Standalone_MIPS_Emulator/MIPS_Memory.cs:60-75 | returns and leaves what `ByteRead` gives |
| Paging.Memory.ReadHalf | Standalone_MIPS_Emulator/MIPS_Memory.cs:78-86 | returns and leaves what `HalfRead` gives |
| Paging.Memory.ReadWord | Standalone_MIPS_Emulator/MIPS_Memory.cs:89-101 | returns and leaves what `WordRead` gives |
| Paging.Memory.StoreByte | Standalone_MIPS_Emulator/MIPS_Memory.cs:104-120 | leaves `ByteStore` of the old memory |
| Paging.Memory.StoreHalf | Standalone_MIPS_Emulator/MIPS_Memory.cs:123-126 | leaves `HalfStore` of the old memory |
| Paging.Memory.StoreWord | Standalone_MIPS_Emulator/MIPS_Memory.cs:129-134 | leaves `WordStore` of the old memory |
| Paging.Memory.AttachDevice | Standalone_MIPS_Emulator/MIPS_Memory.cs:46-57 | the verdict and device table of `Claim`; pages and logs unchanged; the device's initialisation count goes up by one exactly on success |
| Exceptions.Ordinal | Standalone_MIPS_Emulator/MIPS_Exception.cs:22-26 | every code's numeric value is below 17 |
| Exceptions.FromOrdinal | Standalone_MIPS_Emulator/MIPS_Exception.cs:22-26 | a value names a code exactly when it is below 17, and then it is that code's value |
| Exceptions.OrdinalInjective | Standalone_MIPS_Emulator/MIPS_Exception.cs:22-26 | distinct codes have distinct values |
| Exceptions.OrdinalFitsExcCode | Standalone_MIPS_Emulator/MIPS_Exception.cs:22-26 | every value fits the 5-bit ExcCode field under the mask 0x7C once shifted left by 2 |
| Exceptions.ArchitecturalCodes | Standalone_MIPS_Emulator/MIPS_Exception.cs:23-24 | INT = 0 through OVF = 12 follow the MIPS32 Cause.ExcCode numbering |
| Exceptions.UnimplementedDistinct | Standalone_MIPS_Emulator/MIPS_Exception.cs:25 | UNIMPLEMENTED is 16, above every other code |
| Exceptions.Raise | Standalone_MIPS_Emulator/MIPS_Exception.cs:30-36 | `getCode` returns the code given to the constructor |
| Exceptions.GetCode | Standalone_MIPS_Emulator/MIPS_Exception.cs:34-36 | `getCode` returns the exception's code, the one `Raise` was given |
| Context.Flag.constructor | Standalone_MIPS_Emulator/MIPS_CPU.cs:130 | the shared flag starts with the given value |
| Context.Flag.SetValue | Standalone_MIPS_Emulator/MIPS_InstructionContext.cs:89-91 | the shared flag takes the value |
| Context.Flag.GetValue | Standalone_MIPS_Emulator/MIPS_CPU.cs:351 | `branchDelay.getValue()` returns the stored flag, the value `SetValue` stores |
| Context.SetGpr | Standalone_MIPS_Emulator/MIPS_Register.cs:41-48 | a register write changes register r alone, and never register 0 (the muted cell) |
| Context.InstructionContext.constructor | Standalone_MIPS_Emulator/MIPS_InstructionContext.cs:36-52 | the handles are the very objects passed in; all fields are 0 |
| Context.InstructionContext.SetContext | Standalone_MIPS_Emulator/MIPS_InstructionContext.cs:54-63 | the getters return exactly the eight arguments; no handle changes (the method writes only the context's own fields) |
| Context.InstructionContext.GetOpcode | Standalone_MIPS_Emulator/MIPS_InstructionContext.cs:93-95 | `getOpcode` returns the stored field; `SetContext` states that it is the argument given |
| Context.InstructionContext.GetRS | Standalone_MIPS_Emulator/MIPS_InstructionContext.cs:97-99 | `getRS` returns the stored field; `SetContext` states that it is the argument given |
| Context.InstructionContext.GetRT | Standalone_MIPS_Emulator/MIPS_InstructionContext.cs:101-103 | `getRT` returns the stored field; `SetContext` states that it is the argument given |
| Context.InstructionContext.GetRD | Standalone_MIPS_Emulator/MIPS_InstructionContext.cs:105-107 | `getRD` returns the stored field; `SetContext` states that it is the argument given |
| Context.InstructionContext.GetShamt | Standalone_MIPS_Emulator/MIPS_InstructionContext.cs:109-111 | `getShamt` returns the stored field; `SetContext` states that it is the argument given |
| Context.InstructionContext.GetFunct | Standalone_MIPS_Emulator/MIPS_InstructionContext.cs:113-115 | `getFunct` returns the stored field; `SetContext` states that it is the argument given |
| Context.InstructionContext.GetImm | Standalone_MIPS_Emulator/MIPS_InstructionContext.cs:117-119 | `getImm` returns the stored field; `SetContext` states that it is the argument given |
| Context.InstructionContext.GetJimm | Standalone_MIPS_Emulator/MIPS_InstructionContext.cs:121-123 | `getJimm` returns the stored field; `SetContext` states that it is the argument given |
| Context.InstructionContext.SetBranchDelay | Standalone_MIPS_Emulator/MIPS_InstructionContext.cs:89-91 | the state with the delay flag set to the argument and nothing else changed |
| Context.InstructionContext.State | Standalone_MIPS_Emulator/MIPS_CPU.cs:143-149 | the state the handles reach has 32 registers; with valid handles register 0 reads 0 and memory is well formed |
| Context.InstructionContext.Reg | Standalone_MIPS_Emulator/MIPS_InstructionContext.cs:65-67 | `getRegisters()[r].getValue()` is register r of the state |
| Context.InstructionContext.WriteGpr | Standalone_MIPS_Emulator/MIPS_InstructionContext.cs:65-67 | a write through `getRegisters()[r]` is the state with `SetGpr` applied and nothing else changed |
| Context.InstructionContext.WritePc | Standalone_MIPS_Emulator/MIPS_InstructionContext.cs:73-75 | a write through `getPC()` changes PC alone |
| Context.InstructionContext.Vectored | Standalone_MIPS_Emulator/MIPS_CPU.cs:398-406 | PC set and the delay flag cleared, nothing else |
| Context.InstructionContext.WriteHi | Standalone_MIPS_Emulator/MIPS_InstructionContext.cs:77-79 | a write through `getHI()` changes HI alone |
| Context.InstructionContext.WriteLo | Standalone_MIPS_Emulator/MIPS_InstructionContext.cs:81-83 | a write through `getLO()` changes LO alone |
| Context.InstructionContext.WriteTarget | Standalone_MIPS_Emulator/MIPS_InstructionContext.cs:85-87 | a write through `getBranchTarget()` changes the branch target alone |
| Context.InstructionContext.LoadByte | Standalone_MIPS_Emulator/MIPS_InstructionContext.cs:69-71 | `getMemory().ReadByte` returns and leaves what `ByteRead` gives; the registers are unchanged |
| Context.InstructionContext.LoadHalf | Standalone_MIPS_Emulator/MIPS_InstructionContext.cs:69-71 | the same for `ReadHalf` |
| Context.InstructionContext.LoadWord | Standalone_MIPS_Emulator/MIPS_InstructionContext.cs:69-71 | the same for `ReadWord` |
| Context.InstructionContext.StoreByte | Standalone_MIPS_Emulator/MIPS_InstructionContext.cs:69-71 | `getMemory().StoreByte` changes memory alone, to `ByteStore` of it |
| Context.InstructionContext.StoreHalf | Standalone_MIPS_Emulator/MIPS_InstructionContext.cs:69-71 | the same for `StoreHalf` |
| Context.InstructionContext.StoreWord | Standalone_MIPS_Emulator/MIPS_InstructionContext.cs:69-71 | the same for `StoreWord` |
| Semantics.SignedRange | Standalone_MIPS_Emulator/MIPS_InstructionSet.cs:24-26 | the `Int32` reading of a word lies in the `Int32` range |
| Semantics.AddOverflows | Standalone_MIPS_Emulator/MIPS_InstructionSet.cs:276-281 | C#'s `checked` `Int32` addition throws: the sum of the signed readings leaves the `Int32` range; `AddTraps` states what ADD does then |
| Semantics.SubOverflows | Standalone_MIPS_Emulator/MIPS_InstructionSet.cs:311-316 | C#'s `checked` `Int32` subtraction throws; `SubTraps` states what SUB does then |
| Semantics.SignExtend16 | Standalone_MIPS_Emulator/MIPS_InstructionSet.cs:29-31 | `(UInt32)signExtend16(v)`: `SignExtendPositive` and `SignExtendNegative` state that the low half is v and the high half copies its sign bit |
| Semantics.ZeroExtend32 | Standalone_MIPS_Emulator/MIPS_InstructionSet.cs:34-36 | `zeroExtend32(v)`: `ZeroExtendParts` states that the low half is v and the high half is 0 |
| Semantics.CalculateBTA | Standalone_MIPS_Emulator/MIPS_InstructionSet.cs:44-49 | `calculateBTA`: `BtaForward`, `BtaBackward` and `BtaWraps` state the target it gives |
| Semantics.CalculateETA | Standalone_MIPS_Emulator/MIPS_InstructionSet.cs:52-57 | `calculateETA`: `EtaRegion` states the target it gives |
| Semantics.SignExtendPositive | Standalone_MIPS_Emulator/MIPS_InstructionSet.cs:29-31 | a non-negative half-word keeps its bits and gains sixteen zeros, like the zero extension |
| Semantics.SignExtendNegative | Standalone_MIPS_Emulator/MIPS_InstructionSet.cs:29-31 | a negative half-word keeps its bits and gains sixteen ones, unlike the zero extension |
| Semantics.ZeroExtendParts | Standalone_MIPS_Emulator/MIPS_InstructionSet.cs:34-36 | `zeroExtend32` keeps the bits and clears the upper half |
| Semantics.BtaForward | Standalone_MIPS_Emulator/MIPS_InstructionSet.cs:44-49 | for offsets below 0x2000 words, `calculateBTA` is pc + 4 * offset |
| Semantics.BtaBackward | Standalone_MIPS_Emulator/MIPS_InstructionSet.cs:44-49 | so it is for offsets down to -0x2000 words |
| Semantics.BtaWraps | Standalone_MIPS_Emulator/MIPS_InstructionSet.cs:44-49 | beyond that the `Int16` offset wraps: an offset of 0x2000 words lands 0x8000 bytes back |
| Semantics.EtaRegion | Standalone_MIPS_Emulator/MIPS_InstructionSet.cs:52-57 | for a 26-bit jump field, `calculateETA` keeps pc's top four bits, is word aligned, and carries the field in bits 2-27 |
| Semantics.ExtendedSumsDiffer | Standalone_MIPS_Emulator/MIPS_InstructionSet.cs:601-633 | for a negative immediate, adding it zero-extended (ADDI) and sign-extended (ADDIU) gives different sums |
| Semantics.AndImmediateClearsHigh | Standalone_MIPS_Emulator/MIPS_InstructionSet.cs:662-670 | ANDI clears the upper half |
| Semantics.OrImmediateKeepsHigh | Standalone_MIPS_Emulator/MIPS_InstructionSet.cs:673-681 | ORI keeps the upper half |
| Semantics.XorImmediateKeepsHigh | Standalone_MIPS_Emulator/MIPS_InstructionSet.cs:684-692 | XORI keeps the upper half |
| Semantics.LuiParts | Standalone_MIPS_Emulator/MIPS_InstructionSet.cs:695-700 | LUI puts the immediate in the upper half over sixteen zeros |
| Semantics.SignedVersusUnsigned | Standalone_MIPS_Emulator/MIPS_InstructionSet.cs:384-405 | a word with bit 31 set is below 0 for SLT and above it for SLTU |
| Semantics.ShiftCountModulo | Standalone_MIPS_Emulator/MIPS_InstructionSet.cs:92-121 | shift counts are taken modulo 32 |
| Semantics.ArithmeticShiftSign | Standalone_MIPS_Emulator/MIPS_InstructionSet.cs:81-88 | the arithmetic shift keeps the operand's sign |
| Semantics.ArithmeticShiftFill | Standalone_MIPS_Emulator/MIPS_InstructionSet.cs:71-88 | on a negative word SRA fills with ones where SRL fills with zeros |
| Semantics.MultZeroExtendsRs | Standalone_MIPS_Emulator/MIPS_InstructionSet.cs:216-224 | MULT reads a negative rs as unsigned: -1 times 1 gives HI = 0 where the signed product has HI = 0xFFFFFFFF |
| Semantics.MultMatchesMultu | Standalone_MIPS_Emulator/MIPS_InstructionSet.cs:216-235 | on a non-negative rt, MULT is MULTU |
| Semantics.MultuFullWidth | Standalone_MIPS_Emulator/MIPS_InstructionSet.cs:227-235 | MULTU keeps all 64 product bits: 0xFFFFFFFF squared is HI:LO = 0xFFFFFFFE_00000001 |
| Semantics.Quotient | Standalone_MIPS_Emulator/MIPS_InstructionSet.cs:245 | C#'s `Int32` `/`, truncated toward zero; `TruncatedDivision` and `DivIsTruncated` state it |
| Semantics.Remainder | Standalone_MIPS_Emulator/MIPS_InstructionSet.cs:246 | C#'s `%`, the remainder of the truncated quotient, with the dividend's sign; `TruncatedDivision` states it |
| Semantics.TruncatedDivision | Standalone_MIPS_Emulator/MIPS_InstructionSet.cs:238-252 | C# division: x = y*q + r with abs(r) < abs(y), and r takes the dividend's sign |
| Semantics.DivMatchesDivu | Standalone_MIPS_Emulator/MIPS_InstructionSet.cs:238-269 | DIV is DIVU on two non-negative operands |
| Semantics.DivFaults | Standalone_MIPS_Emulator/MIPS_InstructionSet.cs:238-269 | DIV and DIVU throw on a zero divisor, DIV also on MinValue / -1, and on no other -1 division |
| Semantics.DivVectors | Standalone_MIPS_Emulator/MIPS_InstructionSet.cs:238-252 | concrete truncating divisions: -53 / 200 gives LO = 0 and HI = -53; 7 / -2 and -7 / 2 agree with integer truncation |
| Semantics.Mult | Standalone_MIPS_Emulator/MIPS_InstructionSet.cs:216-224 | MULT's HI:LO pair; `MultIsProduct` states its value |
| Semantics.MultIsProduct | Standalone_MIPS_Emulator/MIPS_InstructionSet.cs:216-224 | HI:LO of MULT, read as an `Int64`, is the unsigned rs times the `Int32` rt |
| Semantics.Multu | Standalone_MIPS_Emulator/MIPS_InstructionSet.cs:227-235 | MULTU's HI:LO pair; `MultuIsProduct` states its value |
| Semantics.MultuIsProduct | Standalone_MIPS_Emulator/MIPS_InstructionSet.cs:227-235 | HI:LO of MULTU is the full 64-bit product of the unsigned operands |
| Semantics.Div | Standalone_MIPS_Emulator/MIPS_InstructionSet.cs:238-252 | DIV's (HI, LO) pair, `None` when C# throws; `DivFaults` and `DivIsTruncated` state it |
| Semantics.DivIsTruncated | Standalone_MIPS_Emulator/MIPS_InstructionSet.cs:238-252 | whenever DIV does not throw, LO read as `Int32` is the quotient truncated toward zero and HI the remainder with the dividend's sign |
| Semantics.Divu | Standalone_MIPS_Emulator/MIPS_InstructionSet.cs:255-269 | DIVU's (HI, LO) pair, `None` on a zero divisor; `DivuIsDivision` states it |
| Semantics.DivuIsDivision | Standalone_MIPS_Emulator/MIPS_InstructionSet.cs:255-269 | for a non-zero divisor DIVU gives the unsigned quotient in LO and the remainder in HI |
| Semantics.LoadsZeroExtend | Standalone_MIPS_Emulator/MIPS_InstructionSet.cs:806-864 | a loaded byte or half-word has no bits above its width, and its low bits are the value read |
| Isa.AddTraps | Standalone_MIPS_Emulator/MIPS_InstructionSet.cs:272-304 | ADD writes what ADDU writes, and then completes or raises OVF |
| Isa.SubTraps | Standalone_MIPS_Emulator/MIPS_InstructionSet.cs:307-339 | SUB writes what SUBU writes, and then completes or raises INT (not OVF) |
| Isa.LogicalImmediates | Standalone_MIPS_Emulator/MIPS_InstructionSet.cs:662-692 | ANDI, ORI and XORI are AND, OR and XOR with the zero-extended immediate |
| Isa.SltiuImmediate | Standalone_MIPS_Emulator/MIPS_InstructionSet.cs:649-659 | SLTIU compares against the zero-extended immediate, as SLTU would |
| Isa.AddImmediates | Standalone_MIPS_Emulator/MIPS_InstructionSet.cs:601-633 | ADDI is ADD with the zero-extended immediate; ADDIU is ADDU with the sign-extended one |
| Isa.AddiPositive | Standalone_MIPS_Emulator/MIPS_InstructionSet.cs:601-633 | for a non-negative immediate ADDI writes what ADDIU writes |
| Isa.AddiNegative | Standalone_MIPS_Emulator/MIPS_InstructionSet.cs:601-633 | for a negative immediate ADDI and ADDIU write different values |
| Isa.VariableShifts | Standalone_MIPS_Emulator/MIPS_InstructionSet.cs:61-121 | SLLV, SRLV and SRAV by GPR[rs] are SLL, SRL and SRA by that amount |
| Isa.EqualityBranches | Standalone_MIPS_Emulator/MIPS_InstructionSet.cs:557-576 | of BEQ and BNE one is taken and the other changes nothing |
| Isa.ZeroBranches | Standalone_MIPS_Emulator/MIPS_InstructionSet.cs:579-598 | of BLEZ and BGTZ one is taken and the other changes nothing |
| Isa.ConditionalMoves | Standalone_MIPS_Emulator/MIPS_InstructionSet.cs:143-160 | of MOVZ and MOVN one copies rs to rd and the other changes nothing |
| Isa.NegativeIsGreaterThanZero | Standalone_MIPS_Emulator/MIPS_InstructionSet.cs:579-803 | the unsigned tests: on a negative rs, BLEZ is not taken, BGTZ is, BLEZL skips the slot and BGTZL is taken |
| Isa.RegimmIgnoresRs | Standalone_MIPS_Emulator/MIPS_InstructionSet.cs:450-535 | REGIMM's outcome does not depend on the rs field |
| Isa.RegimmSelectors | Standalone_MIPS_Emulator/MIPS_InstructionSet.cs:450-535 | REGIMM raises exactly when GPR[rt]'s value is none of 0-3 and 0x10-0x13 |
| Isa.JalrOrder | Standalone_MIPS_Emulator/MIPS_InstructionSet.cs:133-140 | JALR writes GPR[rd] (not the return address) into r31 before reading rs: with rs = 31 it jumps to GPR[rd], otherwise where JR jumps |
| Isa.JalLinks | Standalone_MIPS_Emulator/MIPS_InstructionSet.cs:538-554 | JAL jumps where J jumps and writes PC + 4 to r31 alone; J writes no register |
| Isa.HiLoRoundTrip | Standalone_MIPS_Emulator/MIPS_InstructionSet.cs:184-213 | MFHI after MTHI, and MFLO after MTLO, return the register moved |
| Isa.MultSignsOnlyRt | Standalone_MIPS_Emulator/MIPS_InstructionSet.cs:216-235 | MULT is MULTU when rt is non-negative |
| Isa.DivisionAgreement | Standalone_MIPS_Emulator/MIPS_InstructionSet.cs:238-269 | DIV and DIVU agree on non-negative operands |
| Isa.DivisionByZero | Standalone_MIPS_Emulator/MIPS_InstructionSet.cs:238-269 | on a zero divisor DIV and DIVU leave the whole state unchanged, HI and LO included |
| Isa.SignedLoadsZeroExtend | Standalone_MIPS_Emulator/MIPS_InstructionSet.cs:806-864 | LB and LH do not sign-extend: with rd = rs and a non-negative offset they load what LBU and LHU load |
| Isa.StoreThenLoad | Standalone_MIPS_Emulator/MIPS_InstructionSet.cs:833-908 | LW after SW through the same base and offset loads what `ReadWord` gives after `StoreWord` |
| Isa.StoreThenLoadRoundTrip | Standalone_MIPS_Emulator/MIPS_InstructionSet.cs:901-908 | when no device claims the four addressed bytes, that load gives back register rt itself |
| Isa.Cp0Select | Standalone_MIPS_Emulator/MIPS_InstructionSet.cs:705-706 | the select field of MFC0 and MTC0 is below 8: the low three bits of the immediate |
| Isa.Cp0Source | Standalone_MIPS_Emulator/MIPS_InstructionSet.cs:712 | MFC0 numbers the cell by the low byte of GPR[rd]'s value (below 256), not by the rd field |
| Isa.Sll | Standalone_MIPS_Emulator/MIPS_InstructionSet.cs:61-68 | SLL: rd := rt shifted left by shamt |
| Isa.Srl | Standalone_MIPS_Emulator/MIPS_InstructionSet.cs:71-78 | SRL: rd := rt shifted right by shamt, zeros in |
| Isa.Sra | Standalone_MIPS_Emulator/MIPS_InstructionSet.cs:81-88 | SRA: rd := rt shifted right by shamt, sign copies in |
| Isa.Sllv | Standalone_MIPS_Emulator/MIPS_InstructionSet.cs:92-99 | SLLV: rd := rt shifted left by rs modulo 32 (`VariableShifts`) |
| Isa.Srlv | Standalone_MIPS_Emulator/MIPS_InstructionSet.cs:103-110 | SRLV: the logical shift by rs modulo 32 (`VariableShifts`) |
| Isa.Srav | Standalone_MIPS_Emulator/MIPS_InstructionSet.cs:114-121 | SRAV: the arithmetic shift by rs modulo 32 (`VariableShifts`) |
| Isa.Jr | Standalone_MIPS_Emulator/MIPS_InstructionSet.cs:124-130 | JR: the target is rs and the delay flag is set |
| Isa.Jalr | Standalone_MIPS_Emulator/MIPS_InstructionSet.cs:133-140 | JALR: r31 := rd first, then the target is rs of the new file (`JalrOrder`) |
| Isa.Movz | Standalone_MIPS_Emulator/MIPS_InstructionSet.cs:143-150 | MOVZ: rd := rs when rt is 0, otherwise nothing (`ConditionalMoves`) |
| Isa.Movn | Standalone_MIPS_Emulator/MIPS_InstructionSet.cs:153-160 | MOVN: rd := rs when rt is not 0, otherwise nothing (`ConditionalMoves`) |
| Isa.Mfhi | Standalone_MIPS_Emulator/MIPS_InstructionSet.cs:184-189 | MFHI: rd := HI (`HiLoRoundTrip`) |
| Isa.Mthi | Standalone_MIPS_Emulator/MIPS_InstructionSet.cs:192-197 | MTHI: HI := rs (`HiLoRoundTrip`) |
| Isa.Mflo | Standalone_MIPS_Emulator/MIPS_InstructionSet.cs:200-205 | MFLO: rd := LO (`HiLoRoundTrip`) |
| Isa.Mtlo | Standalone_MIPS_Emulator/MIPS_InstructionSet.cs:208-213 | MTLO: LO := rs (`HiLoRoundTrip`) |
| Isa.MultHiLo | Standalone_MIPS_Emulator/MIPS_InstructionSet.cs:216-224 | MULT: HI and LO from `Mult` (`MultIsProduct`) |
| Isa.MultuHiLo | Standalone_MIPS_Emulator/MIPS_InstructionSet.cs:227-235 | MULTU: HI and LO from `Multu` (`MultuIsProduct`) |
| Isa.DivHiLo | Standalone_MIPS_Emulator/MIPS_InstructionSet.cs:238-252 | DIV: HI and LO from `Div`, nothing when it throws (`DivIsTruncated`, `DivisionByZero`) |
| Isa.DivuHiLo | Standalone_MIPS_Emulator/MIPS_InstructionSet.cs:255-269 | DIVU: HI and LO from `Divu`, nothing on a zero divisor (`DivuIsDivision`, `DivisionByZero`) |
| Isa.Add | Standalone_MIPS_Emulator/MIPS_InstructionSet.cs:272-293 | ADD: rd := rs + rt wrapped, then OVF on signed overflow (`AddTraps`) |
| Isa.Addu | Standalone_MIPS_Emulator/MIPS_InstructionSet.cs:296-304 | ADDU: rd := rs + rt wrapped |
| Isa.Sub | Standalone_MIPS_Emulator/MIPS_InstructionSet.cs:307-328 | SUB: rd := rs - rt wrapped, then INT on signed overflow (`SubTraps`) |
| Isa.Subu | Standalone_MIPS_Emulator/MIPS_InstructionSet.cs:331-339 | SUBU: rd := rs - rt wrapped |
| Isa.And | Standalone_MIPS_Emulator/MIPS_InstructionSet.cs:342-350 | AND: rd := rs & rt |
| Isa.Or | Standalone_MIPS_Emulator/MIPS_InstructionSet.cs:353-361 | OR: rd := rs OR rt |
| Isa.Xor | Standalone_MIPS_Emulator/MIPS_InstructionSet.cs:364-372 | XOR: rd := rs XOR rt |
| Isa.Nor | Standalone_MIPS_Emulator/MIPS_InstructionSet.cs:375-381 | NOR: rd := NOT (rs OR rt) |
| Isa.Slt | Standalone_MIPS_Emulator/MIPS_InstructionSet.cs:384-393 | SLT: rd := 1 when rs < rt as `Int32`, else 0 (`SignedVersusUnsigned`) |
| Isa.Sltu | Standalone_MIPS_Emulator/MIPS_InstructionSet.cs:396-405 | SLTU: rd := 1 when rs < rt unsigned, else 0 |
| Isa.Regimm | Standalone_MIPS_Emulator/MIPS_InstructionSet.cs:450-535 | REGIMM: the case chosen by GPR[rt]'s value, CPU for any other value (`RegimmSelectors`, `RegimmIgnoresRs`) |
| Isa.TakeBranch | Standalone_MIPS_Emulator/MIPS_InstructionSet.cs:462-466 | the branch to `CalculateBTA(pc, imm)` with the delay flag set |
| Isa.Jump | Standalone_MIPS_Emulator/MIPS_InstructionSet.cs:538-544 | J: the target is `CalculateETA(pc, jimm)` (`JalLinks`) |
| Isa.Jal | Standalone_MIPS_Emulator/MIPS_InstructionSet.cs:547-554 | JAL: r31 := PC + 4 and the target of J (`JalLinks`) |
| Isa.Beq | Standalone_MIPS_Emulator/MIPS_InstructionSet.cs:557-565 | BEQ: taken when rs = rt, otherwise nothing (`EqualityBranches`) |
| Isa.Bne | Standalone_MIPS_Emulator/MIPS_InstructionSet.cs:568-576 | BNE: taken when rs differs from rt (`EqualityBranches`) |
| Isa.Blez | Standalone_MIPS_Emulator/MIPS_InstructionSet.cs:579-587 | BLEZ on the unsigned rs: taken only on 0 (`ZeroBranches`, `NegativeIsGreaterThanZero`) |
| Isa.Bgtz | Standalone_MIPS_Emulator/MIPS_InstructionSet.cs:590-598 | BGTZ on the unsigned rs: taken on every non-zero value (`ZeroBranches`) |
| Isa.Beql | Standalone_MIPS_Emulator/MIPS_InstructionSet.cs:747-757 | BEQL: taken when rs = rt, otherwise the delay slot is skipped |
| Isa.Bnel | Standalone_MIPS_Emulator/MIPS_InstructionSet.cs:760-770 | BNEL: taken when rs differs from rt, otherwise the delay slot is skipped |
| Isa.Blezl | Standalone_MIPS_Emulator/MIPS_InstructionSet.cs:773-783 | BLEZL: taken only on rs = 0, otherwise the delay slot is skipped |
| Isa.Bgtzl | Standalone_MIPS_Emulator/MIPS_InstructionSet.cs:793-803 | BGTZL: taken on a non-zero rs, otherwise the delay slot is skipped |
| Isa.Addi | Standalone_MIPS_Emulator/MIPS_InstructionSet.cs:601-622 | ADDI: rt := rs + the zero-extended immediate, then OVF on signed overflow (`AddImmediates`) |
| Isa.Addiu | Standalone_MIPS_Emulator/MIPS_InstructionSet.cs:625-633 | ADDIU: rt := rs + the sign-extended immediate (`AddImmediates`) |
| Isa.Slti | Standalone_MIPS_Emulator/MIPS_InstructionSet.cs:636-646 | SLTI: rt := 1 when rs < the immediate, both as signed values |
| Isa.Sltiu | Standalone_MIPS_Emulator/MIPS_InstructionSet.cs:649-659 | SLTIU: rt := 1 when rs < the zero-extended immediate, unsigned (`SltiuImmediate`) |
| Isa.Andi | Standalone_MIPS_Emulator/MIPS_InstructionSet.cs:662-670 | ANDI: rt := rs & the zero-extended immediate (`LogicalImmediates`) |
| Isa.Ori | Standalone_MIPS_Emulator/MIPS_InstructionSet.cs:673-681 | ORI: rt := rs OR the zero-extended immediate (`LogicalImmediates`) |
| Isa.Xori | Standalone_MIPS_Emulator/MIPS_InstructionSet.cs:684-692 | XORI: rt := rs XOR the zero-extended immediate (`LogicalImmediates`) |
| Isa.LoadUpper | Standalone_MIPS_Emulator/MIPS_InstructionSet.cs:695-700 | LUI: rt := the immediate in the upper half over sixteen zeros (`LuiParts`) |
| Isa.Lb | Standalone_MIPS_Emulator/MIPS_InstructionSet.cs:806-813 | LB: rt := the byte at rs + offset, widened with zeros (`SignedLoadsZeroExtend`) |
| Isa.Lh | Standalone_MIPS_Emulator/MIPS_InstructionSet.cs:816-823 | LH: rt := the half-word at rs + offset, widened with zeros (`SignedLoadsZeroExtend`) |
| Isa.Lw | Standalone_MIPS_Emulator/MIPS_InstructionSet.cs:833-840 | LW: rt := the word at rs + offset (`StoreThenLoadRoundTrip`) |
| Isa.Lbu | Standalone_MIPS_Emulator/MIPS_InstructionSet.cs:843-852 | LBU: rt := the byte at rd + the zero-extended immediate |
| Isa.Lhu | Standalone_MIPS_Emulator/MIPS_InstructionSet.cs:855-864 | LHU: rt := the half-word at rd + the zero-extended immediate |
| Isa.Sb | Standalone_MIPS_Emulator/MIPS_InstructionSet.cs:874-881 | SB: the low byte of rt stored at rs + offset |
| Isa.Sh | Standalone_MIPS_Emulator/MIPS_InstructionSet.cs:884-891 | SH: the low half of rt stored at rs + offset |
| Isa.Sw | Standalone_MIPS_Emulator/MIPS_InstructionSet.cs:901-908 | SW: rt stored at rs + offset (`StoreThenLoadRoundTrip`) |
| Isa.Mfc0 | Standalone_MIPS_Emulator/MIPS_InstructionSet.cs:711-716 | MFC0 given the cell's answer: a host fault with nothing changed for a missing cell, otherwise rt := the cell's value |
| Isa.ShiftOrMoveStep | Standalone_MIPS_Emulator/MIPS_InstructionSet.cs:61-213 | the body of each shift, register-jump, conditional-move and HI/LO-move class, by class |
| Isa.MulDivStep | Standalone_MIPS_Emulator/MIPS_InstructionSet.cs:216-269 | the bodies of MULT, MULTU, DIV and DIVU, by class |
| Isa.ArithmeticStep | Standalone_MIPS_Emulator/MIPS_InstructionSet.cs:272-405 | the bodies of the register arithmetic and logic classes, with their outcomes |
| Isa.BranchStep | Standalone_MIPS_Emulator/MIPS_InstructionSet.cs:450-803 | the bodies of REGIMM and the jumps and branches, with their outcomes |
| Isa.ImmediateStep | Standalone_MIPS_Emulator/MIPS_InstructionSet.cs:601-700 | the bodies of the immediate classes, with their outcomes |
| Isa.LoadStoreStep | Standalone_MIPS_Emulator/MIPS_InstructionSet.cs:806-908 | the bodies of the loads and stores, by class |
| Instructions.Sll | Standalone_MIPS_Emulator/MIPS_InstructionSet.cs:61-68 | leaves `Isa.Sll` of the old state |
| Instructions.Srl | Standalone_MIPS_Emulator/MIPS_InstructionSet.cs:71-78 | leaves `Isa.Srl` of the old state |
| Instructions.Sra | Standalone_MIPS_Emulator/MIPS_InstructionSet.cs:81-88 | leaves `Isa.Sra` of the old state |
| Instructions.Sllv | Standalone_MIPS_Emulator/MIPS_InstructionSet.cs:92-99 | leaves `Isa.Sllv` of the old state |
| Instructions.Srlv | Standalone_MIPS_Emulator/MIPS_InstructionSet.cs:103-110 | leaves `Isa.Srlv` of the old state |
| Instructions.Srav | Standalone_MIPS_Emulator/MIPS_InstructionSet.cs:114-121 | leaves `Isa.Srav` of the old state |
| Instructions.Jr | Standalone_MIPS_Emulator/MIPS_InstructionSet.cs:124-130 | leaves `Isa.Jr` of the old state |
| Instructions.Jalr | Standalone_MIPS_Emulator/MIPS_InstructionSet.cs:133-140 | leaves `Isa.Jalr` of the old state |
| Instructions.Movz | Standalone_MIPS_Emulator/MIPS_InstructionSet.cs:143-150 | leaves `Isa.Movz` of the old state |
| Instructions.Movn | Standalone_MIPS_Emulator/MIPS_InstructionSet.cs:153-160 | leaves `Isa.Movn` of the old state |
| Instructions.Mfhi | Standalone_MIPS_Emulator/MIPS_InstructionSet.cs:184-189 | leaves `Isa.Mfhi` of the old state |
| Instructions.Mthi | Standalone_MIPS_Emulator/MIPS_InstructionSet.cs:192-197 | leaves `Isa.Mthi` of the old state |
| Instructions.Mflo | Standalone_MIPS_Emulator/MIPS_InstructionSet.cs:200-205 | leaves `Isa.Mflo` of the old state |
| Instructions.Mtlo | Standalone_MIPS_Emulator/MIPS_InstructionSet.cs:208-213 | leaves `Isa.Mtlo` of the old state |
| Instructions.Mult | Standalone_MIPS_Emulator/MIPS_InstructionSet.cs:216-224 | leaves `Isa.MultHiLo` of the old state |
| Instructions.Multu | Standalone_MIPS_Emulator/MIPS_InstructionSet.cs:227-235 | leaves `Isa.MultuHiLo` of the old state |
| Instructions.Div | Standalone_MIPS_Emulator/MIPS_InstructionSet.cs:238-252 | leaves `Isa.DivHiLo` of the old state |
| Instructions.Divu | Standalone_MIPS_Emulator/MIPS_InstructionSet.cs:255-269 | leaves `Isa.DivuHiLo` of the old state |
| Instructions.Add | Standalone_MIPS_Emulator/MIPS_InstructionSet.cs:272-293 | leaves the state and returns the outcome of `Isa.Add` |
| Instructions.Addu | Standalone_MIPS_Emulator/MIPS_InstructionSet.cs:296-304 | leaves `Isa.Addu` of the old state |
| Instructions.Sub | Standalone_MIPS_Emulator/MIPS_InstructionSet.cs:307-328 | leaves the state and returns the outcome of `Isa.Sub` |
| Instructions.Subu | Standalone_MIPS_Emulator/MIPS_InstructionSet.cs:331-339 | leaves `Isa.Subu` of the old state |
| Instructions.And | Standalone_MIPS_Emulator/MIPS_InstructionSet.cs:342-350 | leaves `Isa.And` of the old state |
| Instructions.Or | Standalone_MIPS_Emulator/MIPS_InstructionSet.cs:353-361 | leaves `Isa.Or` of the old state |
| Instructions.Xor | Standalone_MIPS_Emulator/MIPS_InstructionSet.cs:364-372 | leaves `Isa.Xor` of the old state |
| Instructions.Nor | Standalone_MIPS_Emulator/MIPS_InstructionSet.cs:375-381 | leaves `Isa.Nor` of the old state |
| Instructions.Slt | Standalone_MIPS_Emulator/MIPS_InstructionSet.cs:384-393 | leaves `Isa.Slt` of the old state |
| Instructions.Sltu | Standalone_MIPS_Emulator/MIPS_InstructionSet.cs:396-405 | leaves `Isa.Sltu` of the old state |
| Instructions.Regimm | Standalone_MIPS_Emulator/MIPS_InstructionSet.cs:450-535 | leaves the state and returns the outcome of `Isa.Regimm` |
| Instructions.TakeBranch | Standalone_MIPS_Emulator/MIPS_InstructionSet.cs:462-466 | leaves `Isa.TakeBranch` of the old state: the target from PC and the immediate, the delay flag set |
| Instructions.J | Standalone_MIPS_Emulator/MIPS_InstructionSet.cs:538-544 | leaves `Isa.Jump` of the old state |
| Instructions.Jal | Standalone_MIPS_Emulator/MIPS_InstructionSet.cs:547-554 | leaves `Isa.Jal` of the old state |
| Instructions.Beq | Standalone_MIPS_Emulator/MIPS_InstructionSet.cs:557-565 | leaves `Isa.Beq` of the old state |
| Instructions.Bne | Standalone_MIPS_Emulator/MIPS_InstructionSet.cs:568-576 | leaves `Isa.Bne` of the old state |
| Instructions.Blez | Standalone_MIPS_Emulator/MIPS_InstructionSet.cs:579-587 | leaves `Isa.Blez` of the old state |
| Instructions.Bgtz | Standalone_MIPS_Emulator/MIPS_InstructionSet.cs:590-598 | leaves `Isa.Bgtz` of the old state |
| Instructions.Beql | Standalone_MIPS_Emulator/MIPS_InstructionSet.cs:747-757 | leaves `Isa.Beql` of the old state |
| Instructions.Bnel | Standalone_MIPS_Emulator/MIPS_InstructionSet.cs:760-770 | leaves `Isa.Bnel` of the old state |
| Instructions.Blezl | Standalone_MIPS_Emulator/MIPS_InstructionSet.cs:773-783 | leaves `Isa.Blezl` of the old state |
| Instructions.Bgtzl | Standalone_MIPS_Emulator/MIPS_InstructionSet.cs:793-803 | leaves `Isa.Bgtzl` of the old state |
| Instructions.Addi | Standalone_MIPS_Emulator/MIPS_InstructionSet.cs:601-622 | leaves the state and returns the outcome of `Isa.Addi` |
| Instructions.Addiu | Standalone_MIPS_Emulator/MIPS_InstructionSet.cs:625-633 | leaves `Isa.Addiu` of the old state |
| Instructions.Slti | Standalone_MIPS_Emulator/MIPS_InstructionSet.cs:636-646 | leaves `Isa.Slti` of the old state |
| Instructions.Sltiu | Standalone_MIPS_Emulator/MIPS_InstructionSet.cs:649-659 | leaves `Isa.Sltiu` of the old state |
| Instructions.Andi | Standalone_MIPS_Emulator/MIPS_InstructionSet.cs:662-670 | leaves `Isa.Andi` of the old state |
| Instructions.Ori | Standalone_MIPS_Emulator/MIPS_InstructionSet.cs:673-681 | leaves `Isa.Ori` of the old state |
| Instructions.Xori | Standalone_MIPS_Emulator/MIPS_InstructionSet.cs:684-692 | leaves `Isa.Xori` of the old state |
| Instructions.Lui | Standalone_MIPS_Emulator/MIPS_InstructionSet.cs:695-700 | leaves `Isa.LoadUpper` of the old state |
| Instructions.Lb | Standalone_MIPS_Emulator/MIPS_InstructionSet.cs:806-813 | leaves `Isa.Lb` of the old state |
| Instructions.Lh | Standalone_MIPS_Emulator/MIPS_InstructionSet.cs:816-823 | leaves `Isa.Lh` of the old state |
| Instructions.Lw | Standalone_MIPS_Emulator/MIPS_InstructionSet.cs:833-840 | leaves `Isa.Lw` of the old state |
| Instructions.Lbu | Standalone_MIPS_Emulator/MIPS_InstructionSet.cs:843-852 | leaves `Isa.Lbu` of the old state |
| Instructions.Lhu | Standalone_MIPS_Emulator/MIPS_InstructionSet.cs:855-864 | leaves `Isa.Lhu` of the old state |
| Instructions.Sb | Standalone_MIPS_Emulator/MIPS_InstructionSet.cs:874-881 | leaves `Isa.Sb` of the old state |
| Instructions.Sh | Standalone_MIPS_Emulator/MIPS_InstructionSet.cs:884-891 | leaves `Isa.Sh` of the old state |
| Instructions.Sw | Standalone_MIPS_Emulator/MIPS_InstructionSet.cs:901-908 | leaves `Isa.Sw` of the old state |
| Instructions.MoveFrom | Standalone_MIPS_Emulator/MIPS_InstructionSet.cs:711-716 | MFC0: the cell numbered by GPR[rd]'s value into rt, as `Isa.Mfc0` gives; a host fault for an unpopulated cell; no CP0 cell changes |
| Instructions.MoveTo | Standalone_MIPS_Emulator/MIPS_InstructionSet.cs:720-724 | MTC0: a host fault exactly for an unpopulated cell; otherwise the cell numbered by the rd field takes the one-argument write of GPR[rt], no other cell changes, and no register changes; a default cell holding 0 still holds 0 (`ZeroCellWrite`) |
| Instructions.Cop0 | Standalone_MIPS_Emulator/MIPS_InstructionSet.cs:702-730 | rs = 0 is MFC0, rs = 4 is MTC0, and any other rs raises CPU with nothing changed; a default cell holding 0 still holds 0 |
| Instructions.Unimplemented | Standalone_MIPS_Emulator/MIPS_InstructionSet.cs:162-181 | the shared body of the unimplemented classes raises UNIMPLEMENTED |
| Instructions.ReservedInstruction | Standalone_MIPS_Emulator/MIPS_CPU.cs:247 | the stand-in for the absent `MIPS_RESERVED_INST` class: it raises RI and changes nothing |
| Instructions.ExecuteShiftsAndMoves | Standalone_MIPS_Emulator/MIPS_InstructionSet.cs:61-213 | the shift, register-jump, conditional-move and HI/LO-move classes: the state is `Isa.ShiftOrMoveStep` of the old state, the outcome Completed; every CP0 cell is kept |
| Instructions.ExecuteMulDiv | Standalone_MIPS_Emulator/MIPS_InstructionSet.cs:216-269 | MULT, MULTU, DIV and DIVU: the state is `Isa.MulDivStep` of the old state, the outcome Completed (a throwing division is caught); every CP0 cell is kept |
| Instructions.ExecuteArithmetic | Standalone_MIPS_Emulator/MIPS_InstructionSet.cs:272-405 | the register arithmetic and logic classes: state and outcome are those of `Isa.ArithmeticStep`; only ADD and SUB raise; every CP0 cell is kept |
| Instructions.ExecuteBranches | Standalone_MIPS_Emulator/MIPS_InstructionSet.cs:450-803 | REGIMM and the jumps and branches of the opcode table: state and outcome are those of `Isa.BranchStep`; only REGIMM raises; every CP0 cell is kept |
| Instructions.ExecuteImmediates | Standalone_MIPS_Emulator/MIPS_InstructionSet.cs:601-700 | the immediate classes: state and outcome are those of `Isa.ImmediateStep`; only ADDI raises; every CP0 cell is kept |
| Instructions.ExecuteLoadsAndStores | Standalone_MIPS_Emulator/MIPS_InstructionSet.cs:806-908 | the loads and stores: the state is `Isa.LoadStoreStep` of the old state, the outcome Completed; every CP0 cell is kept |
| Instructions.ExecuteRegisterForms | Standalone_MIPS_Emulator/MIPS_CPU.cs:579 | the funct-table classes: never faults the host, raises only if the class can throw, and leaves every CP0 cell as it was |
| Instructions.ExecuteOpcodeForms | Standalone_MIPS_Emulator/MIPS_CPU.cs:590-612 | the implemented opcode and REGIMM classes: never faults the host, raises only if the class can throw, and leaves every CP0 cell as it was |
| Instructions.ExecuteImplemented | Standalone_MIPS_Emulator/MIPS_CPU.cs:570-615 | every class other than COP0, the reserved opcode and the unimplemented ones: never faults the host, raises only if the class can throw, and leaves every CP0 cell as it was |
| Instructions.Execute | Standalone_MIPS_Emulator/MIPS_CPU.cs:570-615 | only COP0 can fault the host; only ADD, SUB, ADDI, REGIMM, COP0, the reserved opcode and the unimplemented classes can raise; unimplemented classes raise UNIMPLEMENTED with no state change; the reserved opcode raises RI; only COP0 changes CP0, and no class changes a default cell holding 0 |
| Cpu.Slice | Standalone_MIPS_Emulator/MIPS_CPU.cs:533-540 | `(IR & mask) >> shift` of `decode`; `RTypeSlices` and `DecodeEncodeR`/`I`/`J` state that the slices recover the word |
| Cpu.Narrow | Standalone_MIPS_Emulator/MIPS_CPU.cs:533-538 | the `(byte)` cast of a decoded slice below 256 keeps its value |
| Cpu.Decode | Standalone_MIPS_Emulator/MIPS_CPU.cs:531-543 | the fields are in range: opcode and funct below 64, rs, rt, rd and shamt below 32 |
| Cpu.RTypeSlices | Standalone_MIPS_Emulator/MIPS_CPU.cs:55-70 | the six R-type masks and shifts cover the word without overlap |
| Cpu.DecodeJumpIndex | Standalone_MIPS_Emulator/MIPS_CPU.cs:540 | the jump index is the low 26 bits of the word |
| Cpu.DecodeImmediate | Standalone_MIPS_Emulator/MIPS_CPU.cs:539 | the immediate is the low 16 bits of the word |
| Cpu.DecodeEncodeR | Standalone_MIPS_Emulator/MIPS_CPU.cs:531-543 | reassembling the R-type fields gives back the word |
| Cpu.DecodeEncodeI | Standalone_MIPS_Emulator/MIPS_CPU.cs:531-543 | reassembling opcode, rs, rt and the immediate gives back the word |
| Cpu.DecodeEncodeJ | Standalone_MIPS_Emulator/MIPS_CPU.cs:531-543 | reassembling opcode and the jump index gives back the word |
| Cpu.FunctTable | Standalone_MIPS_Emulator/MIPS_CPU.cs:169-206 | the `funct` table as `initialize_InstructionSet` fills it; `FunctHome` and `HomeHolds` state which class each slot holds |
| Cpu.RegimmTable | Standalone_MIPS_Emulator/MIPS_CPU.cs:209-217 | the `regimm` table: slots 0-3 and 0x10-0x13 (`RoutedOpcodes`) |
| Cpu.Cop0Table | Standalone_MIPS_Emulator/MIPS_CPU.cs:220-222 | the `cop0` table: slots 0 and 4 (`RoutedOpcodes`) |
| Cpu.OpcodeTable | Standalone_MIPS_Emulator/MIPS_CPU.cs:225-267 | the `opcode` table; `OpcodeHome` and `HomeHolds` state which class each slot holds |
| Cpu.Lookup | Standalone_MIPS_Emulator/MIPS_CPU.cs:570-615 | the table entry `execute` reads at a slot; `HomeHolds`, `FunctHome` and `OpcodeHome` state which class each slot holds |
| Cpu.Route | Standalone_MIPS_Emulator/MIPS_CPU.cs:570-615 | the slot `execute` indexes always lies in its 64-entry table |
| Cpu.Dispatch | Standalone_MIPS_Emulator/MIPS_CPU.cs:570-615 | the table entry `execute` calls; `RoutedOpcodes` and `DispatchOnlyAtHome` state which word reaches which class |
| Cpu.OneSlotPerClass | Standalone_MIPS_Emulator/MIPS_CPU.cs:167-268 | each class other than REGIMM and COP0 is stored in one table slot only |
| Cpu.FunctHome | Standalone_MIPS_Emulator/MIPS_CPU.cs:169-206 | every filled funct slot holds the class whose home slot it is |
| Cpu.OpcodeHome | Standalone_MIPS_Emulator/MIPS_CPU.cs:225-267 | every filled opcode slot holds the class whose home slot it is |
| Cpu.Home | Standalone_MIPS_Emulator/MIPS_CPU.cs:167-268 | the home slot of each class lies inside its 64-entry table |
| Cpu.HomeHolds | Standalone_MIPS_Emulator/MIPS_CPU.cs:167-268 | every class, REGIMM and COP0 included, is stored at its home slot, so the tables reach every class |
| Cpu.RoutedOpcodes | Standalone_MIPS_Emulator/MIPS_CPU.cs:570-615 | opcodes 0, 1 and 0x10 never reach the opcode table; REGIMM dispatches exactly for rt in 0-3 and 0x10-0x13, COP0 exactly for rs 0 and 4 |
| Cpu.DispatchOnlyAtHome | Standalone_MIPS_Emulator/MIPS_CPU.cs:570-615 | a word that dispatches to a class other than REGIMM and COP0 reaches it at its home slot, through the funct or the opcode table |
| Cpu.Redirect | Standalone_MIPS_Emulator/MIPS_CPU.cs:488-494 | with a pending branch, both flags are cleared and PC is the branch target |
| Cpu.Advance | Standalone_MIPS_Emulator/MIPS_CPU.cs:496-505 | reading IR and advancing PC leave both branch flags as they were |
| Cpu.FetchNext | Standalone_MIPS_Emulator/MIPS_CPU.cs:484-526 | `fetch` on the machine value; `FetchInSequence`, `FetchAtTarget` and `OneDelaySlot` state what it does |
| Cpu.FetchInSequence | Standalone_MIPS_Emulator/MIPS_CPU.cs:507-525 | with no pending branch, IR is the word at PC, PC advances by 4, and the delay flag becomes the pending branch |
| Cpu.FetchAtTarget | Standalone_MIPS_Emulator/MIPS_CPU.cs:488-506 | with a pending branch, IR is the word at the target, PC is target + 4, both flags are cleared, registers and target unchanged |
| Cpu.OneDelaySlot | Standalone_MIPS_Emulator/MIPS_CPU.cs:484-526 | after a branch sets the delay flag, the next fetch reads the slot after it and the one after that reads the branch target |
| Cpu.ReadBits | Standalone_MIPS_Emulator/MIPS_CPU.cs:621-630 | `readBits`; `ExlTest`, `KernelTestNeverFires` and `InstructionIntDropped` state what its tests in the entry read |
| Cpu.VectorOffset | Standalone_MIPS_Emulator/MIPS_CPU.cs:363-378 | the entry's choice of vector offset; `VectorOffsets` states it case by case |
| Cpu.HwWrite | Standalone_MIPS_Emulator/MIPS_CPU.cs:353-394 | `setRegisterHW` on a cell of the reset table; `EntryCellsLocked` states that on Status, Cause and (30,0) it changes nothing |
| Cpu.Dropped | Standalone_MIPS_Emulator/MIPS_CPU.cs:325-343 | the three INT drop tests of `serviceints`; `InstructionIntDropped`, `KernelTestNeverFires` and `ResetEntry` state when they fire |
| Cpu.ExlClear | Standalone_MIPS_Emulator/MIPS_CPU.cs:350 | the entry's test that Status.EXL reads 0; `ExlTest` states that it reads Status bit 4 |
| Cpu.SaveEpc | Standalone_MIPS_Emulator/MIPS_CPU.cs:348-384 | the EPC and Cause.BD block and the offset it picks; `SaveEpcKeeps` states that it writes nothing and picks `VectorOffset` of the registers as they were |
| Cpu.RecordCause | Standalone_MIPS_Emulator/MIPS_CPU.cs:386-394 | the Cause.CE, ExcCode and Status.EXL block; `RecordCauseKeeps` states that it writes nothing |
| Cpu.Vector | Standalone_MIPS_Emulator/MIPS_CPU.cs:397-402 | the handler address: the offset from 0xBFC00200 when Status.BEV reads 1, from 0x80000000 otherwise; `ResetEntry` states it for the reset registers |
| Cpu.Inc64 | Standalone_MIPS_Emulator/MIPS_CPU.cs:296 | `cyclecount++` on the 64-bit counter, modulo 2^64; `Account` and `Step` state when it is applied |
| Cpu.Service | Standalone_MIPS_Emulator/MIPS_CPU.cs:316-478 | `serviceints` on the machine, the three CP0 registers and the queue; `ServiceClosedForm` equates it with `Serviced` |
| Cpu.Serviced | Standalone_MIPS_Emulator/MIPS_CPU.cs:316-478 | the closed form of servicing; `ServiceClosedForm` and `ResetEntry` state it |
| Cpu.KernelTestNeverFires | Standalone_MIPS_Emulator/MIPS_CPU.cs:339-342 | the EXL and ERL tests read 0 or 8 and 0 or 0x40, so the third drop test never fires |
| Cpu.ExlTest | Standalone_MIPS_Emulator/MIPS_CPU.cs:350 | the entry's EXL test reads Status bit 4 |
| Cpu.InstructionIntDropped | Standalone_MIPS_Emulator/MIPS_CPU.cs:333-336 | an INT raised by an instruction has interrupt number 0, so its IM test shifts by 31 and drops it whatever Status holds |
| Cpu.VectorOffsets | Standalone_MIPS_Emulator/MIPS_CPU.cs:363-378 | the offset is 0 exactly for TLBL and TLBS with EXL clear; 0x200 exactly for INT with EXL clear and Cause bit 23 set; 0x180 otherwise |
| Cpu.EntryCellsLocked | Standalone_MIPS_Emulator/MIPS_CPC0.cs:127-155 | Status, Cause and (30,0) are all-LOCKED, so the entry's hardware writes leave them as they were |
| Cpu.SaveEpcKeeps | Standalone_MIPS_Emulator/MIPS_CPU.cs:348-384 | the EPC and Cause.BD block writes nothing and picks the offset from the registers as they were |
| Cpu.RecordCauseKeeps | Standalone_MIPS_Emulator/MIPS_CPU.cs:386-394 | the Cause.CE, ExcCode and Status.EXL block writes nothing |
| Cpu.ServiceClosedForm | Standalone_MIPS_Emulator/MIPS_CPU.cs:316-478 | servicing never changes the three CP0 registers and touches nothing of the machine but PC and the two branch flags |
| Cpu.ResetEntry | Standalone_MIPS_Emulator/MIPS_CPU.cs:316-406 | with the reset registers, a queued INT is dropped; TLBL and TLBS vector to 0x80000000; every other code vectors to 0x80000180 with both branch flags cleared |
| Cpu.Ran | Standalone_MIPS_Emulator/MIPS_CPU.cs:272-309 | a run of `start`: one result per iteration, no iteration before the last halted, and the run halted exactly when its last iteration did |
| Cpu.RanNext | Standalone_MIPS_Emulator/MIPS_CPU.cs:272-309 | a run that has not halted, extended by one more iteration, is a run that halted exactly when that iteration did |
| Cpu.ResetGprs | Standalone_MIPS_Emulator/MIPS_CPU.cs:143-153 | 32 registers; r0 is 0; SP and FP hold 0x10010000 |
| Cpu.Processor.constructor | Standalone_MIPS_Emulator/MIPS_CPU.cs:119-163 | PC, IR, HI, LO and the target are 0; both flags are clear; the GPRs are `ResetGprs`; memory and queue are empty; the count is 0; Status, Cause and (30,0) read 0 |
| Cpu.Processor.Wire | Standalone_MIPS_Emulator/MIPS_CPU.cs:122-159 | fresh handles: a context over the reset state and bank, and an IR cell apart from them |
| Cpu.Processor.ResetBank | Standalone_MIPS_Emulator/MIPS_CPU.cs:134-135 | a fresh bank at reset, with Status, Cause and (30,0) reading 0 |
| Cpu.Processor.Cells | Standalone_MIPS_Emulator/MIPS_CPU.cs:123-153 | PC, IR, HI, LO and the target are distinct zero cells; the 32 register cells are distinct, r0 muted, and hold `ResetGprs` |
| Cpu.Processor.ResetFile | Standalone_MIPS_Emulator/MIPS_CPU.cs:143-153 | the register file with SP and FP set to 0x10010000 |
| Cpu.Processor.RegisterFile | Standalone_MIPS_Emulator/MIPS_CPU.cs:143-149 | a muted r0 holding 0, then 31 new writable registers holding 0 |
| Cpu.Processor.Fetch | Standalone_MIPS_Emulator/MIPS_CPU.cs:484-526 | the new state, IR and pending-branch flag are those of `FetchNext` |
| Cpu.Processor.Jump | Standalone_MIPS_Emulator/MIPS_CPU.cs:488-494 | with a pending branch, both flags are cleared and PC takes the branch target; otherwise nothing changes |
| Cpu.Processor.Disarm | Standalone_MIPS_Emulator/MIPS_CPU.cs:490 | `branch = false` changes nothing the context reaches |
| Cpu.Processor.ToTarget | Standalone_MIPS_Emulator/MIPS_CPU.cs:491-494 | the delay flag is cleared and PC takes the branch target, nothing else |
| Cpu.Processor.Arm | Standalone_MIPS_Emulator/MIPS_CPU.cs:523-525 | a set delay flag marks a pending branch; nothing else changes |
| Cpu.Processor.LoadIr | Standalone_MIPS_Emulator/MIPS_CPU.cs:496-505 | IR is the word at PC, and PC advances by 4 |
| Cpu.Processor.SetIr | Standalone_MIPS_Emulator/MIPS_CPU.cs:496 | IR takes the word; nothing the context reaches changes |
| Cpu.Processor.ReadAtPc | Standalone_MIPS_Emulator/MIPS_CPU.cs:509-518 | returns the word at PC, and PC advances by 4 |
| Cpu.Processor.DecodeIr | Standalone_MIPS_Emulator/MIPS_CPU.cs:531-543 | the context's fields are `Decode(IR)`; the machine is unchanged |
| Cpu.Processor.ReadCp0 | Standalone_MIPS_Emulator/MIPS_CPU.cs:327 | `getRegister(reg, 0)` for Status, Cause and (30,0) |
| Cpu.Processor.WriteCp0 | Standalone_MIPS_Emulator/MIPS_CPU.cs:353-394 | a `setRegisterHW` of Status, Cause or (30,0) changes only that register; on these locked cells it changes nothing |
| Cpu.Processor.StoreEpc | Standalone_MIPS_Emulator/MIPS_CPU.cs:348-384 | the first entry block returns `VectorOffset` of the registers as they were |
| Cpu.Processor.MarkEntry | Standalone_MIPS_Emulator/MIPS_CPU.cs:350-375 | with EXL clear, returns the offset chosen after the EPC and BD writes |
| Cpu.Processor.MarkDelay | Standalone_MIPS_Emulator/MIPS_CPU.cs:351-362 | the EPC and BD writes by the delay flag leave the state and the three registers |
| Cpu.Processor.EntryOffset | Standalone_MIPS_Emulator/MIPS_CPU.cs:363-374 | the offset is `VectorOffset` of Status, Cause and the code |
| Cpu.Processor.StoreCause | Standalone_MIPS_Emulator/MIPS_CPU.cs:386-394 | the three registers become `RecordCause` of their old values |
| Cpu.Processor.ServiceInts | Standalone_MIPS_Emulator/MIPS_CPU.cs:316-478 | state, branch flag, CP0 registers and queue are those of `Serviced`, the closed form of servicing |
| Cpu.Processor.Dequeue | Standalone_MIPS_Emulator/MIPS_CPU.cs:318 | returns the queue's head and removes it |
| Cpu.Processor.Take | Standalone_MIPS_Emulator/MIPS_CPU.cs:324-406 | a dropped exception changes nothing; any other moves PC to the vector and clears both flags |
| Cpu.Processor.Rejects | Standalone_MIPS_Emulator/MIPS_CPU.cs:324-343 | the three interrupt tests decide `Dropped` |
| Cpu.Processor.Enter | Standalone_MIPS_Emulator/MIPS_CPU.cs:345-406 | PC is at the vector chosen by Status and Cause; both flags are cleared; the registers keep their values |
| Cpu.Processor.Handoff | Standalone_MIPS_Emulator/MIPS_CPU.cs:396-406 | PC at the handler and both flags cleared, nothing else |
| Cpu.Processor.Record | Standalone_MIPS_Emulator/MIPS_CPU.cs:345-402 | returns the handler address: BEV picks base 0xBFC00200 or 0x80000000, plus the offset |
| Cpu.Processor.Start | Standalone_MIPS_Emulator/MIPS_CPU.cs:272-309 | iterations of `Step` until one halts, at most `fuel` of them: `Ran` holds of the returned trace, so the loop stops at the first `Halted` (the `catch (Exception) { return; }`) and only there, or when the fuel runs out; `views` holds the three CP0 registers after each iteration, and from reset every one of them reads 0, so `ResetEntry` describes every servicing of the run |
| Cpu.Processor.Step | Standalone_MIPS_Emulator/MIPS_CPU.cs:272-309 | one iteration: IR is the word fetched after servicing; a raised exception joins the back of the queue; the count advances exactly for a retired instruction; an empty slot halts; only an empty slot or COP0 halts; Status, Cause and (30,0) that read 0 still read 0 afterwards |
| Cpu.Processor.Front | Standalone_MIPS_Emulator/MIPS_CPU.cs:283-289 | servicing, fetch and decode: PC, the flags, the branch target, memory and IR are those `FetchNext` leaves after `Serviced`; CP0 and the queue are those of `Serviced`; the fields are `Decode(IR)` |
| Cpu.Processor.ServeFetch | Standalone_MIPS_Emulator/MIPS_CPU.cs:283-286 | servicing then fetch: the machine is `FetchNext` of what `Serviced` leaves; CP0 and the queue are those of `Serviced` |
| Cpu.Processor.Run | Standalone_MIPS_Emulator/MIPS_CPU.cs:570-615 | `execute` of a table entry: only COP0 faults the host; only classes that can throw raise; Status, Cause and (30,0) that read 0 still read 0 |
| Cpu.Processor.Back | Standalone_MIPS_Emulator/MIPS_CPU.cs:292-302 | `execute` on the decoded fields, then the loop's bookkeeping, by the dispatched entry; Status, Cause and (30,0) that read 0 still read 0 |
| Cpu.Processor.Account | Standalone_MIPS_Emulator/MIPS_CPU.cs:296-307 | a completed instruction is counted (modulo 2^64); a `MIPS_Exception` is enqueued; a host exception halts |

## Left out

- Loading programs: `loadText`, `loadFile`, `elfLoader` and their helper `byteArrayToUInt32` (MIPS_CPU.cs:646-741) read files or call the ELF library. Memory here starts empty.
- Console output: the `#if MIPS_DEBUG_CPU` blocks, `printGPRRegisters` and `printCPC0Registers`.
- The UART device, `MIPS_Main` and the console. A device is its identity, its claimed addresses and a fixed `respond` function from its access history to the byte a read returns. The memory keeps each device's history and initialisation count by identity.
- `initDevice`, the device's own read and store code, and the `MIPS_MemoryMappedIO` interface are not part of this model.
- The interrupt queue is a `seq` used as a FIFO. Producers on other threads (`ConcurrentQueue`) are not modelled.
- `start` is `Processor.Start`: iterations of `Processor.Step` until one halts, for at most `fuel` of them. The unbounded `while (true)` is not modelled, and nothing is claimed about termination.
- `start` (MIPS_CPU.cs:283-292) calls `fetch`, `decode` and `execute` after `serviceints` whatever `serviceints` did. The model's iteration does the same: an iteration that takes an exception still fetches from the handler address.
- `MIPS_Boolean`, `MIPS_Coprocessor`, `setRegisterHW`, `getIntNumber`, `MIPS_RESERVED_INST` and the `MIPS_BLTZ` .. `MIPS_BGEZALL` and `MIPS_MFC0`/`MIPS_MTC0` classes are not part of this model's source files. Their stand-ins:
  - `Context.Flag` for the shared boolean;
  - the context's `cp0` handle for `getCoprocessors()[0]`;
  - `SetRegisterHW` as the hardware-mode write of the two-mode register class, under the cell's policy;
  - an `intNumber` field of the exception (0 for exceptions raised by instructions);
  - the reserved opcode raising RI;
  - every REGIMM slot holding the `MIPS_REGIMM` body, and COP0 slots 0 and 4 holding `MIPS_COP0`.
- The `switch` on the exception code at the end of `serviceints` does nothing for any code and is left out. So are its enumerators that `MIPS_Exception` lacks (`ADEL`, `TRAP`, `FPE`, ...).
- Paging.Memory: its page table maps each page key to the frame's bytes as a value, and `MemoryPage` models a single `MIPS_MemoryPage` on its own. The C# table holds page objects by reference, but no other object holds one, so the model does not represent that reference. The base address and flags of a page that `Memory` creates are not kept either, because no read or store uses them.
- The processor's PC, HI, LO, branch target, delay flag, register file, memory and CP0 are reached through its context, the same objects the C# shares by reference. The processor holds no second copy.
- Instructions.ExecuteRegisterForms, ExecuteOpcodeForms, ExecuteImplemented and Execute: these dispatchers state the possible outcomes and that CP0 is kept, not the new state. The new state is stated one level down: each group method (`ExecuteShiftsAndMoves`, `ExecuteMulDiv`, `ExecuteArithmetic`, `ExecuteBranches`, `ExecuteImmediates`, `ExecuteLoadsAndStores`) leaves its `Isa` group step, and each class method leaves its own `Isa` function.
- Cpu.Processor.Step, Back and Run: their contracts state IR, the queue, the cycle count, the halting and raising cases, and that Status, Cause and (30,0) keep reading 0. They do not state the general registers, HI, LO, PC and memory after `execute`. Those depend on the class dispatched, and the group methods of `Instructions` state them.
- Cp0Bank.Cpc0.SetRegisterHW: its hardware-mode write is a stand-in for a bank method not part of this model's source files.
- Floating point, TLB and caches are not implemented by the emulator either (COP1, COP2 and CACHE raise UNIMPLEMENTED).
