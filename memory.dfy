/**
 * The memory system of the emulator.
 *
 *  - `MemoryPage` is MIPS_MemoryPage: a 4096-byte frame addressed by the
 *    low 12 bits of the address.
 *  - `Device` stands for a memory-mapped device (MIPS_MemoryMappedIO).
 *  - `Memory` is MIPS_Memory: a page table that allocates zero-filled
 *    frames on demand, on reads as well as on stores, and a device table
 *    that intercepts the addresses a device has claimed.  Half-words and
 *    words are big-endian and their byte addresses wrap around at 2^32.
 *
 * The memory's state is also given as a value (`MemState`), and every
 * memory operation is proved to compute the function on that value named
 * after it; the properties are proved about those functions.
 */
module Paging {
  import opened Words

  // ---------------------------------------------------------------------
  // Addresses

  /** The byte of its frame an address selects: `address & pagemask`. */
  function Offset(a: bv32): (o: int)
    ensures 0 <= o < 4096
  {
    (a & 0xFFF) as int
  }

  /** A key of the page and device tables: the address, boxed as the
      Hashtable boxes its uint keys. */
  datatype Key = Key(bits: bv32)

  /** The page-table key of an address: `address & 0xFFFFF000`. */
  function Base(a: bv32): Key
  {
    Key(a & 0xFFFF_F000)
  }

  lemma {:induction false} WordToInt(x: bv32)
    ensures (x as int) as bv32 == x
  {
  }

  /** Addresses select the same byte of a frame exactly when they agree on
      their low 12 bits: addresses 4096 apart alias one byte. */
  lemma {:induction false} OffsetAlias(a: bv32, b: bv32)
    ensures Offset(a) == Offset(b) <==> a & 0xFFF == b & 0xFFF
  {
    if Offset(a) == Offset(b) {
      WordToInt(a & 0xFFF);
      WordToInt(b & 0xFFF);
    }
  }

  /** The key and the offset determine the address. */
  lemma {:induction false} SameByte(a: bv32, b: bv32)
    requires Base(a) == Base(b) && Offset(a) == Offset(b)
    ensures a == b
  {
    OffsetAlias(a, b);
  }

  // ---------------------------------------------------------------------
  // MIPS_MemoryPage

  /** A zero-filled frame. */
  function Zeros(): (z: seq<bv8>)
    ensures |z| == 4096 && forall i :: 0 <= i < 4096 ==> z[i] == 0
  {
    seq(4096, _ => 0)
  }

  class MemoryPage {
    const addrbase: bv32
    const flags: bv8
    const memory: array<bv8>

    /** The frame is allocated zeroed; the base address and the flags are
        stored as given (the memory passes the full address, not its key). */
    constructor (addrbase: bv32, flags: bv8)
      ensures this.addrbase == addrbase && this.flags == flags
      ensures fresh(memory) && memory[..] == Zeros()
    {
      this.addrbase := addrbase;
      this.flags := flags;
      memory := new bv8[4096](_ => 0);
    }

    function ReadByte(address: bv32): (b: bv8)
      requires memory.Length == 4096
      reads memory
      ensures b == memory[..][Offset(address)]
    {
      memory[Offset(address)]
    }

    method WriteByte(address: bv32, value: bv8)
      requires memory.Length == 4096
      modifies memory
      ensures memory[..] == old(memory[..])[Offset(address) := value]
    {
      memory[Offset(address)] := value;
    }
  }

  /** A write followed by a read of the same address returns the byte
      written, and leaves every other byte of the frame as it was. */
  lemma {:induction false} PageWriteRead(frame: seq<bv8>, a: bv32, v: bv8, b: bv32)
    requires |frame| == 4096
    ensures frame[Offset(a) := v][Offset(a)] == v
    ensures a & 0xFFF != b & 0xFFF ==> frame[Offset(a) := v][Offset(b)] == frame[Offset(b)]
  {
    OffsetAlias(a, b);
  }

  // ---------------------------------------------------------------------
  // Devices

  /** One access a device has received. */
  datatype Access = Load(address: bv32) | Store(address: bv32, value: bv8)

  /** A memory-mapped device.  What a device does is not part of this
      model: a device is its identity, the addresses it claims, and a fixed
      function that gives the byte a read returns after a given history of
      accesses.  The history itself, and how often the device has been
      initialised, are kept by the memory under the device's identity. */
  datatype Device = Device(id: nat, addresses: seq<bv32>, respond: (seq<Access>, bv32) -> bv8)

  // ---------------------------------------------------------------------
  // The state of MIPS_Memory as a value

  /** The frames by key, the device table, and the history of accesses of
      every device, by device identity. */
  datatype MemState = MemState(pages: map<Key, seq<bv8>>, claims: map<Key, Device>,
                               logs: map<nat, seq<Access>>)

  /** Every frame has 4096 bytes. */
  predicate Wf(s: MemState)
  {
    forall k :: k in s.pages ==> |s.pages[k]| == 4096
  }

  function LogOf(s: MemState, d: Device): seq<Access>
  {
    if d.id in s.logs then s.logs[d.id] else []
  }

  /** The frame table after the frame of address a has been looked up:
      a missing frame is added zero-filled. */
  function Touch(pages: map<Key, seq<bv8>>, a: bv32): (p: map<Key, seq<bv8>>)
    ensures Base(a) in p && p.Keys == pages.Keys + {Base(a)}
  {
    if Base(a) in pages then pages else pages[Base(a) := Zeros()]
  }

  /** The frame of address a, zero-filled where none exists yet. */
  function Frame(pages: map<Key, seq<bv8>>, a: bv32): (f: seq<bv8>)
    ensures |f| == 4096
  {
    if Base(a) in pages && |pages[Base(a)]| == 4096 then pages[Base(a)] else Zeros()
  }

  /** The byte paged memory holds at address a: 0 where no frame exists. */
  function PageByte(pages: map<Key, seq<bv8>>, a: bv32): bv8
  {
    Frame(pages, a)[Offset(a)]
  }

  /** `ReadByte`: the claiming device's answer, or the paged byte (after
      allocating its frame). */
  function ByteRead(s: MemState, a: bv32): (r: (bv8, MemState))
    ensures r.1.claims == s.claims
    ensures Wf(s) ==> Wf(r.1)
  {
    if Key(a) in s.claims then
      var d := s.claims[Key(a)];
      (d.respond(LogOf(s, d), a), s.(logs := s.logs[d.id := LogOf(s, d) + [Load(a)]]))
    else
      (PageByte(s.pages, a), s.(pages := Touch(s.pages, a)))
  }

  /** `StoreByte`: the store goes to the claiming device, or into the frame
      (allocated first if missing). */
  function ByteStore(s: MemState, a: bv32, v: bv8): (r: MemState)
    requires Wf(s)
    ensures Wf(r) && r.claims == s.claims
  {
    if Key(a) in s.claims then
      var d := s.claims[Key(a)];
      s.(logs := s.logs[d.id := LogOf(s, d) + [Store(a, v)]])
    else
      s.(pages := s.pages[Base(a) := Frame(s.pages, a)[Offset(a) := v]])
  }

  /** `ReadHalf`: bytes a and a + 1, the first one most significant. */
  function HalfRead(s: MemState, a: bv32): (bv16, MemState)
  {
    var (b0, s1) := ByteRead(s, a);
    var (b1, s2) := ByteRead(s1, a + 1);
    (((b0 as bv16) << 8) | (b1 as bv16), s2)
  }

  /** `ReadWord`: bytes a .. a + 3, the first one most significant. */
  function WordRead(s: MemState, a: bv32): (bv32, MemState)
  {
    var (b0, s1) := ByteRead(s, a);
    var (b1, s2) := ByteRead(s1, a + 1);
    var (b2, s3) := ByteRead(s2, a + 2);
    var (b3, s4) := ByteRead(s3, a + 3);
    (BigEndian(b0, b1, b2, b3), s4)
  }

  /** The word whose bytes, most significant first, are b0 .. b3: the
      shift-and-or of `ReadWord`. */
  function BigEndian(b0: bv8, b1: bv8, b2: bv8, b3: bv8): bv32
  {
    ((((((b0 as bv32) << 8) | b1 as bv32) << 8) | b2 as bv32) << 8) | b3 as bv32
  }

  /** The `(byte)` cast: the low 8 bits. */
  function HalfByte(v: bv16): bv8
  {
    (v & 0xFF) as bv8
  }

  function WordByte(w: bv32): bv8
  {
    (w & 0xFF) as bv8
  }

  /** `StoreHalf`: the high byte at a, the low byte at a + 1. */
  function HalfStore(s: MemState, a: bv32, v: bv16): (r: MemState)
    requires Wf(s)
    ensures Wf(r)
  {
    ByteStore(ByteStore(s, a, HalfByte(v >> 8)), a + 1, HalfByte(v))
  }

  /** `StoreWord`: bytes 3, 2, 1, 0 of the word at a .. a + 3. */
  function WordStore(s: MemState, a: bv32, w: bv32): (r: MemState)
    requires Wf(s)
    ensures Wf(r)
  {
    var s1 := ByteStore(s, a, WordByte(w >> 24));
    var s2 := ByteStore(s1, a + 1, WordByte(w >> 16));
    var s3 := ByteStore(s2, a + 2, WordByte(w >> 8));
    ByteStore(s3, a + 3, WordByte(w))
  }

  // ---------------------------------------------------------------------
  // Properties of the memory functions

  /** No device claims address a. */
  predicate Unclaimed(s: MemState, a: bv32)
  {
    Key(a) !in s.claims
  }

  /** A read changes no byte value and no claim: at most it allocates a
      zero-filled frame. */
  lemma {:induction false} ReadKeepsBytes(s: MemState, a: bv32)
    requires Wf(s)
    ensures forall b :: PageByte(ByteRead(s, a).1.pages, b) == PageByte(s.pages, b)
  {
    var r := ByteRead(s, a).1;
    forall b
      ensures PageByte(r.pages, b) == PageByte(s.pages, b)
    {
      assert Frame(r.pages, b) == Frame(s.pages, b);
    }
  }

  /** A read of an unclaimed byte returns the paged byte, which is 0 when
      its frame did not exist, leaves the devices alone and leaves the
      frame allocated, keyed by `address & 0xFFFFF000`. */
  lemma {:induction false} ReadUnclaimed(s: MemState, a: bv32)
    requires Unclaimed(s, a)
    ensures ByteRead(s, a).0 == PageByte(s.pages, a)
    ensures Base(a) !in s.pages ==> ByteRead(s, a).0 == 0
    ensures Base(a) in ByteRead(s, a).1.pages && ByteRead(s, a).1.logs == s.logs
  {
  }

  /** A store to an unclaimed byte sets that byte. */
  lemma {:induction false} StoreSets(s: MemState, a: bv32, v: bv8)
    requires Wf(s) && Unclaimed(s, a)
    ensures PageByte(ByteStore(s, a, v).pages, a) == v
  {
  }

  /** A store to an unclaimed byte leaves byte b != a as it was, even when
      b shares its frame. */
  lemma {:induction false} StoreKeeps(s: MemState, a: bv32, v: bv8, b: bv32)
    requires Wf(s) && Unclaimed(s, a) && b != a
    ensures PageByte(ByteStore(s, a, v).pages, b) == PageByte(s.pages, b)
  {
    var r := ByteStore(s, a, v);
    if Base(b) == Base(a) {
      assert Frame(r.pages, b) == Frame(s.pages, a)[Offset(a) := v];
      if Offset(a) == Offset(b) {
        SameByte(a, b);
      }
    } else {
      assert Frame(r.pages, b) == Frame(s.pages, b);
    }
  }

  /** A store to an unclaimed byte sets that byte and no other, and leaves
      the devices alone. */
  lemma {:induction false} StoreOnlyByte(s: MemState, a: bv32, v: bv8)
    requires Wf(s) && Unclaimed(s, a)
    ensures PageByte(ByteStore(s, a, v).pages, a) == v
    ensures forall b :: b != a ==> PageByte(ByteStore(s, a, v).pages, b) == PageByte(s.pages, b)
    ensures ByteStore(s, a, v).logs == s.logs
  {
    StoreSets(s, a, v);
    forall b | b != a
      ensures PageByte(ByteStore(s, a, v).pages, b) == PageByte(s.pages, b)
    {
      StoreKeeps(s, a, v, b);
    }
  }

  /** An access to a claimed address goes to the claiming device and leaves
      paged memory as it was: a read returns the device's answer and logs a
      load, a store logs the store. */
  lemma {:induction false} ClaimedAccess(s: MemState, a: bv32, v: bv8)
    requires Wf(s) && !Unclaimed(s, a)
    ensures var d := s.claims[Key(a)];
      ByteRead(s, a).0 == d.respond(LogOf(s, d), a) &&
      LogOf(ByteRead(s, a).1, d) == LogOf(s, d) + [Load(a)] &&
      LogOf(ByteStore(s, a, v), d) == LogOf(s, d) + [Store(a, v)]
    ensures ByteRead(s, a).1.pages == s.pages && ByteStore(s, a, v).pages == s.pages
  {
  }

  /** Reading back an unclaimed byte returns the byte stored. */
  lemma {:induction false} ByteRoundTrip(s: MemState, a: bv32, v: bv8)
    requires Wf(s) && Unclaimed(s, a)
    ensures ByteRead(ByteStore(s, a, v), a).0 == v
  {
    StoreOnlyByte(s, a, v);
    ReadUnclaimed(ByteStore(s, a, v), a);
  }

  /** Splitting a word into its four bytes, most significant first, and
      reassembling them gives the word back. */
  lemma {:induction false} BigEndianBytes(w: bv32)
    ensures BigEndian(WordByte(w >> 24), WordByte(w >> 16), WordByte(w >> 8), WordByte(w)) == w
  {
  }

  /** The same for a half-word. */
  lemma {:induction false} HalfBytes(v: bv16)
    ensures ((HalfByte(v >> 8) as bv16) << 8) | (HalfByte(v) as bv16) == v
  {
  }

  /** Addresses a .. a + 3 wrap around at 2^32 and are four distinct bytes. */
  lemma {:induction false} FourBytes(a: bv32)
    ensures a != a + 1 && a != a + 2 && a != a + 3
    ensures a + 1 != a + 2 && a + 1 != a + 3 && a + 2 != a + 3
  {
  }

  /** After `StoreWord(a, w)` bytes a .. a + 3 hold the bytes of w, most
      significant first, when no device claims them. */
  lemma {:induction false} WordStoreBytes(s: MemState, a: bv32, w: bv32)
    requires Wf(s)
    requires Unclaimed(s, a) && Unclaimed(s, a + 1) && Unclaimed(s, a + 2) && Unclaimed(s, a + 3)
    ensures PageByte(WordStore(s, a, w).pages, a) == WordByte(w >> 24)
    ensures PageByte(WordStore(s, a, w).pages, a + 1) == WordByte(w >> 16)
    ensures PageByte(WordStore(s, a, w).pages, a + 2) == WordByte(w >> 8)
    ensures PageByte(WordStore(s, a, w).pages, a + 3) == WordByte(w)
  {
    FourBytes(a);
    var s1 := ByteStore(s, a, WordByte(w >> 24));
    var s2 := ByteStore(s1, a + 1, WordByte(w >> 16));
    var s3 := ByteStore(s2, a + 2, WordByte(w >> 8));
    StoreSets(s, a, WordByte(w >> 24));
    StoreKeeps(s1, a + 1, WordByte(w >> 16), a);
    StoreKeeps(s2, a + 2, WordByte(w >> 8), a);
    StoreKeeps(s3, a + 3, WordByte(w), a);
    StoreSets(s1, a + 1, WordByte(w >> 16));
    StoreKeeps(s2, a + 2, WordByte(w >> 8), a + 1);
    StoreKeeps(s3, a + 3, WordByte(w), a + 1);
    StoreSets(s2, a + 2, WordByte(w >> 8));
    StoreKeeps(s3, a + 3, WordByte(w), a + 2);
    StoreSets(s3, a + 3, WordByte(w));
  }

  /** `ReadWord(a)` assembles the paged bytes a .. a + 3, byte a most
      significant, when no device claims them. */
  lemma {:induction false} WordReadBytes(s: MemState, a: bv32)
    requires Wf(s)
    requires Unclaimed(s, a) && Unclaimed(s, a + 1) && Unclaimed(s, a + 2) && Unclaimed(s, a + 3)
    ensures WordRead(s, a).0 == BigEndian(PageByte(s.pages, a), PageByte(s.pages, a + 1),
                                          PageByte(s.pages, a + 2), PageByte(s.pages, a + 3))
  {
    var t1 := ByteRead(s, a).1;
    ReadUnclaimed(s, a);
    ReadKeepsBytes(s, a);
    var t2 := ByteRead(t1, a + 1).1;
    ReadUnclaimed(t1, a + 1);
    ReadKeepsBytes(t1, a + 1);
    var t3 := ByteRead(t2, a + 2).1;
    ReadUnclaimed(t2, a + 2);
    ReadKeepsBytes(t2, a + 2);
    ReadUnclaimed(t3, a + 3);
  }

  /** `StoreWord` then `ReadWord` at the same address returns the word,
      when no device claims any of its four bytes. */
  lemma {:induction false} WordRoundTrip(s: MemState, a: bv32, w: bv32)
    requires Wf(s)
    requires Unclaimed(s, a) && Unclaimed(s, a + 1) && Unclaimed(s, a + 2) && Unclaimed(s, a + 3)
    ensures WordRead(WordStore(s, a, w), a).0 == w
  {
    WordStoreBytes(s, a, w);
    WordReadBytes(WordStore(s, a, w), a);
    BigEndianBytes(w);
  }

  /** `StoreHalf` then `ReadHalf` at the same address returns the half-word,
      when no device claims either byte. */
  lemma {:induction false} HalfRoundTrip(s: MemState, a: bv32, v: bv16)
    requires Wf(s)
    requires Unclaimed(s, a) && Unclaimed(s, a + 1)
    ensures HalfRead(HalfStore(s, a, v), a).0 == v
  {
    FourBytes(a);
    var s1 := ByteStore(s, a, HalfByte(v >> 8));
    var s2 := ByteStore(s1, a + 1, HalfByte(v));
    StoreSets(s, a, HalfByte(v >> 8));
    StoreKeeps(s1, a + 1, HalfByte(v), a);
    StoreSets(s1, a + 1, HalfByte(v));
    assert PageByte(s2.pages, a) == HalfByte(v >> 8);
    var t1 := ByteRead(s2, a).1;
    ReadUnclaimed(s2, a);
    ReadKeepsBytes(s2, a);
    ReadUnclaimed(t1, a + 1);
    HalfBytes(v);
  }

  // ---------------------------------------------------------------------
  // attachDevice

  /** The device table and the verdict after `attachDevice` walks the
      addresses in order: each free address is claimed for d, and the walk
      stops with false at the first address already in the table; what
      was claimed before it stays claimed. */
  function Claim(table: map<Key, Device>, d: Device, addrs: seq<bv32>): (bool, map<Key, Device>)
    decreases |addrs|
  {
    if addrs == [] then (true, table)
    else if Key(addrs[0]) in table then (false, table)
    else Claim(table[Key(addrs[0]) := d], d, addrs[1..])
  }

  /** The first n addresses are all free in the table and pairwise
      distinct. */
  predicate FreeRun(table: map<Key, Device>, addrs: seq<bv32>, n: int)
    requires 0 <= n <= |addrs|
  {
    (forall i :: 0 <= i < n ==> Key(addrs[i]) !in table) &&
    (forall i, j :: 0 <= i < j < n ==> addrs[i] != addrs[j])
  }

  /** Claiming the head of the list turns a free run of the rest into a
      free run of the whole list, and back. */
  lemma {:induction false} FreeRunTail(table: map<Key, Device>, d: Device, addrs: seq<bv32>, n: int)
    requires 0 < n <= |addrs| && Key(addrs[0]) !in table
    ensures FreeRun(table[Key(addrs[0]) := d], addrs[1..], n - 1) <==> FreeRun(table, addrs, n)
  {
    var t := table[Key(addrs[0]) := d];
    var rest := addrs[1..];
    if FreeRun(t, rest, n - 1) {
      forall i, j | 0 <= i < j < n
        ensures addrs[i] != addrs[j]
      {
        if i == 0 {
          assert Key(rest[j - 1]) !in t;
        } else {
          assert rest[i - 1] != rest[j - 1];
        }
      }
      forall i | 0 <= i < n
        ensures Key(addrs[i]) !in table
      {
        if i > 0 {
          assert Key(rest[i - 1]) !in t;
        }
      }
    }
    if FreeRun(table, addrs, n) {
      forall i | 0 <= i < n - 1
        ensures Key(rest[i]) !in t
      {
        assert addrs[0] != addrs[i + 1];
      }
      forall i, j | 0 <= i < j < n - 1
        ensures rest[i] != rest[j]
      {
        assert addrs[i + 1] != addrs[j + 1];
      }
    }
  }

  /** `attachDevice` succeeds exactly when none of the device's addresses
      is claimed already and the device lists none of them twice. */
  lemma {:induction false} ClaimSucceeds(table: map<Key, Device>, d: Device, addrs: seq<bv32>)
    ensures Claim(table, d, addrs).0 <==> FreeRun(table, addrs, |addrs|)
    decreases |addrs|
  {
    if addrs != [] && Key(addrs[0]) !in table {
      ClaimSucceeds(table[Key(addrs[0]) := d], d, addrs[1..]);
      FreeRunTail(table, d, addrs, |addrs|);
    }
  }

  /** `attachDevice` never takes an address from another device, and every
      address it adds is one of d's, claimed for d. */
  lemma {:induction false} ClaimKeeps(table: map<Key, Device>, d: Device, addrs: seq<bv32>)
    ensures forall k :: k in table ==> k in Claim(table, d, addrs).1 && Claim(table, d, addrs).1[k] == table[k]
    ensures forall k :: k in Claim(table, d, addrs).1 && k !in table ==>
      Claim(table, d, addrs).1[k] == d && k.bits in addrs
    decreases |addrs|
  {
    if addrs != [] && Key(addrs[0]) !in table {
      ClaimKeeps(table[Key(addrs[0]) := d], d, addrs[1..]);
    }
  }

  /** Every address before the first clash stays claimed for d: all of
      them when the attach succeeds, the ones before the failing address
      when it does not. */
  lemma {:induction false} ClaimPrefix(table: map<Key, Device>, d: Device, addrs: seq<bv32>)
    ensures forall i :: 0 <= i < |addrs| && FreeRun(table, addrs, i + 1) ==>
      Key(addrs[i]) in Claim(table, d, addrs).1 && Claim(table, d, addrs).1[Key(addrs[i])] == d
    decreases |addrs|
  {
    if addrs != [] && Key(addrs[0]) !in table {
      var t := table[Key(addrs[0]) := d];
      ClaimPrefix(t, d, addrs[1..]);
      ClaimKeeps(t, d, addrs[1..]);
      forall i | 0 <= i < |addrs| && FreeRun(table, addrs, i + 1)
        ensures Key(addrs[i]) in Claim(table, d, addrs).1 && Claim(table, d, addrs).1[Key(addrs[i])] == d
      {
        if i > 0 {
          FreeRunTail(table, d, addrs, i + 1);
        }
      }
    }
  }

  // ---------------------------------------------------------------------
  // MIPS_Memory

  /** How many times the device with identity id has been initialised. */
  function InitCount(inits: map<nat, nat>, id: nat): nat
  {
    if id in inits then inits[id] else 0
  }

  class Memory {
    /** The frame table, keyed by `address & 0xFFFFF000`: the bytes of each
        frame. */
    var pagetable: map<Key, seq<bv8>>
    /** The device table, keyed by the full address. */
    var devicetable: map<Key, Device>
    /** The accesses each device has received, by device identity. */
    var logs: map<nat, seq<Access>>
    /** How many times each device has been initialised, by device
        identity. */
    var inits: map<nat, nat>

    ghost predicate Valid()
      reads this
    {
      forall k :: k in pagetable ==> |pagetable[k]| == 4096
    }

    /** The memory as a value. */
    ghost function Model(): (m: MemState)
      reads this
      ensures m.pages == pagetable && m.claims == devicetable && m.logs == logs
      ensures Valid() ==> Wf(m)
    {
      MemState(pagetable, devicetable, logs)
    }

    /** Both tables start empty and no device has been accessed. */
    constructor ()
      ensures Valid() && Model() == MemState(map[], map[], map[]) && inits == map[]
    {
      pagetable := map[];
      devicetable := map[];
      logs := map[];
      inits := map[];
    }

    predicate PageExists(address: bv32)
      reads this
    {
      Base(address) in pagetable
    }

    predicate DeviceExists(address: bv32)
      reads this
    {
      Key(address) in devicetable
    }

    /** The accesses device d has received so far. */
    function History(d: Device): (h: seq<Access>)
      reads this
      ensures h == LogOf(Model(), d)
    {
      if d.id in logs then logs[d.id] else []
    }

    /** `ReadByte`: a claimed address is read from its device; otherwise the
        frame is allocated if missing and its byte returned. */
    method ReadByte(address: bv32) returns (b: bv8)
      requires Valid()
      modifies this
      ensures Valid() && inits == old(inits)
      ensures b == ByteRead(old(Model()), address).0
      ensures Model() == ByteRead(old(Model()), address).1
    {
      if DeviceExists(address) {
        var device := devicetable[Key(address)];
        var history := History(device);
        b := device.respond(history, address);
        logs := logs[device.id := history + [Load(address)]];
      } else {
        if !PageExists(address) {
          pagetable := pagetable[Base(address) := Zeros()];
        }
        var page := pagetable[Base(address)];
        b := page[Offset(address)];
      }
    }

    /** `ReadHalf`: two byte reads, shifted together, the first byte high. */
    method ReadHalf(address: bv32) returns (half: bv16)
      requires Valid()
      modifies this
      ensures Valid() && inits == old(inits)
      ensures half == HalfRead(old(Model()), address).0
      ensures Model() == HalfRead(old(Model()), address).1
    {
      var b0 := ReadByte(address);
      half := b0 as bv16;
      half := half << 8;
      var b1 := ReadByte(address + 1);
      half := half | b1 as bv16;
    }

    /** `ReadWord`: four byte reads shifted together, the first byte high. */
    method ReadWord(address: bv32) returns (word: bv32)
      requires Valid()
      modifies this
      ensures Valid() && inits == old(inits)
      ensures word == WordRead(old(Model()), address).0
      ensures Model() == WordRead(old(Model()), address).1
    {
      var b0 := ReadByte(address);
      word := b0 as bv32;
      word := word << 8;
      var b1 := ReadByte(address + 1);
      word := word | b1 as bv32;
      word := word << 8;
      var b2 := ReadByte(address + 2);
      word := word | b2 as bv32;
      word := word << 8;
      var b3 := ReadByte(address + 3);
      word := word | b3 as bv32;
    }

    /** `StoreByte`: a claimed address is stored to its device; otherwise the
        frame is allocated if missing and its byte overwritten. */
    method StoreByte(address: bv32, value: bv8)
      requires Valid()
      modifies this
      ensures Valid() && inits == old(inits)
      ensures Model() == ByteStore(old(Model()), address, value)
    {
      if DeviceExists(address) {
        var device := devicetable[Key(address)];
        logs := logs[device.id := History(device) + [Store(address, value)]];
        return;
      } else if !PageExists(address) {
        pagetable := pagetable[Base(address) := Zeros()];
      }
      var page := pagetable[Base(address)];
      pagetable := pagetable[Base(address) := page[Offset(address) := value]];
    }

    /** `StoreHalf`: the high byte at the address, the low byte after it. */
    method StoreHalf(address: bv32, value: bv16)
      requires Valid()
      modifies this
      ensures Valid() && inits == old(inits)
      ensures Model() == HalfStore(old(Model()), address, value)
    {
      StoreByte(address, HalfByte(value >> 8));
      StoreByte(address + 1, HalfByte(value));
    }

    /** `StoreWord`: bytes 3, 2, 1, 0 of the word at the address onwards. */
    method StoreWord(address: bv32, value: bv32)
      requires Valid()
      modifies this
      ensures Valid() && inits == old(inits)
      ensures Model() == WordStore(old(Model()), address, value)
    {
      StoreByte(address, WordByte(value >> 24));
      StoreByte(address + 1, WordByte(value >> 16));
      StoreByte(address + 2, WordByte(value >> 8));
      StoreByte(address + 3, WordByte(value));
    }

    /** `attachDevice`: claims the device's addresses in order, stopping at
        the first one already claimed (the ones claimed before it stay
        claimed); the device is initialised only when every address was
        free. */
    method AttachDevice(device: Device) returns (ok: bool)
      requires Valid()
      modifies this
      ensures Valid() && pagetable == old(pagetable) && logs == old(logs)
      ensures ok == Claim(old(devicetable), device, device.addresses).0
      ensures devicetable == Claim(old(devicetable), device, device.addresses).1
      ensures inits == if ok then old(inits)[device.id := InitCount(old(inits), device.id) + 1] else old(inits)
    {
      var i := 0;
      while i < |device.addresses|
        invariant 0 <= i <= |device.addresses|
        invariant pagetable == old(pagetable) && logs == old(logs) && inits == old(inits)
        invariant Claim(old(devicetable), device, device.addresses) == Claim(devicetable, device, device.addresses[i..])
      {
        var address := device.addresses[i];
        if !DeviceExists(address) {
          devicetable := devicetable[Key(address) := device];
        } else {
          return false;
        }
        i := i + 1;
      }
      inits := inits[device.id := InitCount(inits, device.id) + 1];
      return true;
    }
  }
}
