/** The page-table entry codec. `TableEntry` with its `Address`, `Flags`,
    `SetAddress` and `SetFlags` methods is declared outside the files
    modelled here; it is defined by how L1.go, L4.go and their tests use it: the frame
    part of an entry is `te & ^0xFFF` (the same expression `createAddress`
    uses in L1.go) and the flags are the low 12 bits. The frame is not
    masked to 48 bits, since the L4 test stores and reads back an address
    with bits above 47 set. */
module Entry {
  import opened Layout

  /** A 64-bit page-table entry. */
  type TableEntry = bv64

  /** The all-zero entry, which means "not present". */
  const NilMapping: TableEntry := 0

  /** The physical frame address stored in an entry: bits 12-63. */
  function EntryAddress(te: TableEntry): (r: Address)
    ensures r & 0xFFF == 0
    ensures r & !0xFFF == te & !0xFFF
  {
    te & !0xFFF
  }

  /** The flag bits of an entry: bits 0-11. */
  function EntryFlags(te: TableEntry): (r: bv64)
    ensures r <= 0xFFF
    ensures EntryAddress(te) | r == te
  {
    te & 0xFFF
  }

  /** Stores the page-aligned part of `a` as the entry's frame address,
      leaving the flags as they were. */
  function SetAddress(te: TableEntry, a: Address): (r: TableEntry)
    ensures EntryAddress(r) == a & !0xFFF
    ensures EntryFlags(r) == EntryFlags(te)
  {
    SetAddressBits(te, a);
    (te & 0xFFF) | (a & !0xFFF)
  }

  // Proof step, not a property: the bit-vector identity behind the
  // contract of `SetAddress`, proved on its own to keep that query small.
  lemma SetAddressBits(te: TableEntry, a: Address)
    ensures ((te & 0xFFF) | (a & !0xFFF)) & !0xFFF == a & !0xFFF
    ensures ((te & 0xFFF) | (a & !0xFFF)) & 0xFFF == te & 0xFFF
  {
  }

  /** Stores the low 12 bits of `f` as the entry's flags, leaving the frame
      address as it was. */
  function SetFlags(te: TableEntry, f: bv64): (r: TableEntry)
    ensures EntryFlags(r) == f & 0xFFF
    ensures EntryAddress(r) == EntryAddress(te)
  {
    (te & !0xFFF) | (f & 0xFFF)
  }

  /** An entry is determined by its address and its flags. */
  lemma EntryEqualIff(a: TableEntry, b: TableEntry)
    ensures a == b <==> EntryAddress(a) == EntryAddress(b) && EntryFlags(a) == EntryFlags(b)
  {
  }

  /** Setting the address and then the flags, in closed form. */
  lemma SetAddressThenFlags(te: TableEntry, a: Address, f: bv64)
    ensures SetFlags(SetAddress(te, a), f) == (a & !0xFFF) | (f & 0xFFF)
  {
  }

  /** Setting the flags and then the address, in closed form. */
  lemma SetFlagsThenAddress(te: TableEntry, a: Address, f: bv64)
    ensures SetAddress(SetFlags(te, f), a) == (a & !0xFFF) | (f & 0xFFF)
  {
  }

  /** Setting the address and setting the flags commute. */
  lemma SetAddressSetFlagsCommute(te: TableEntry, a: Address, f: bv64)
    ensures SetFlags(SetAddress(te, a), f) == SetAddress(SetFlags(te, f), a)
  {
    SetAddressThenFlags(te, a, f);
    SetFlagsThenAddress(te, a, f);
  }

  /** Rebuilding an entry from its two fields gives back the entry. */
  lemma EntryFromFields(te: TableEntry)
    ensures SetFlags(SetAddress(NilMapping, EntryAddress(te)), EntryFlags(te)) == te
  {
  }

  /** An entry built from a frame and flags is the nil mapping exactly
      when both the page-aligned frame and the low flag bits are zero. */
  lemma BuiltEntryIsNilIff(a: Address, f: bv64)
    ensures SetFlags(SetAddress(NilMapping, a), f) == NilMapping
        <==> a & !0xFFF == 0 && f & 0xFFF == 0
  {
    SetAddressThenFlags(NilMapping, a, f);
    OrIsZeroIff(a & !0xFFF, f & 0xFFF);
  }

  /** A disjunction of two words is zero exactly when both are. */
  lemma OrIsZeroIff(x: bv64, y: bv64)
    ensures x | y == 0 <==> x == 0 && y == 0
  {
  }
}
