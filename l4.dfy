/** The L4 table, PML4 (amd64paging/L4.go): the self-reference entry that
    `Bootstrap` writes and `Phys` reads, and `Step`, which descends with the
    fixed `recurseBase` in place of the caller's base address. */
module L4 {
  import opened Layout
  import opened AddressCodec
  import opened Entry
  import opened BaseTable

  /** `recurseBase`: the complement of `1<<OffsetSize - 1`. */
  const RecurseBase: Address := !(((1 as bv64) << OffsetSize) - 1)

  /** Since `OffsetSize` is 11, `recurseBase` clears only bits 0-10: it is
      0xFFFF_FFFF_FFFF_F800, and bit 11, the top bit of the 12-bit offset,
      is set. */
  lemma RecurseBaseValue()
    ensures RecurseBase == 0xFFFF_FFFF_FFFF_F800
    ensures RecurseBase & 0xFFF == 0x800
  {
  }

  /** The table contents after `Bootstrap(p)`. */
  function AfterBootstrap(s: seq<TableEntry>, p: Address): (s': seq<TableEntry>)
    requires |s| == TableSize
    ensures |s'| == TableSize
    ensures EntryAddress(s'[SelfAddressIndex]) == p & !0xFFF
    ensures EntryFlags(s'[SelfAddressIndex]) == EntryFlags(s[SelfAddressIndex])
    ensures forall j :: 0 <= j < TableSize && j != SelfAddressIndex ==> s'[j] == s[j]
  {
    s[SelfAddressIndex := SetAddress(s[SelfAddressIndex], p)]
  }

  /** The physical address `Phys` reads from the table `s`. */
  function PhysOf(s: seq<TableEntry>): (p: Address)
    requires |s| == TableSize
    ensures p & 0xFFF == 0
    ensures p & !0xFFF == s[SelfAddressIndex] & !0xFFF
  {
    EntryAddress(s[SelfAddressIndex])
  }

  class PML4 {
    const entries: array<TableEntry>

    ghost predicate Valid()
      reads this
    {
      entries.Length == TableSize
    }

    /** A zeroed table, as `&PML4{}` gives. */
    constructor ()
      ensures Valid() && fresh(entries)
      ensures forall j :: 0 <= j < TableSize ==> entries[j] == NilMapping
    {
      entries := new TableEntry[TableSize](_ => NilMapping);
    }

    /** Stores `p` as the address of the self-reference entry. */
    method Bootstrap(p: Address)
      requires Valid()
      modifies entries
      ensures entries[..] == AfterBootstrap(old(entries[..]), p)
    {
      entries[SelfAddressIndex] := SetAddress(entries[SelfAddressIndex], p);
    }

    /** The physical address of this table, read from the self-reference
      entry. */
    method Phys() returns (p: Address)
      requires Valid()
      ensures p == PhysOf(entries[..])
    {
      p := EntryAddress(entries[SelfAddressIndex]);
    }

    /** `Step(base, idx, flags)`: the base-table step taken with
        `recurseBase`, whatever `base` the caller passes. */
    function Step(base: Address, idx: bv64, flags: bv64, baseStep: StepWithBase): Result<Address>
      requires Valid()
      reads this, entries
    {
      baseStep(entries[..], RecurseBase, idx, flags)
    }
  }

  /** After `Bootstrap(p)`, `Phys` returns the page of `p`. */
  lemma BootstrapThenPhys(s: seq<TableEntry>, p: Address)
    requires |s| == TableSize
    ensures PhysOf(AfterBootstrap(s, p)) == p & !0xFFF
  {
    var t := AfterBootstrap(s, p);
    PhysIsEntryAddress(t);
  }

  // Proof steps, not properties: `PhysIsEntryAddress` restates the body of
  // `PhysOf` and `AlignedIsOwnPage` is a bit-vector identity. They keep each
  // solver query to one unfolding of a bit-vector function, which the
  // solver needs to stay within the resource limit.

  lemma PhysIsEntryAddress(s: seq<TableEntry>)
    requires |s| == TableSize
    ensures PhysOf(s) == EntryAddress(s[SelfAddressIndex])
  {
  }

  /** For a page-aligned `p`, `Bootstrap(p)` followed by `Phys` gives back
      `p` itself; L4_test.go does this with 0x123456789876000. */
  lemma BootstrapThenPhysAligned(s: seq<TableEntry>, p: Address)
    requires |s| == TableSize
    requires p & 0xFFF == 0
    ensures PhysOf(AfterBootstrap(s, p)) == p
  {
    BootstrapThenPhys(s, p);
    AlignedIsOwnPage(p);
  }

  lemma AlignedIsOwnPage(p: Address)
    requires p & 0xFFF == 0
    ensures p & !0xFFF == p
  {
  }

  /** `TestL4Phys`: on a zeroed table, bootstrapping 0x123456789876000 and
      reading `Phys` gives the same address. */
  lemma TestPhysExample()
    ensures PhysOf(AfterBootstrap(seq(TableSize, _ => NilMapping), 0x0123_4567_8987_6000))
         == 0x0123_4567_8987_6000
  {
    BootstrapThenPhysAligned(seq(TableSize, _ => NilMapping), 0x0123_4567_8987_6000);
  }

  /** `Step` does not depend on the caller's base address. */
  lemma StepIgnoresBase(pm: PML4, b1: Address, b2: Address, idx: bv64, flags: bv64, baseStep: StepWithBase)
    requires pm.Valid()
    ensures pm.Step(b1, idx, flags, baseStep) == pm.Step(b2, idx, flags, baseStep)
  {
  }

  /** `Step` gives the base-table step's answer for `recurseBase`, the same
      index and the same flags, and returns its error unchanged. */
  lemma StepForwards(pm: PML4, base: Address, idx: bv64, flags: bv64, baseStep: StepWithBase)
    requires pm.Valid()
    ensures pm.Step(base, idx, flags, baseStep) == baseStep(pm.entries[..], RecurseBase, idx, flags)
  {
  }

  // The recursive base the offset size was evidently meant to give.

  /** The all-ones base with a zero 12-bit offset: every index field holds
      `SelfAddressIndex`, so it names the self-mapped L4 table. */
  const IntendedRecurseBase: Address := !(((1 as bv64) << (OffsetMSB + 1)) - 1)

  /** The intended base is page-aligned, and each of its four index fields
      is the self-reference slot 511. */
  lemma IntendedRecurseBaseSelfMaps()
    ensures IntendedRecurseBase == 0xFFFF_FFFF_FFFF_F000
    ensures Offset(IntendedRecurseBase) == 0
    ensures GetL4Index(IntendedRecurseBase) as int == SelfAddressIndex
    ensures GetL3Index(IntendedRecurseBase) as int == SelfAddressIndex
    ensures GetL2Index(IntendedRecurseBase) as int == SelfAddressIndex
    ensures GetL1Index(IntendedRecurseBase) as int == SelfAddressIndex
  {
  }

  /** As written, `recurseBase` is not page-aligned: the L1 index field is
      still 511 but the offset is 0x800. */
  lemma RecurseBaseOffset()
    ensures Offset(RecurseBase) == 0x800
    ensures GetL1Index(RecurseBase) == 0x1FF
  {
    RecurseBaseValue();
  }
}
