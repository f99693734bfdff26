/** The L1 leaf table (amd64paging/L1.go): `Map` writes one entry in place,
    `walk` translates a virtual address through that entry.

    As written, `getTableEntry` masks the shifted address with
    `1<<L1Size - 1`, and `L1Size` is 8, so only bits 12-19 select the entry:
    entries 256-511 are never reached, and addresses that differ only in
    bit 20 share an entry. `walk` also takes its offset from `getOffset`,
    which keeps only 8 bits. The as-written functions below model exactly
    that; the `Intended` functions are the corrected reading, which uses
    the 9-bit L1 field and the 12-bit offset. */
module L1 {
  import opened Layout
  import opened AddressCodec
  import opened Entry
  import opened BaseTable

  /** The permission flags of an L1 entry, `type L1Flags uint8`. */
  type L1Flags = bv8

  /** The mask `getTableEntry` uses is `1<<L1Size - 1`, which is 0xFF. */
  lemma EntryIndexMaskIs0xFF()
    ensures ((1 as bv64) << L1Size) - 1 == 0xFF
  {
  }

  /** The slot `getTableEntry` selects for `v`: bits 12-19 of `v`. */
  function TableEntryIndex(v: Address): (i: nat)
    ensures i < 256
  {
    ((v >> 12) & 0xFF) as int
  }

  /** Conversion of a 64-bit word to an integer is injective. */
  lemma ToIntInjective(x: bv64, y: bv64)
    ensures x as int == y as int <==> x == y
  {
    assert (x as int) as bv64 == x;
    assert (y as int) as bv64 == y;
  }

  /** Two addresses select the same slot exactly when they agree on bits
      12-19. */
  lemma SameEntryIff(v: Address, w: Address)
    ensures TableEntryIndex(v) == TableEntryIndex(w) <==> (v >> 12) & 0xFF == (w >> 12) & 0xFF
  {
    ToIntInjective((v >> 12) & 0xFF, (w >> 12) & 0xFF);
  }

  /** As written, the slots `Map` and `walk` reach are exactly 0-255:
      each of them is selected by some address, and none from 256 on is. */
  lemma ReachableSlots(k: bv64)
    requires k <= 0x1FF
    ensures (exists v: Address :: TableEntryIndex(v) == k as int) <==> k <= 0xFF
  {
    if k <= 0xFF {
      ShiftedIndexReadsBack8(k);
      assert TableEntryIndex(k << 12) == k as int;
    } else {
      AtLeast256(k);
    }
  }

  lemma ShiftedIndexReadsBack8(k: bv64)
    requires k <= 0xFF
    ensures ((k << 12) >> 12) & 0xFF == k
  {
  }

  lemma AtLeast256(k: bv64)
    requires 0x100 <= k
    ensures k as int >= 256
  {
  }

  /** `createAddress`: the frame of the entry with the low 12 bits of the
      offset. */
  function CreateAddress(te: TableEntry, offset: Address): (r: Address)
    ensures r & !0xFFF == EntryAddress(te)
    ensures r & 0xFFF == offset & 0xFFF
  {
    EntryAddress(te) | (offset & 0xFFF)
  }

  /** The table contents after `Map(v, p, flags)`. */
  function AfterMap(s: seq<TableEntry>, v: Address, p: Address, flags: L1Flags): (s': seq<TableEntry>)
    requires |s| == TableSize
    ensures |s'| == TableSize
    ensures EntryAddress(s'[TableEntryIndex(v)]) == p & !0xFFF
    ensures EntryFlags(s'[TableEntryIndex(v)]) == flags as bv64
    ensures forall j :: 0 <= j < TableSize && j != TableEntryIndex(v) ==> s'[j] == s[j]
  {
    var i := TableEntryIndex(v);
    s[i := SetFlags(SetAddress(s[i], p), flags as bv64)]
  }

  /** The physical address `walk(v)` returns for the table `s`. */
  function WalkOf(s: seq<TableEntry>, v: Address): (p: Address)
    requires |s| == TableSize
    ensures p & !0xFFF == EntryAddress(s[TableEntryIndex(v)])
    ensures p & 0xFFF == v & 0xFF
  {
    CreateAddress(s[TableEntryIndex(v)], GetOffset(v))
  }

  class Table {
    const entries: array<TableEntry>

    ghost predicate Valid()
      reads this
    {
      entries.Length == TableSize
    }

    /** A zeroed table, as `&Table{}` gives. */
    constructor ()
      ensures Valid() && fresh(entries)
      ensures forall j :: 0 <= j < TableSize ==> entries[j] == NilMapping
    {
      entries := new TableEntry[TableSize](_ => NilMapping);
    }

    /** Points the virtual address `v` at the physical address `p`. */
    method Map(v: Address, p: Address, flags: L1Flags)
      requires Valid()
      modifies entries
      ensures entries[..] == AfterMap(old(entries[..]), v, p, flags)
    {
      var i := TableEntryIndex(v);
      entries[i] := SetAddress(entries[i], p);
      entries[i] := SetFlags(entries[i], flags as bv64);
    }

    /** Translates `v` through its entry, leaving the table as it was. */
    method Walk(v: Address) returns (p: Address)
      requires Valid()
      ensures p == WalkOf(entries[..], v)
    {
      var offset := GetOffset(v);
      var te := entries[TableEntryIndex(v)];
      p := CreateAddress(te, offset);
    }
  }

  /** After `Map(v, p, flags)`, walking `v` gives the page of `p` with the
      low 8 bits of `v`. */
  lemma MapThenWalk(s: seq<TableEntry>, v: Address, p: Address, flags: L1Flags)
    requires |s| == TableSize
    ensures WalkOf(AfterMap(s, v, p, flags), v) == (p & !0xFFF) | (v & 0xFF)
  {
    var t := AfterMap(s, v, p, flags);
    WalkOfEntry(t, v);
  }

  /** `walk(v)` in closed form: the frame of the selected entry with the low
      8 bits of `v`. */
  lemma WalkOfEntry(s: seq<TableEntry>, v: Address)
    requires |s| == TableSize
    ensures WalkOf(s, v) == EntryAddress(s[TableEntryIndex(v)]) | (v & 0xFF)
  {
    WalkUnfolds(s, v);
    LowBitsInOffset(v);
  }

  // Proof steps, not properties: `WalkUnfolds`, `WalkIsCreateAddress` and
  // `CreateAddressUnfolds` restate function bodies, and `LowBitsInOffset`
  // is a bit-vector identity. They keep each solver query to one unfolding
  // of a bit-vector function, which the solver needs to stay within the
  // resource limit.

  lemma WalkUnfolds(s: seq<TableEntry>, v: Address)
    requires |s| == TableSize
    ensures WalkOf(s, v) == EntryAddress(s[TableEntryIndex(v)]) | (GetOffset(v) & 0xFFF)
  {
    WalkIsCreateAddress(s, v);
    CreateAddressUnfolds(s[TableEntryIndex(v)], GetOffset(v));
  }

  lemma WalkIsCreateAddress(s: seq<TableEntry>, v: Address)
    requires |s| == TableSize
    ensures WalkOf(s, v) == CreateAddress(s[TableEntryIndex(v)], GetOffset(v))
  {
  }

  lemma CreateAddressUnfolds(te: TableEntry, offset: Address)
    ensures CreateAddress(te, offset) == EntryAddress(te) | (offset & 0xFFF)
  {
  }

  /** The 8 bits `getOffset` keeps lie inside the 12-bit offset. */
  lemma LowBitsInOffset(v: Address)
    ensures GetOffset(v) & 0xFFF == v & 0xFF
  {
  }

  /** `Map` leaves the translation of an address that selects another slot
      as it was. */
  lemma MapKeepsOtherWalks(s: seq<TableEntry>, v: Address, p: Address, flags: L1Flags, w: Address)
    requires |s| == TableSize
    requires (w >> 12) & 0xFF != (v >> 12) & 0xFF
    ensures WalkOf(AfterMap(s, v, p, flags), w) == WalkOf(s, w)
  {
    SameEntryIff(v, w);
  }

  /** `Map` only ever writes one of the entries 0-255. */
  lemma MapKeepsUpperHalf(s: seq<TableEntry>, v: Address, p: Address, flags: L1Flags)
    requires |s| == TableSize
    ensures AfterMap(s, v, p, flags)[256..] == s[256..]
  {
  }

  /** Finding: the offset bits 8-11 are lost on the way through the
      table. Mapping 0x100 to the page 0x5000 and walking 0x100 gives
      0x5000 rather than 0x5100. */
  lemma WalkDropsOffsetBits(s: seq<TableEntry>)
    requires |s| == TableSize
    ensures WalkOf(AfterMap(s, 0x100, 0x5000, 0), 0x100) == 0x5000
  {
    MapThenWalk(s, 0x100, 0x5000, 0);
  }

  /** Finding: 0x100000 (L1 field 0x100) and 0 (L1 field 0) share slot 0,
      so mapping one remaps the other. */
  lemma EntryIndexAliases(s: seq<TableEntry>, p: Address)
    requires |s| == TableSize
    ensures GetL1Index(0x10_0000) == 0x100 && GetL1Index(0) == 0
    ensures TableEntryIndex(0x10_0000) == TableEntryIndex(0) == 0
    ensures WalkOf(AfterMap(s, 0x10_0000, p, 0), 0) == p & !0xFFF
  {
    MapThenWalk(s, 0x10_0000, p, 0);
  }

  // The corrected reading: the full 9-bit L1 field and the 12-bit offset.

  /** The slot the L1 field of `v` names: the L1 index, as `GetL1Index`
      reads it. */
  function IntendedEntryIndex(v: Address): (i: TableIndex)
    ensures i == GetL1Index(v) as int
  {
    ((v >> 12) & 0x1FF) as int
  }

  /** Two addresses select the same slot exactly when their L1 fields
      agree, and every one of the 512 slots is selected by some address. */
  lemma IntendedEntryIndexIff(v: Address, w: Address)
    ensures IntendedEntryIndex(v) == IntendedEntryIndex(w) <==> GetL1Index(v) == GetL1Index(w)
    ensures IntendedEntryIndex(PlaceL1Index(v, 0x1FF)) == 511
  {
    ToIntInjective(GetL1Index(v), GetL1Index(w));
    PlaceIndexRoundTrip(v, 0x1FF);
  }

  /** Every one of the 512 slots is selected by some address. */
  lemma IntendedReachableSlots(k: bv64)
    requires k <= 0x1FF
    ensures exists v: Address :: IntendedEntryIndex(v) == k as int
  {
    ShiftedIndexReadsBack9(k);
    assert IntendedEntryIndex(k << 12) == k as int;
  }

  lemma ShiftedIndexReadsBack9(k: bv64)
    requires k <= 0x1FF
    ensures ((k << 12) >> 12) & 0x1FF == k
  {
  }

  /** The table contents after the corrected `Map(v, p, flags)`. */
  function IntendedAfterMap(s: seq<TableEntry>, v: Address, p: Address, flags: L1Flags): (s': seq<TableEntry>)
    requires |s| == TableSize
    ensures |s'| == TableSize
    ensures EntryAddress(s'[IntendedEntryIndex(v)]) == p & !0xFFF
    ensures EntryFlags(s'[IntendedEntryIndex(v)]) == flags as bv64
    ensures forall j :: 0 <= j < TableSize && j != IntendedEntryIndex(v) ==> s'[j] == s[j]
  {
    var i := IntendedEntryIndex(v);
    s[i := SetFlags(SetAddress(s[i], p), flags as bv64)]
  }

  /** The corrected `walk(v)`. */
  function IntendedWalkOf(s: seq<TableEntry>, v: Address): (p: Address)
    requires |s| == TableSize
    ensures p & !0xFFF == EntryAddress(s[IntendedEntryIndex(v)])
    ensures Offset(p) == Offset(v)
  {
    CreateAddress(s[IntendedEntryIndex(v)], Offset(v))
  }

  /** The corrected round trip: after `Map(v, p, flags)`, walking `v` gives
      the page of `p` with the whole 12-bit offset of `v`. */
  lemma IntendedMapThenWalk(s: seq<TableEntry>, v: Address, p: Address, flags: L1Flags)
    requires |s| == TableSize
    ensures IntendedWalkOf(IntendedAfterMap(s, v, p, flags), v) == (p & !0xFFF) | (v & 0xFFF)
  {
    var t := IntendedAfterMap(s, v, p, flags);
    IntendedWalkOfEntry(t, v);
  }

  /** The corrected `walk(v)` in closed form. */
  lemma IntendedWalkOfEntry(s: seq<TableEntry>, v: Address)
    requires |s| == TableSize
    ensures IntendedWalkOf(s, v) == EntryAddress(s[IntendedEntryIndex(v)]) | (v & 0xFFF)
  {
    IntendedWalkUnfolds(s, v);
    OffsetInOffset(v);
  }

  // Proof steps, not properties: `IntendedWalkUnfolds` and
  // `IntendedWalkIsCreateAddress` restate function bodies, and
  // `OffsetInOffset` is a bit-vector identity, for the same reason as the
  // steps of `WalkOfEntry` above.

  lemma IntendedWalkUnfolds(s: seq<TableEntry>, v: Address)
    requires |s| == TableSize
    ensures IntendedWalkOf(s, v) == EntryAddress(s[IntendedEntryIndex(v)]) | (Offset(v) & 0xFFF)
  {
    IntendedWalkIsCreateAddress(s, v);
    CreateAddressUnfolds(s[IntendedEntryIndex(v)], Offset(v));
  }

  lemma IntendedWalkIsCreateAddress(s: seq<TableEntry>, v: Address)
    requires |s| == TableSize
    ensures IntendedWalkOf(s, v) == CreateAddress(s[IntendedEntryIndex(v)], Offset(v))
  {
  }

  lemma OffsetInOffset(v: Address)
    ensures Offset(v) & 0xFFF == v & 0xFFF
  {
  }

  /** The corrected `Map` leaves every address with another L1 field
      translating as before. */
  lemma IntendedMapKeepsOtherWalks(s: seq<TableEntry>, v: Address, p: Address, flags: L1Flags, w: Address)
    requires |s| == TableSize
    requires GetL1Index(w) != GetL1Index(v)
    ensures IntendedWalkOf(IntendedAfterMap(s, v, p, flags), w) == IntendedWalkOf(s, w)
  {
    IntendedEntryIndexIff(v, w);
  }
}
