# amd64 four-level paging of gopher-os, in Dafny

This project models the amd64 paging code of gopher-os
(`src/gopheros/kernel/mm/vmm/pagetable/amd64paging`) and proves properties of
the model. The code has four parts:

- **The address bit-field codec** (`address.dfy`, module `AddressCodec`).
  A 64-bit `Address` is split into four 9-bit table-index fields (L4 at bits
  39-47, L3 at 30-38, L2 at 21-29, L1 at 12-20) and a 12-bit page offset.
  `withBits` replaces the bits under a mask. The `getLxIndex` functions read a
  field, and the `withLxIndex` functions and `withOffset` write one.
- **The layout constants and `getOffset`** (`layout.dfy`, module `Layout`).
  These are the MSB/LSB positions of the fields, as the source writes them.
- **The page-table entry and the generic table** (`entry.dfy`,
  `basetable.dfy`). An entry holds a frame address and 12 flag bits. A table
  holds 512 entries, and `GetMapping` fills an empty slot lazily with a frame
  from the frame allocator.
- **The level tables** (`l1.dfy`, `l4.dfy`, `l3.dfy`). Each level table is a
  class over the same 512-entry array:
  - `L1.Table.Map` writes a leaf entry in place, and `Walk` translates an
    address through it.
  - `L4.PML4.Bootstrap` writes the self-reference entry (slot 511), and
    `Phys` reads it. `Step` descends with the fixed `recurseBase`.
  - `L3.PageDirectoryPointerTable.Map` runs `GetMapping`, then `Step`, then
    the next level's `Map`, and stops at the first error.

**State.** Each operation that changes a table in place is a method on the
level's array. It is proved equal to a pure function of the old contents:
`AfterMap`, `AfterBootstrap`, `GetMappingOf` or `MapOutcomeOf`. The lemmas are
stated about those functions. Addresses and entries are `bv64`, so Go's
`uint64` arithmetic is exact. `L1Flags` (`uint8`) is `bv8`.

**Pieces the modelled files call but do not declare.** These get the
smallest definition that the modelled code and its tests allow:
- **Entry fields.** The frame address of an entry is `te & ^0xFFF`, the
  expression `createAddress` uses (L1.go:31), and the flags are the low 12
  bits. The frame address is not cut to bits 12-47: L4_test.go:11-22 stores
  `0x123456789876000`, which has bits above 47 set, and expects to read it
  back unchanged.
- **Masks.** `tableIndexMask` is `0x1FF`. Each `LxMask` is `0x1FF << LxLSB`,
  the level's 9-bit field in place (see "## Left out").
- **`SelfAddressIndex`** is 511.
- **`GetMapping`** behaves as pagetable_test.go expects.
- **Abstract constants.** `pageTableFlags`, and the flags that the
  one-argument `GetMapping(idx)` of L3.go installs, are constants with no fixed
  value.
- **Parameters.** The frame allocator's answer, `BaseTable.Step` and the L2
  `PageDirectory.Map` are parameters of the operations that use them.

**Where the code departs from the layout it sets out** (four 9-bit index
fields at bits 12-47 above a 12-bit page offset), the model follows the code:
- `getOffset` masks 8 bits, not 12.
- The L1 slot index is masked with `1<<L1Size - 1 = 0xFF`, not `0x1FF`.
- `withLxIndex` does not shift the index into place.
- `recurseBase` clears 11 low bits, not 12.

Each of these is also listed under "## Findings", with a corrected definition
beside the as-written one.

## Model

| member | source | states |
|---|---|---|
| `Layout.GetOffset` | src/gopheros/kernel/mm/vmm/pagetable/amd64paging/pagetable.go:53-55 | the offset is at most 0xFF and agrees with the address on its low 8 bits |
| `Layout.FieldsAdjacent` | src/gopheros/kernel/mm/vmm/pagetable/amd64paging/pagetable.go:9-25 | each field starts one bit above the next lower one, and the L1 field starts at bit 12 |
| `Layout.SizesAreOneShort` | src/gopheros/kernel/mm/vmm/pagetable/amd64paging/pagetable.go:11-23 | every `LxSize` is 8, one less than the 9 bits the field spans |
| `Layout.OffsetSizeIsMSB` | src/gopheros/kernel/mm/vmm/pagetable/amd64paging/pagetable.go:25-26 | `OffsetSize` is 11 although the offset spans 12 bits |
| `Layout.PageSizeIsL1Unit` | src/gopheros/kernel/mm/vmm/pagetable/amd64paging/pagetable.go:6 | the page size 4096 is `1 << L1LSB` |
| `Layout.GetOffsetIdempotent` | src/gopheros/kernel/mm/vmm/pagetable/amd64paging/pagetable.go:53-55 | `getOffset` applied twice equals `getOffset` applied once |
| `Layout.GetOffsetIgnoresHighBits` | src/gopheros/kernel/mm/vmm/pagetable/amd64paging/pagetable.go:53-55 | two addresses have the same offset if and only if they agree on bits 0-7 |
| `AddressCodec.WithBits` | src/gopheros/kernel/mm/vmm/pagetable/amd64paging/address.go:8-12 | inside the mask the result equals the insertion; outside it, the original address |
| `AddressCodec.Offset` | src/gopheros/kernel/mm/vmm/pagetable/amd64paging/address.go:15-17 | the offset is at most 0xFFF and agrees with the address on bits 0-11 |
| `AddressCodec.WithOffset` | src/gopheros/kernel/mm/vmm/pagetable/amd64paging/address.go:19-21 | the new offset reads back as `offset & 0xFFF`, and bits 12-63 are unchanged |
| `AddressCodec.GetL4Index` | src/gopheros/kernel/mm/vmm/pagetable/amd64paging/address.go:23-25 | the index is at most 0x1FF, and shifted back up it is exactly the L4 field of the address |
| `AddressCodec.WithL4Index` | src/gopheros/kernel/mm/vmm/pagetable/amd64paging/address.go:27-29 | the L4 field is taken from `idx` unshifted, and all other bits are unchanged |
| `AddressCodec.GetL3Index` | src/gopheros/kernel/mm/vmm/pagetable/amd64paging/address.go:31-33 | the index is at most 0x1FF, and shifted back up it is exactly the L3 field |
| `AddressCodec.WithL3Index` | src/gopheros/kernel/mm/vmm/pagetable/amd64paging/address.go:35-37 | the L3 field is taken from `idx` unshifted, and all other bits are unchanged |
| `AddressCodec.GetL2Index` | src/gopheros/kernel/mm/vmm/pagetable/amd64paging/address.go:39-41 | the index is at most 0x1FF, and shifted back up it is exactly the L2 field |
| `AddressCodec.WithL2Index` | src/gopheros/kernel/mm/vmm/pagetable/amd64paging/address.go:43-45 | the L2 field is taken from `idx` unshifted, and all other bits are unchanged |
| `AddressCodec.GetL1Index` | src/gopheros/kernel/mm/vmm/pagetable/amd64paging/address.go:47-49 | the index is at most 0x1FF, and shifted back up it is exactly the L1 field |
| `AddressCodec.WithL1Index` | src/gopheros/kernel/mm/vmm/pagetable/amd64paging/address.go:51-53 | the L1 field is taken from `idx` unshifted, and all other bits are unchanged |
| `AddressCodec.LiteralsMatchLayout` | src/gopheros/kernel/mm/vmm/pagetable/amd64paging/pagetable.go:9-25 | each field mask is `0x1FF` shifted to the field's LSB; all ten pairs of the five masks are disjoint, and together they cover bits 0-47 |
| `AddressCodec.WithBitsLastWriteWins` | src/gopheros/kernel/mm/vmm/pagetable/amd64paging/address.go:8-12 | for any mask, of two writes under that mask only the last one matters |
| `AddressCodec.WithBitsCommute` | src/gopheros/kernel/mm/vmm/pagetable/amd64paging/address.go:8-12 | for any two disjoint masks, the order of the two writes does not matter |
| `AddressCodec.WithBitsKeepsDisjoint` | src/gopheros/kernel/mm/vmm/pagetable/amd64paging/address.go:8-12 | a write under one mask leaves the bits under any disjoint mask unchanged |
| `AddressCodec.FieldMasksDisjoint` | src/gopheros/kernel/mm/vmm/pagetable/amd64paging/pagetable.go:9-25 | any two different masks among the four index fields and the offset are disjoint |
| `AddressCodec.FieldWritesCommute` | src/gopheros/kernel/mm/vmm/pagetable/amd64paging/address.go:8-53 | writes to any two different fields (index or offset) commute, which covers all ten pairs of field writers |
| `AddressCodec.WithOffsetLastWriteWins` | src/gopheros/kernel/mm/vmm/pagetable/amd64paging/address.go:19-21 | of two offset writes, only the last one matters |
| `AddressCodec.WithL4IndexLastWriteWins` | src/gopheros/kernel/mm/vmm/pagetable/amd64paging/address.go:27-29 | of two L4 writes, only the last one matters |
| `AddressCodec.WithL3IndexLastWriteWins` | src/gopheros/kernel/mm/vmm/pagetable/amd64paging/address.go:35-37 | of two L3 writes, only the last one matters |
| `AddressCodec.WithL2IndexLastWriteWins` | src/gopheros/kernel/mm/vmm/pagetable/amd64paging/address.go:43-45 | of two L2 writes, only the last one matters |
| `AddressCodec.WithL1IndexLastWriteWins` | src/gopheros/kernel/mm/vmm/pagetable/amd64paging/address.go:51-53 | of two L1 writes, only the last one matters |
| `AddressCodec.WithL4L3IndexCommute` | src/gopheros/kernel/mm/vmm/pagetable/amd64paging/address.go:27-37 | an L4 write and an L3 write commute |
| `AddressCodec.WithL1IndexOffsetCommute` | src/gopheros/kernel/mm/vmm/pagetable/amd64paging/address.go:19-53 | an L1 write and an offset write commute |
| `AddressCodec.WithOffsetOwnOffset` | src/gopheros/kernel/mm/vmm/pagetable/amd64paging/address.go:15-21 | writing back an address's own offset leaves the address unchanged |
| `AddressCodec.IndexDependsOnHighBits` | src/gopheros/kernel/mm/vmm/pagetable/amd64paging/address.go:23-49 | two addresses that agree from a field's LSB upward have the same index at that level |
| `AddressCodec.IndexReadsOwnField` | src/gopheros/kernel/mm/vmm/pagetable/amd64paging/address.go:15-49 | each index reading and the offset depend only on the bits of their own field |
| `AddressCodec.FieldWriteKeepsOtherFields` | src/gopheros/kernel/mm/vmm/pagetable/amd64paging/address.go:19-53 | a write to one field leaves every other index and the offset unchanged |
| `AddressCodec.WithL4IndexKeepsOtherFields` | src/gopheros/kernel/mm/vmm/pagetable/amd64paging/address.go:27-29 | an L4 write leaves the L3, L2 and L1 indices and the offset unchanged |
| `AddressCodec.WithL3IndexKeepsOtherFields` | src/gopheros/kernel/mm/vmm/pagetable/amd64paging/address.go:35-37 | an L3 write leaves the L4, L2 and L1 indices and the offset unchanged |
| `AddressCodec.WithL2IndexKeepsOtherFields` | src/gopheros/kernel/mm/vmm/pagetable/amd64paging/address.go:43-45 | an L2 write leaves the L4, L3 and L1 indices and the offset unchanged |
| `AddressCodec.WithL1IndexKeepsOtherFields` | src/gopheros/kernel/mm/vmm/pagetable/amd64paging/address.go:51-53 | an L1 write leaves the L4, L3 and L2 indices and the offset unchanged |
| `AddressCodec.WithOffsetKeepsIndices` | src/gopheros/kernel/mm/vmm/pagetable/amd64paging/address.go:19-21 | an offset write leaves all four indices unchanged |
| `AddressCodec.WithIndexReadsFieldOfIndex` | src/gopheros/kernel/mm/vmm/pagetable/amd64paging/address.go:27-53 | after `withLxIndex(a, i)`, reading the index gives the same field of `i`, not `i` itself |
| `AddressCodec.WithIndexDropsSmallIndex` | src/gopheros/kernel/mm/vmm/pagetable/amd64paging/address.go:27-53 | writing index 5 at any level reads back index 0 |
| `AddressCodec.PlaceL4Index` | src/gopheros/kernel/mm/vmm/pagetable/amd64paging/address.go:27-29 | corrected writer: the L4 index reads back as `idx & 0x1FF`, and the other bits are unchanged |
| `AddressCodec.PlaceL3Index` | src/gopheros/kernel/mm/vmm/pagetable/amd64paging/address.go:35-37 | corrected writer: the L3 index reads back as `idx & 0x1FF`, and the other bits are unchanged |
| `AddressCodec.PlaceL2Index` | src/gopheros/kernel/mm/vmm/pagetable/amd64paging/address.go:43-45 | corrected writer: the L2 index reads back as `idx & 0x1FF`, and the other bits are unchanged |
| `AddressCodec.PlaceL1Index` | src/gopheros/kernel/mm/vmm/pagetable/amd64paging/address.go:51-53 | corrected writer: the L1 index reads back as `idx & 0x1FF`, and the other bits are unchanged |
| `AddressCodec.PlaceIndexRoundTrip` | src/gopheros/kernel/mm/vmm/pagetable/amd64paging/address.go:27-53 | every index 0-511, once placed, reads back unchanged at every level |
| `Entry.EntryAddress` | src/gopheros/kernel/mm/vmm/pagetable/amd64paging/L1.go:31 | the frame address of an entry is page-aligned and is the entry's bits 12-63 |
| `Entry.EntryFlags` | src/gopheros/kernel/mm/vmm/pagetable/amd64paging/pagetable_test.go:34 | the flags are at most 0xFFF, and the entry is its frame address ORed with its flags |
| `Entry.SetAddress` | src/gopheros/kernel/mm/vmm/pagetable/amd64paging/L1.go:12 | the new address reads back as its page, and the flags are unchanged |
| `Entry.SetFlags` | src/gopheros/kernel/mm/vmm/pagetable/amd64paging/L1.go:13 | the new flags read back as their low 12 bits, and the address is unchanged |
| `Entry.EntryEqualIff` | src/gopheros/kernel/mm/vmm/pagetable/amd64paging/L1.go:30-33 | two entries are equal if and only if their addresses and their flags are equal |
| `Entry.SetAddressSetFlagsCommute` | src/gopheros/kernel/mm/vmm/pagetable/amd64paging/L1.go:11-13 | setting the address and setting the flags commute |
| `Entry.EntryFromFields` | src/gopheros/kernel/mm/vmm/pagetable/amd64paging/L1.go:30-33 | an entry rebuilt from its address and its flags is the same entry |
| `Entry.BuiltEntryIsNilIff` | src/gopheros/kernel/mm/vmm/pagetable/amd64paging/pagetable_test.go:21-39 | a fresh entry is the nil mapping if and only if both its page and its low flag bits are zero |
| `BaseTable.GetMappingOf` | src/gopheros/kernel/mm/vmm/pagetable/amd64paging/pagetable_test.go:15-63 | an occupied slot: no change, no error; an empty slot with a failing allocator: no change, its error; otherwise the frame and flags are installed. No other slot changes |
| `BaseTable.GetMapping` | src/gopheros/kernel/mm/vmm/pagetable/amd64paging/L3.go:14 | the in-place call leaves the table and returns the error that `GetMappingOf` describes |
| `BaseTable.GetMappingIdempotent` | src/gopheros/kernel/mm/vmm/pagetable/amd64paging/pagetable_test.go:41-63 | once the slot holds a non-nil entry, another call with any flags and any allocator answer changes nothing and succeeds |
| `BaseTable.GetMappingConsultsAllocatorIffEmpty` | src/gopheros/kernel/mm/vmm/pagetable/amd64paging/pagetable_test.go:41-63 | the outcome is a successful no-op for every allocator answer if and only if the slot is occupied |
| `BaseTable.GetMappingTwiceExample` | src/gopheros/kernel/mm/vmm/pagetable/amd64paging/pagetable_test.go:9-65 | on an empty table, frame 0x123456789000 with flags 0xFFF is installed and survives a second call whose frame is 0x987654321000 |
| `L1.EntryIndexMaskIs0xFF` | src/gopheros/kernel/mm/vmm/pagetable/amd64paging/L1.go:27 | the mask `1<<L1Size - 1` is 0xFF |
| `L1.TableEntryIndex` | src/gopheros/kernel/mm/vmm/pagetable/amd64paging/L1.go:26-28 | the selected slot is always below 256 |
| `L1.SameEntryIff` | src/gopheros/kernel/mm/vmm/pagetable/amd64paging/L1.go:27 | two addresses select the same slot if and only if they agree on bits 12-19 |
| `L1.ReachableSlots` | src/gopheros/kernel/mm/vmm/pagetable/amd64paging/L1.go:26-28 | slot k (0-511) is selected by some address if and only if k is at most 255 |
| `L1.CreateAddress` | src/gopheros/kernel/mm/vmm/pagetable/amd64paging/L1.go:30-33 | the result's page is the entry's frame, and its low 12 bits come from the offset |
| `L1.AfterMap` | src/gopheros/kernel/mm/vmm/pagetable/amd64paging/L1.go:10-14 | the selected entry gets the page of `p` and the flags; every other entry is unchanged |
| `L1.WalkOf` | src/gopheros/kernel/mm/vmm/pagetable/amd64paging/L1.go:18-22 | the page comes from the selected entry, and the low 12 bits are the low 8 bits of `v` |
| `L1.Table.Map` | src/gopheros/kernel/mm/vmm/pagetable/amd64paging/L1.go:10-14 | the table afterwards is `AfterMap` of the table before |
| `L1.Table.Walk` | src/gopheros/kernel/mm/vmm/pagetable/amd64paging/L1.go:18-22 | it returns `WalkOf` of the table and changes nothing |
| `L1.WalkOfEntry` | src/gopheros/kernel/mm/vmm/pagetable/amd64paging/L1.go:18-22 | `walk(v)` is the selected entry's frame ORed with `v & 0xFF` |
| `L1.MapThenWalk` | src/gopheros/kernel/mm/vmm/pagetable/amd64paging/L1.go:9-22 | after `Map(v, p, f)`, `walk(v)` is `(p & ^0xFFF) OR (v & 0xFF)` |
| `L1.MapKeepsOtherWalks` | src/gopheros/kernel/mm/vmm/pagetable/amd64paging/L1.go:10-14 | `Map` leaves unchanged the translation of every address with other bits 12-19 |
| `L1.MapKeepsUpperHalf` | src/gopheros/kernel/mm/vmm/pagetable/amd64paging/L1.go:26-28 | `Map` never changes entries 256-511 |
| `L1.WalkDropsOffsetBits` | src/gopheros/kernel/mm/vmm/pagetable/amd64paging/pagetable.go:53-55 | mapping 0x100 to page 0x5000 and walking 0x100 gives 0x5000, not 0x5100 |
| `L1.EntryIndexAliases` | src/gopheros/kernel/mm/vmm/pagetable/amd64paging/L1.go:27 | 0x100000 (L1 field 0x100) and 0 share slot 0, so mapping the first redirects the second |
| `L1.IntendedEntryIndex` | src/gopheros/kernel/mm/vmm/pagetable/amd64paging/L1.go:26-28 | corrected slot: the slot is the 9-bit L1 index of `v`, a valid index 0-511 |
| `L1.IntendedEntryIndexIff` | src/gopheros/kernel/mm/vmm/pagetable/amd64paging/L1.go:27 | corrected slot: two addresses share a slot if and only if their L1 fields agree, and slot 511 is reachable |
| `L1.IntendedReachableSlots` | src/gopheros/kernel/mm/vmm/pagetable/amd64paging/L1.go:26-28 | with the corrected index, every slot 0-511 is selected by some address |
| `L1.IntendedAfterMap` | src/gopheros/kernel/mm/vmm/pagetable/amd64paging/L1.go:10-14 | the corrected `Map` writes the slot named by the 9-bit field and no other |
| `L1.IntendedWalkOf` | src/gopheros/kernel/mm/vmm/pagetable/amd64paging/L1.go:18-22 | the corrected walk keeps the full 12-bit offset of `v` |
| `L1.IntendedWalkOfEntry` | src/gopheros/kernel/mm/vmm/pagetable/amd64paging/L1.go:18-22 | the corrected walk is the selected frame ORed with `v & 0xFFF` |
| `L1.IntendedMapThenWalk` | src/gopheros/kernel/mm/vmm/pagetable/amd64paging/L1.go:9-22 | corrected round trip: after `Map(v, p, f)`, walking `v` gives `(p & ^0xFFF) OR (v & 0xFFF)` |
| `L1.IntendedMapKeepsOtherWalks` | src/gopheros/kernel/mm/vmm/pagetable/amd64paging/L1.go:10-14 | the corrected `Map` leaves unchanged the translation of every address with another L1 field |
| `L4.RecurseBaseValue` | src/gopheros/kernel/mm/vmm/pagetable/amd64paging/L4.go:5 | `recurseBase` is 0xFFFF_FFFF_FFFF_F800, with bit 11 set |
| `L4.AfterBootstrap` | src/gopheros/kernel/mm/vmm/pagetable/amd64paging/L4.go:12-15 | slot 511 gets the page of `p` and keeps its flags; every other entry is unchanged |
| `L4.PhysOf` | src/gopheros/kernel/mm/vmm/pagetable/amd64paging/L4.go:18-20 | the result is page-aligned and is the frame of slot 511 |
| `L4.PML4.Bootstrap` | src/gopheros/kernel/mm/vmm/pagetable/amd64paging/L4.go:12-15 | the table afterwards is `AfterBootstrap` of the table before |
| `L4.PML4.Phys` | src/gopheros/kernel/mm/vmm/pagetable/amd64paging/L4.go:18-20 | it returns `PhysOf` of the table and changes nothing |
| `L4.BootstrapThenPhys` | src/gopheros/kernel/mm/vmm/pagetable/amd64paging/L4.go:12-20 | after `Bootstrap(p)`, `Phys()` is the page of `p` |
| `L4.BootstrapThenPhysAligned` | src/gopheros/kernel/mm/vmm/pagetable/amd64paging/L4_test.go:8-25 | for a page-aligned `p`, `Phys()` after `Bootstrap(p)` is exactly `p` |
| `L4.TestPhysExample` | src/gopheros/kernel/mm/vmm/pagetable/amd64paging/L4_test.go:8-25 | on a zeroed table, bootstrapping 0x123456789876000 reads back the same address |
| `L4.PML4.Step` | src/gopheros/kernel/mm/vmm/pagetable/amd64paging/L4.go:23-26 | the base-table step on this table at `recurseBase`, whatever base the caller passes; its promise is stated by `StepIgnoresBase` and `StepForwards` |
| `L4.StepIgnoresBase` | src/gopheros/kernel/mm/vmm/pagetable/amd64paging/L4.go:23-26 | the result of `Step` does not depend on the base the caller passes |
| `L4.StepForwards` | src/gopheros/kernel/mm/vmm/pagetable/amd64paging/L4.go:23-26 | `Step` returns the base-table step's answer (address or error) for `recurseBase` and the same index and flags |
| `L4.RecurseBaseOffset` | src/gopheros/kernel/mm/vmm/pagetable/amd64paging/L4.go:5 | `recurseBase` has offset 0x800 and L1 field 511 |
| `L4.IntendedRecurseBaseSelfMaps` | src/gopheros/kernel/mm/vmm/pagetable/amd64paging/L4.go:5 | the corrected base is page-aligned, and each of its four index fields is slot 511 |
| `L3.MapOutcomeOf` | src/gopheros/kernel/mm/vmm/pagetable/amd64paging/L3.go:10-26 | the only change `Map` makes to this table is the one `GetMapping` makes to the L3 slot of `v`, given that the L2 `Map` does not write this table |
| `L3.PageDirectoryPointerTable.Map` | src/gopheros/kernel/mm/vmm/pagetable/amd64paging/L3.go:10-26 | the new table and the returned error are those of `MapOutcomeOf` |
| `L3.MapStopsOnMappingError` | src/gopheros/kernel/mm/vmm/pagetable/amd64paging/L3.go:14-16 | on allocation failure, `Map` returns that error, leaves the table unchanged, and its outcome depends on neither the step nor the L2 `Map` |
| `L3.MapStopsOnStepError` | src/gopheros/kernel/mm/vmm/pagetable/amd64paging/L3.go:19-22 | when `Step` fails, `Map` returns that error, and its outcome does not depend on the L2 `Map` |
| `L3.MapForwardsToNextLevel` | src/gopheros/kernel/mm/vmm/pagetable/amd64paging/L3.go:25 | otherwise `Map` returns what the L2 `Map` answers for the stepped-to table and the caller's `v`, `p` and `flags` |
| `L3.MapStepsWithPageTableFlags` | src/gopheros/kernel/mm/vmm/pagetable/amd64paging/L3.go:19 | the outcome depends on the step only at the L3 field of `v` and `pageTableFlags`, never at the caller's flags |
| `L3.MapOnMappedSlot` | src/gopheros/kernel/mm/vmm/pagetable/amd64paging/L3.go:14 | when the slot is already mapped, `Map` does not change the table and does not depend on the allocator |
| `L3.MapTouchesOnlyItsSlot` | src/gopheros/kernel/mm/vmm/pagetable/amd64paging/L3.go:11-14 | every entry other than the L3 slot of `v` is unchanged, given that the L2 `Map` does not write this table |
| `L3.PageDirectoryPointerTable.Step` | src/gopheros/kernel/mm/vmm/pagetable/amd64paging/L3.go:34-38 | the base-table step on this table at the L3 index of `v` and the caller's flags; its promise is stated by `StepForwardsFlags`, `StepReadsL3Field` and `StepIgnoresLowBits` |
| `L3.StepForwardsFlags` | src/gopheros/kernel/mm/vmm/pagetable/amd64paging/L3.go:36-37 | `Step` passes the caller's flags and the L3 index on to the base-table step and returns its answer unchanged: base steps that agree there give the same result |
| `L3.StepReadsL3Field` | src/gopheros/kernel/mm/vmm/pagetable/amd64paging/L3.go:34-38 | two addresses with the same L3 field take the same step |
| `L3.StepIgnoresLowBits` | src/gopheros/kernel/mm/vmm/pagetable/amd64paging/L3.go:36 | two addresses that agree on bits 30-63 take the same step |

## Left out

- The `toPointer` and `toAddress` methods (address.go:55-57, L3.go:40-42,
  L2.go:15-17) are left out. They reinterpret an integer as a pointer.
- The `ptrToPageDirectory` hook (L3.go:28-31) is a pointer retag.
  `PageDirectoryPointerTable.Step` returns the L2 table's address itself.
- `PageDirectory.Step` in L2.go is pure forwarding to `BaseTable.Step`, so it
  is not a member here. `L3.Map` takes the L2 `Map` as a parameter instead.
- The L2 `PageDirectory.Map` is not part of this model. The model
  captures only its returned error. Its effect on the L2 table and on lower
  levels is not modelled.
- L3.MapOutcomeOf: assumes that the L2 `Map` does not write this L3 table.
  `pd` is reached through the recursive mapping, so for the L3 table reached
  through L4 slot 511 and an address whose L3 field is 511, the L2 table is
  this same memory, and the L2 `Map` could change it. The model does not
  capture that aliasing.
- L3.MapTouchesOnlyItsSlot: holds only under the same no-aliasing
  assumption.
- AddressCodec.GetL4Index, AddressCodec.GetL3Index, AddressCodec.GetL2Index
  and AddressCodec.GetL1Index: `tableIndexMask` and `L1Mask`..`L4Mask` are
  declared outside the modelled files. The model takes them to be `0x1FF`
  and `0x1FF << LxLSB`, the 9-bit fields pagetable.go:9-23 lays out. The
  `GetLxIndex` rows and the `withLxIndex` finding depend on this choice. A
  mask built like L1.go:27's `1<<LxSize - 1` would be `0xFF` and drop the
  top bit of every index.
- `BaseTable.Step` is not part of this model. It is a parameter, so the
  model does not capture:
  - its checks of the entry (not mapped, flags mismatch);
  - the recursive-address formula it computes.
- The frame allocator is a parameter: the answer it would give.
  `mm.Frame` is taken to be the frame's physical address.
- `L4.PML4.Step` and `L3.PageDirectoryPointerTable.Step` are forwarding
  functions with no `ensures` of their own. What they promise is stated by
  the lemmas `StepIgnoresBase`, `StepForwards`, `StepForwardsFlags`,
  `StepReadsL3Field` and `StepIgnoresLowBits`.
- The empty structs and the second `Address` in pagetable.go:29-51 are draft
  duplicates of the types above. The model has one of each.
- `TestL4Step` is left out. It relies on hooks and a two-argument `Step` that
  the modelled code does not have, and it checks a pointer.
- `TestL4Map` is empty.
- Loading the root table into the control register (`Use`) is a hardware
  primitive.
- Concurrency is not modelled. The code does unsynchronised
  read-modify-writes on a table.
- `pageTableFlags` and the flags installed by the one-argument
  `GetMapping(idx)` of L3.go:14 are declared elsewhere. They stay abstract constants,
  `PageTableFlags` and `ImplicitMappingFlags`. pagetable_test.go calls a
  two-argument `GetMapping(idx, flags)`, which is what `BaseTable.GetMapping`
  models.

## Findings

| source | as written | input that shows it | evidently intended | confidence | as-written member | corrected member |
|---|---|---|---|---|---|---|
| src/gopheros/kernel/mm/vmm/pagetable/amd64paging/pagetable.go:53-55 | `getOffset` masks with `0xFF`, so `walk` keeps only 8 offset bits | map 0x100 to page 0x5000, then walk 0x100: the result is 0x5000 | the 12-bit offset, giving 0x5100 | not executed | `L1.WalkDropsOffsetBits` | `L1.IntendedMapThenWalk` |
| src/gopheros/kernel/mm/vmm/pagetable/amd64paging/L1.go:27 | the slot index is masked with `1<<L1Size - 1 = 0xFF`, because `L1Size` is 8 | 0x100000 and 0 both select slot 0, and slots 256-511 are never used | the 9-bit L1 field, masked with `0x1FF` | not executed | `L1.EntryIndexAliases` | `L1.IntendedReachableSlots` |
| src/gopheros/kernel/mm/vmm/pagetable/amd64paging/address.go:27-53 | `withLxIndex` inserts the index without shifting it to the field | `withL4Index(0, 5)` reads back index 0 | shift the index by `LxLSB` before masking | not executed | `AddressCodec.WithIndexDropsSmallIndex` | `AddressCodec.PlaceIndexRoundTrip` |
| src/gopheros/kernel/mm/vmm/pagetable/amd64paging/L4.go:5 | `recurseBase` clears `OffsetSize = 11` bits | the result is 0xFFFF_FFFF_FFFF_F800, with offset 0x800 | all index fields 511 and offset 0, i.e. 0xFFFF_FFFF_FFFF_F000 | not executed | `L4.RecurseBaseOffset` | `L4.IntendedRecurseBaseSelfMaps` |

The level tables use the as-written definitions, since they model what the
code does. The corrected definitions stand beside them, with their
properties proved.
