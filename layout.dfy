/** Bit layout of an amd64 4-level virtual address and the page size
    (amd64paging/pagetable.go), as the source writes the constants.

    The constants are the source's own values. Note that the source derives
    each `LxSize` as `MSB - LSB`, which is 8 although every index field spans
    9 bits, and that `OffsetSize` is `OffsetMSB`, i.e. 11 although the offset
    spans 12 bits. Both facts are stated below as lemmas. */
module Layout {

  /** A 64-bit address, `type Address uint64` in the source. */
  type Address = bv64

  /** The page size of amd64 processors. */
  const PageSize: nat := 4096

  const L4MSB: nat := 47
  const L4LSB: nat := 39
  const L4Size: nat := L4MSB - L4LSB

  const L3MSB: nat := 38
  const L3LSB: nat := 30
  const L3Size: nat := L3MSB - L3LSB

  const L2MSB: nat := 29
  const L2LSB: nat := 21
  const L2Size: nat := L2MSB - L2LSB

  const L1MSB: nat := 20
  const L1LSB: nat := 12
  const L1Size: nat := L1MSB - L1LSB

  const OffsetMSB: nat := 11
  const OffsetSize: nat := OffsetMSB

  /** The offset of an address as `getOffset` computes it: it keeps the low
      8 bits only (the mask is `0xFF`, not the 12-bit `0xFFF`). */
  function GetOffset(addr: Address): (r: Address)
    ensures r <= 0xFF
    ensures r & 0xFF == addr & 0xFF
  {
    addr & 0xFF
  }

  /** The four index fields and the offset are adjacent and do not overlap:
      each field starts one bit above the end of the next lower one, and the
      L1 field starts at bit 12. */
  lemma FieldsAdjacent()
    ensures L4LSB == L3MSB + 1
    ensures L3LSB == L2MSB + 1
    ensures L2LSB == L1MSB + 1
    ensures L1LSB == OffsetMSB + 1 == 12
  {
  }

  /** Every derived `LxSize` is 8, one less than the 9 bits the field spans. */
  lemma SizesAreOneShort()
    ensures L4Size == L3Size == L2Size == L1Size == 8
    ensures L4MSB - L4LSB + 1 == 9 && L1MSB - L1LSB + 1 == 9
  {
  }

  /** `OffsetSize` is `OffsetMSB`, i.e. 11, although the offset spans 12 bits. */
  lemma OffsetSizeIsMSB()
    ensures OffsetSize == OffsetMSB == 11
    ensures OffsetMSB + 1 == 12
  {
  }

  /** A page is 4096 bytes, which is one unit of the L1 index field. */
  lemma PageSizeIsL1Unit()
    ensures PageSize == 4096
    ensures (1 as bv64) << L1LSB == 4096
  {
  }

  /** `getOffset` is idempotent. */
  lemma GetOffsetIdempotent(addr: Address)
    ensures GetOffset(GetOffset(addr)) == GetOffset(addr)
  {
  }

  /** `getOffset` ignores bits 8 and up: addresses that agree on their low
      8 bits have the same offset, and only then. */
  lemma GetOffsetIgnoresHighBits(a: Address, b: Address)
    ensures GetOffset(a) == GetOffset(b) <==> a & 0xFF == b & 0xFF
  {
  }
}
