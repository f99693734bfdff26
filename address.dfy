/** The address bit-field codec (amd64paging/address.go): masking and
    shifting on a 64-bit address, with no state and no error cases.

    `tableIndexMask` and `L1Mask`..`L4Mask` are declared outside the
    amd64paging files modelled here. They are taken to be `0x1FF` and
    `0x1FF << LxLSB`, the full 9-bit field that pagetable.go lays out for
    each level. This is a choice, not something the code fixes: a mask built
    the way L1.go builds its own, `1<<LxSize - 1`, would be `0xFF` and drop
    the top bit of every index. The `GetLxIndex` contracts and the
    `withLxIndex` finding rest on this choice.

    Inside the functions and contracts, shift amounts and masks are written
    as literals (a shift by 39 is a shift by `L4LSB`, `0xFF80_0000_0000` is
    `L4Mask`); `LiteralsMatchLayout` proves that these literals are the
    layout's values. */
module AddressCodec {
  import opened Layout

  const TableIndexMask: Address := 0x1FF
  const L4Mask: Address := 0xFF80_0000_0000
  const L3Mask: Address := 0x7F_C000_0000
  const L2Mask: Address := 0x3FE0_0000
  const L1Mask: Address := 0x1F_F000
  const OffsetMask: Address := 0xFFF

  /** Replaces the bits of `addr` selected by `mask` with those of
      `insertion`: inside the mask the result agrees with the insertion,
      outside it with the original address. */
  function WithBits(addr: Address, insertion: Address, mask: Address): (r: Address)
    ensures r & mask == insertion & mask
    ensures r & !mask == addr & !mask
  {
    (addr & !mask) | (insertion & mask)
  }

  /** The 12-bit page offset of an address. */
  function Offset(addr: Address): (r: Address)
    ensures r <= 0xFFF
    ensures r & 0xFFF == addr & 0xFFF
  {
    addr & 0xFFF
  }

  /** Replaces the 12-bit offset of an address. */
  function WithOffset(addr: Address, offset: Address): (r: Address)
    ensures Offset(r) == offset & 0xFFF
    ensures r & !0xFFF == addr & !0xFFF
  {
    WithBits(addr, offset, 0xFFF)
  }

  /** The L4 index: the field at bits 39-47, shifted down to the bottom. */
  function GetL4Index(addr: Address): (r: bv64)
    ensures r <= 0x1FF
    ensures r << 39 == addr & 0xFF80_0000_0000
  {
    (addr >> 39) & 0x1FF
  }

  /** Writes `idx` into the L4 field of `addr` without shifting it. */
  function WithL4Index(addr: Address, idx: bv64): (r: Address)
    ensures r & 0xFF80_0000_0000 == idx & 0xFF80_0000_0000
    ensures r & !0xFF80_0000_0000 == addr & !0xFF80_0000_0000
  {
    WithBits(addr, idx, 0xFF80_0000_0000)
  }

  /** The L3 index: the field at bits 30-38, shifted down to the bottom. */
  function GetL3Index(addr: Address): (r: bv64)
    ensures r <= 0x1FF
    ensures r << 30 == addr & 0x7F_C000_0000
  {
    (addr >> 30) & 0x1FF
  }

  /** Writes `idx` into the L3 field of `addr` without shifting it. */
  function WithL3Index(addr: Address, idx: bv64): (r: Address)
    ensures r & 0x7F_C000_0000 == idx & 0x7F_C000_0000
    ensures r & !0x7F_C000_0000 == addr & !0x7F_C000_0000
  {
    WithBits(addr, idx, 0x7F_C000_0000)
  }

  /** The L2 index: the field at bits 21-29, shifted down to the bottom. */
  function GetL2Index(addr: Address): (r: bv64)
    ensures r <= 0x1FF
    ensures r << 21 == addr & 0x3FE0_0000
  {
    (addr >> 21) & 0x1FF
  }

  /** Writes `idx` into the L2 field of `addr` without shifting it. */
  function WithL2Index(addr: Address, idx: bv64): (r: Address)
    ensures r & 0x3FE0_0000 == idx & 0x3FE0_0000
    ensures r & !0x3FE0_0000 == addr & !0x3FE0_0000
  {
    WithBits(addr, idx, 0x3FE0_0000)
  }

  /** The L1 index: the field at bits 12-20, shifted down to the bottom. */
  function GetL1Index(addr: Address): (r: bv64)
    ensures r <= 0x1FF
    ensures r << 12 == addr & 0x1F_F000
  {
    (addr >> 12) & 0x1FF
  }

  /** Writes `idx` into the L1 field of `addr` without shifting it. */
  function WithL1Index(addr: Address, idx: bv64): (r: Address)
    ensures r & 0x1F_F000 == idx & 0x1F_F000
    ensures r & !0x1F_F000 == addr & !0x1F_F000
  {
    WithBits(addr, idx, 0x1F_F000)
  }

  /** The literal shift amounts and masks are the layout's: each mask is
      the 9-bit index mask moved up to the field's LSB, the offset mask is
      the low `OffsetMSB + 1` bits, and together the five masks are
      pairwise disjoint and cover bits 0-47. */
  lemma LiteralsMatchLayout()
    ensures L4LSB == 39 && L3LSB == 30 && L2LSB == 21 && L1LSB == 12
    ensures L4Mask == TableIndexMask << L4LSB && L3Mask == TableIndexMask << L3LSB
    ensures L2Mask == TableIndexMask << L2LSB && L1Mask == TableIndexMask << L1LSB
    ensures OffsetMask == ((1 as bv64) << (OffsetMSB + 1)) - 1
    ensures L4Mask & L3Mask == 0 && L4Mask & L2Mask == 0 && L4Mask & L1Mask == 0
    ensures L4Mask & OffsetMask == 0 && L3Mask & L2Mask == 0 && L3Mask & L1Mask == 0
    ensures L3Mask & OffsetMask == 0 && L2Mask & L1Mask == 0 && L2Mask & OffsetMask == 0
    ensures L1Mask & OffsetMask == 0
    ensures L4Mask | L3Mask | L2Mask | L1Mask | OffsetMask == 0xFFFF_FFFF_FFFF
  {
  }

  // Laws of `withBits`, for any masks; the field writers are `WithBits`
  // under the five field masks, and their laws follow from these.
  //
  // Proof steps, not properties: the `Bits*` lemmas are bit-vector
  // identities, the `*By` lemmas restate them for named intermediate values,
  // and `WithBitsIs`, `WithBitsSameMaskTwice`, `WithBitsTwice` and
  // `WithBitsTwiceSwapped` restate `WithBits` in closed form. They keep each
  // solver query to one unfolding of `WithBits`, which the solver needs to
  // stay within the resource limit.

  lemma BitsLastWriteWins(a: Address, x: Address, y: Address, m: Address)
    ensures (((a & !m) | (x & m)) & !m) | (y & m) == (a & !m) | (y & m)
  {
  }

  lemma SameMaskTwiceBy(a: Address, x: Address, y: Address, m: Address,
                        w: Address, r: Address)
    requires w == (a & !m) | (x & m)
    requires r == (w & !m) | (y & m)
    ensures r == (a & !m) | (y & m)
  {
    BitsLastWriteWins(a, x, y, m);
  }

  /** Two writes under the same mask, in closed form. */
  lemma WithBitsSameMaskTwice(a: Address, x: Address, y: Address, m: Address)
    ensures WithBits(WithBits(a, x, m), y, m) == (a & !m) | (y & m)
  {
    var w := WithBits(a, x, m);
    SameMaskTwiceBy(a, x, y, m, w, WithBits(w, y, m));
  }

  /** `WithBits` in closed form. */
  lemma WithBitsIs(a: Address, x: Address, m: Address)
    ensures WithBits(a, x, m) == (a & !m) | (x & m)
  {
  }

  /** Of two writes under the same mask, the last one wins. */
  lemma WithBitsLastWriteWins(a: Address, x: Address, y: Address, m: Address)
    ensures WithBits(WithBits(a, x, m), y, m) == WithBits(a, y, m)
  {
    WithBitsSameMaskTwice(a, x, y, m);
    WithBitsIs(a, y, m);
  }

  lemma BitsTwoWrites(a: Address, x: Address, y: Address, m: Address, n: Address)
    requires m & n == 0
    ensures (((a & !m) | (x & m)) & !n) | (y & n) == (a & !(m | n)) | (x & m) | (y & n)
  {
  }

  lemma BitsTwoWritesSwapped(a: Address, x: Address, y: Address, m: Address, n: Address)
    requires m & n == 0
    ensures (((a & !n) | (y & n)) & !m) | (x & m) == (a & !(m | n)) | (x & m) | (y & n)
  {
  }

  lemma TwoWritesBy(a: Address, x: Address, y: Address, m: Address, n: Address,
                    w: Address, r: Address)
    requires m & n == 0
    requires w == (a & !m) | (x & m)
    requires r == (w & !n) | (y & n)
    ensures r == (a & !(m | n)) | (x & m) | (y & n)
  {
    BitsTwoWrites(a, x, y, m, n);
  }

  lemma TwoWritesSwappedBy(a: Address, x: Address, y: Address, m: Address, n: Address,
                           u: Address, q: Address)
    requires m & n == 0
    requires u == (a & !n) | (y & n)
    requires q == (u & !m) | (x & m)
    ensures q == (a & !(m | n)) | (x & m) | (y & n)
  {
    BitsTwoWritesSwapped(a, x, y, m, n);
  }

  /** Writing under `m` and then under a disjoint `n`, in closed form. */
  lemma WithBitsTwice(a: Address, x: Address, y: Address, m: Address, n: Address)
    requires m & n == 0
    ensures WithBits(WithBits(a, x, m), y, n) == (a & !(m | n)) | (x & m) | (y & n)
  {
    var w := WithBits(a, x, m);
    TwoWritesBy(a, x, y, m, n, w, WithBits(w, y, n));
  }

  /** Writing under `n` and then under a disjoint `m`, in the same closed
      form. */
  lemma WithBitsTwiceSwapped(a: Address, x: Address, y: Address, m: Address, n: Address)
    requires m & n == 0
    ensures WithBits(WithBits(a, y, n), x, m) == (a & !(m | n)) | (x & m) | (y & n)
  {
    var u := WithBits(a, y, n);
    TwoWritesSwappedBy(a, x, y, m, n, u, WithBits(u, x, m));
  }

  /** Writes under disjoint masks commute. */
  lemma WithBitsCommute(a: Address, x: Address, y: Address, m: Address, n: Address)
    requires m & n == 0
    ensures WithBits(WithBits(a, x, m), y, n) == WithBits(WithBits(a, y, n), x, m)
  {
    WithBitsTwice(a, x, y, m, n);
    WithBitsTwiceSwapped(a, x, y, m, n);
  }

  lemma BitsKeepDisjoint(a: Address, x: Address, m: Address, n: Address)
    requires m & n == 0
    ensures ((a & !m) | (x & m)) & n == a & n
  {
  }

  lemma KeepDisjointBy(a: Address, x: Address, m: Address, n: Address, w: Address)
    requires m & n == 0
    requires w == (a & !m) | (x & m)
    ensures w & n == a & n
  {
    BitsKeepDisjoint(a, x, m, n);
  }

  /** A write under one mask leaves the bits under a disjoint mask as they
      were. */
  lemma WithBitsKeepsDisjoint(a: Address, x: Address, m: Address, n: Address)
    requires m & n == 0
    ensures WithBits(a, x, m) & n == a & n
  {
    KeepDisjointBy(a, x, m, n, WithBits(a, x, m));
  }

  /** One of the five field masks: the four index fields and the offset. */
  predicate IsFieldMask(m: Address)
  {
    m == L4Mask || m == L3Mask || m == L2Mask || m == L1Mask || m == OffsetMask
  }

  /** Any two different field masks are disjoint. */
  lemma FieldMasksDisjoint(m: Address, n: Address)
    requires IsFieldMask(m) && IsFieldMask(n) && m != n
    ensures m & n == 0
  {
  }

  /** Writes to two different fields commute: all ten pairs of the four
      index writers and `withOffset`, each of which is `WithBits` under its
      field mask. */
  lemma FieldWritesCommute(a: Address, x: Address, y: Address, m: Address, n: Address)
    requires IsFieldMask(m) && IsFieldMask(n) && m != n
    ensures WithBits(WithBits(a, x, m), y, n) == WithBits(WithBits(a, y, n), x, m)
  {
    FieldMasksDisjoint(m, n);
    WithBitsCommute(a, x, y, m, n);
  }

  /** Of two offset writes, the last one wins. */
  lemma WithOffsetLastWriteWins(a: Address, x: Address, y: Address)
    ensures WithOffset(WithOffset(a, x), y) == WithOffset(a, y)
  {
    WithBitsLastWriteWins(a, x, y, OffsetMask);
  }

  /** Of two L4 index writes, the last one wins. */
  lemma WithL4IndexLastWriteWins(a: Address, x: bv64, y: bv64)
    ensures WithL4Index(WithL4Index(a, x), y) == WithL4Index(a, y)
  {
    WithBitsLastWriteWins(a, x, y, L4Mask);
  }

  /** Of two L3 index writes, the last one wins. */
  lemma WithL3IndexLastWriteWins(a: Address, x: bv64, y: bv64)
    ensures WithL3Index(WithL3Index(a, x), y) == WithL3Index(a, y)
  {
    WithBitsLastWriteWins(a, x, y, L3Mask);
  }

  /** Of two L2 index writes, the last one wins. */
  lemma WithL2IndexLastWriteWins(a: Address, x: bv64, y: bv64)
    ensures WithL2Index(WithL2Index(a, x), y) == WithL2Index(a, y)
  {
    WithBitsLastWriteWins(a, x, y, L2Mask);
  }

  /** Of two L1 index writes, the last one wins. */
  lemma WithL1IndexLastWriteWins(a: Address, x: bv64, y: bv64)
    ensures WithL1Index(WithL1Index(a, x), y) == WithL1Index(a, y)
  {
    WithBitsLastWriteWins(a, x, y, L1Mask);
  }

  /** Writes to the L4 and L3 fields commute. */
  lemma WithL4L3IndexCommute(a: Address, i: bv64, j: bv64)
    ensures WithL4Index(WithL3Index(a, i), j) == WithL3Index(WithL4Index(a, j), i)
  {
    FieldWritesCommute(a, i, j, L3Mask, L4Mask);
  }

  /** Writes to the L1 field and to the offset commute. */
  lemma WithL1IndexOffsetCommute(a: Address, i: bv64, j: bv64)
    ensures WithL1Index(WithOffset(a, i), j) == WithOffset(WithL1Index(a, j), i)
  {
    FieldWritesCommute(a, i, j, OffsetMask, L1Mask);
  }

  /** Writing back the offset an address already has changes nothing. */
  lemma WithOffsetOwnOffset(a: Address)
    ensures WithOffset(a, Offset(a)) == a
  {
  }

  /** An index reading depends only on the bits from the field's LSB up:
      addresses that agree there have the same index. */
  lemma IndexDependsOnHighBits(a: Address, b: Address)
    ensures a >> 39 == b >> 39 ==> GetL4Index(a) == GetL4Index(b)
    ensures a >> 30 == b >> 30 ==> GetL3Index(a) == GetL3Index(b)
    ensures a >> 21 == b >> 21 ==> GetL2Index(a) == GetL2Index(b)
    ensures a >> 12 == b >> 12 ==> GetL1Index(a) == GetL1Index(b)
  {
  }

  /** An index reading depends only on the bits of its own field. */
  lemma IndexReadsOwnField(a: Address, b: Address)
    ensures a & L4Mask == b & L4Mask ==> GetL4Index(a) == GetL4Index(b)
    ensures a & L3Mask == b & L3Mask ==> GetL3Index(a) == GetL3Index(b)
    ensures a & L2Mask == b & L2Mask ==> GetL2Index(a) == GetL2Index(b)
    ensures a & L1Mask == b & L1Mask ==> GetL1Index(a) == GetL1Index(b)
    ensures a & OffsetMask == b & OffsetMask ==> Offset(a) == Offset(b)
  {
  }

  /** A write under field mask `m` leaves every field other than `m`'s as it
      was. */
  lemma FieldWriteKeepsOtherFields(a: Address, x: Address, m: Address)
    requires IsFieldMask(m)
    ensures var r := WithBits(a, x, m);
      (m != L4Mask ==> GetL4Index(r) == GetL4Index(a)) &&
      (m != L3Mask ==> GetL3Index(r) == GetL3Index(a)) &&
      (m != L2Mask ==> GetL2Index(r) == GetL2Index(a)) &&
      (m != L1Mask ==> GetL1Index(r) == GetL1Index(a)) &&
      (m != OffsetMask ==> Offset(r) == Offset(a))
  {
    var r := WithBits(a, x, m);
    if m != L4Mask { FieldMasksDisjoint(m, L4Mask); WithBitsKeepsDisjoint(a, x, m, L4Mask); }
    if m != L3Mask { FieldMasksDisjoint(m, L3Mask); WithBitsKeepsDisjoint(a, x, m, L3Mask); }
    if m != L2Mask { FieldMasksDisjoint(m, L2Mask); WithBitsKeepsDisjoint(a, x, m, L2Mask); }
    if m != L1Mask { FieldMasksDisjoint(m, L1Mask); WithBitsKeepsDisjoint(a, x, m, L1Mask); }
    if m != OffsetMask { FieldMasksDisjoint(m, OffsetMask); WithBitsKeepsDisjoint(a, x, m, OffsetMask); }
    IndexReadsOwnField(r, a);
  }

  /** Writing the L4 index leaves the other fields as they were. */
  lemma WithL4IndexKeepsOtherFields(a: Address, i: bv64)
    ensures var r := WithL4Index(a, i);
      GetL3Index(r) == GetL3Index(a) && GetL2Index(r) == GetL2Index(a) &&
      GetL1Index(r) == GetL1Index(a) && Offset(r) == Offset(a)
  {
    FieldWriteKeepsOtherFields(a, i, L4Mask);
  }

  /** Writing the L3 index leaves the other fields as they were. */
  lemma WithL3IndexKeepsOtherFields(a: Address, i: bv64)
    ensures var r := WithL3Index(a, i);
      GetL4Index(r) == GetL4Index(a) && GetL2Index(r) == GetL2Index(a) &&
      GetL1Index(r) == GetL1Index(a) && Offset(r) == Offset(a)
  {
    FieldWriteKeepsOtherFields(a, i, L3Mask);
  }

  /** Writing the L2 index leaves the other fields as they were. */
  lemma WithL2IndexKeepsOtherFields(a: Address, i: bv64)
    ensures var r := WithL2Index(a, i);
      GetL4Index(r) == GetL4Index(a) && GetL3Index(r) == GetL3Index(a) &&
      GetL1Index(r) == GetL1Index(a) && Offset(r) == Offset(a)
  {
    FieldWriteKeepsOtherFields(a, i, L2Mask);
  }

  /** Writing the L1 index leaves the other fields as they were. */
  lemma WithL1IndexKeepsOtherFields(a: Address, i: bv64)
    ensures var r := WithL1Index(a, i);
      GetL4Index(r) == GetL4Index(a) && GetL3Index(r) == GetL3Index(a) &&
      GetL2Index(r) == GetL2Index(a) && Offset(r) == Offset(a)
  {
    FieldWriteKeepsOtherFields(a, i, L1Mask);
  }

  /** Writing the offset leaves the four index fields as they were. */
  lemma WithOffsetKeepsIndices(a: Address, x: Address)
    ensures var r := WithOffset(a, x);
      GetL4Index(r) == GetL4Index(a) && GetL3Index(r) == GetL3Index(a) &&
      GetL2Index(r) == GetL2Index(a) && GetL1Index(r) == GetL1Index(a)
  {
    FieldWriteKeepsOtherFields(a, x, OffsetMask);
  }

  /** As written, `withLxIndex` inserts `idx` unshifted, so the index read
      back is the one found in the same field of `idx` itself. */
  lemma WithIndexReadsFieldOfIndex(a: Address, i: bv64)
    ensures GetL4Index(WithL4Index(a, i)) == GetL4Index(i)
    ensures GetL3Index(WithL3Index(a, i)) == GetL3Index(i)
    ensures GetL2Index(WithL2Index(a, i)) == GetL2Index(i)
    ensures GetL1Index(WithL1Index(a, i)) == GetL1Index(i)
  {
  }

  /** A concrete instance: writing the index 5 yields index 0 at every level,
      since 5 has no bits in any index field. */
  lemma WithIndexDropsSmallIndex()
    ensures GetL4Index(WithL4Index(0, 5)) == 0
    ensures GetL3Index(WithL3Index(0, 5)) == 0
    ensures GetL2Index(WithL2Index(0, 5)) == 0
    ensures GetL1Index(WithL1Index(0, 5)) == 0
  {
  }

  // Index writers corrected to shift the index into place.

  /** Places the index `idx` into the L4 field. */
  function PlaceL4Index(addr: Address, idx: bv64): (r: Address)
    ensures GetL4Index(r) == idx & 0x1FF
    ensures r & !0xFF80_0000_0000 == addr & !0xFF80_0000_0000
  {
    WithBits(addr, idx << 39, 0xFF80_0000_0000)
  }

  /** Places the index `idx` into the L3 field. */
  function PlaceL3Index(addr: Address, idx: bv64): (r: Address)
    ensures GetL3Index(r) == idx & 0x1FF
    ensures r & !0x7F_C000_0000 == addr & !0x7F_C000_0000
  {
    WithBits(addr, idx << 30, 0x7F_C000_0000)
  }

  /** Places the index `idx` into the L2 field. */
  function PlaceL2Index(addr: Address, idx: bv64): (r: Address)
    ensures GetL2Index(r) == idx & 0x1FF
    ensures r & !0x3FE0_0000 == addr & !0x3FE0_0000
  {
    WithBits(addr, idx << 21, 0x3FE0_0000)
  }

  /** Places the index `idx` into the L1 field. */
  function PlaceL1Index(addr: Address, idx: bv64): (r: Address)
    ensures GetL1Index(r) == idx & 0x1FF
    ensures r & !0x1F_F000 == addr & !0x1F_F000
  {
    WithBits(addr, idx << 12, 0x1F_F000)
  }

  /** The corrected writers round-trip every valid index (0-511). */
  lemma PlaceIndexRoundTrip(a: Address, i: bv64)
    requires i <= 0x1FF
    ensures GetL4Index(PlaceL4Index(a, i)) == i
    ensures GetL3Index(PlaceL3Index(a, i)) == i
    ensures GetL2Index(PlaceL2Index(a, i)) == i
    ensures GetL1Index(PlaceL1Index(a, i)) == i
  {
  }
}
