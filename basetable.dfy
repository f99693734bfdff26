/** The generic 512-entry table that every paging level reinterprets.
    `BaseTable`, its `GetMapping` and `Step` methods, `SelfAddressIndex`
    and `pageTableFlags` are declared outside the files modelled here;
    this module gives each the smallest definition that L1.go, L3.go,
    L4.go and their tests pin down.

    - A table is an array of 512 entries, shared in place by the level
      types (`(*BaseTable)(pdpt)` is a retag of the same memory), so the
      operations here take the level's array.
    - `GetMapping` follows pagetable_test.go: an empty slot is filled with
      the allocator's frame and the given flags; an occupied slot is left
      as it was and the allocator's answer is not used. The frame
      allocator is a parameter: the answer it would give if asked.
    - `Step` is left abstract: its result is supplied as a function of the
      table contents and the arguments, because the recursive-address
      formula inside it is not part of this model. */
module BaseTable {
  import opened Layout
  import opened Entry

  /** Entries per table: 4096 bytes of 8-byte entries. */
  const TableSize: nat := 512

  /** A valid index into a table. */
  type TableIndex = i: nat | i < 512

  /** The L4 slot that maps the L4 table onto itself: the last one. */
  const SelfAddressIndex: TableIndex := 511

  /** The flags `Step` is called with while descending in `Map`. */
  const PageTableFlags: bv64

  /** The flags the one-argument `GetMapping(idx)` installs. */
  const ImplicitMappingFlags: bv64

  datatype Option<T> = None | Some(value: T)

  /** The errors of the paging code. `AllocationFailed` carries the frame
      allocator's own message; `NotMapped` and `PermissionsMismatch` are the
      errors the base-table `Step`, a parameter here, may return. */
  datatype Error =
    | NotMapped
    | PermissionsMismatch(actual: bv64, requested: bv64)
    | AllocationFailed(reason: string)

  datatype Result<T> = Ok(value: T) | Err(error: Error)

  /** The table contents after an operation, and the error it returned. */
  datatype Outcome = Outcome(entries: seq<TableEntry>, err: Option<Error>)

  /** `BaseTable.Step(base, idx, flags)` as L4.go and L2.go call it. */
  type StepWithBase = (seq<TableEntry>, Address, bv64, bv64) -> Result<Address>

  /** `BaseTable.Step(idx, flags)` as L3.go calls it. */
  type StepAtIndex = (seq<TableEntry>, bv64, bv64) -> Result<Address>

  /** What `GetMapping(idx, flags)` does to the table `s` when the frame
      allocator would answer `frame`. */
  function GetMappingOf(s: seq<TableEntry>, idx: TableIndex, flags: bv64,
                        frame: Result<Address>): (o: Outcome)
    requires |s| == TableSize
    ensures |o.entries| == TableSize
    ensures forall j :: 0 <= j < TableSize && j != idx ==> o.entries[j] == s[j]
    ensures s[idx] != NilMapping ==> o == Outcome(s, None)
    ensures s[idx] == NilMapping && frame.Err? ==> o == Outcome(s, Some(frame.error))
    ensures s[idx] == NilMapping && frame.Ok? ==>
      o.err == None &&
      EntryAddress(o.entries[idx]) == frame.value & !0xFFF &&
      EntryFlags(o.entries[idx]) == flags & 0xFFF
  {
    if s[idx] != NilMapping then Outcome(s, None)
    else match frame
      case Err(e) => Outcome(s, Some(e))
      case Ok(f) => Outcome(s[idx := SetFlags(SetAddress(NilMapping, f), flags)], None)
  }

  /** `GetMapping` in place on a table. */
  method GetMapping(t: array<TableEntry>, idx: TableIndex, flags: bv64,
                    frame: Result<Address>) returns (err: Option<Error>)
    requires t.Length == TableSize
    modifies t
    ensures Outcome(t[..], err) == GetMappingOf(old(t[..]), idx, flags, frame)
  {
    if t[idx] != NilMapping {
      return None;
    }
    match frame
    case Err(e) =>
      return Some(e);
    case Ok(f) =>
      var entry := SetAddress(NilMapping, f);
      entry := SetFlags(entry, flags);
      t[idx] := entry;
      return None;
  }

  /** Once a slot holds a non-nil entry, further `GetMapping` calls on it
      change nothing and succeed, whatever flags they pass and whatever
      the allocator would answer. */
  lemma GetMappingIdempotent(s: seq<TableEntry>, idx: TableIndex, flags: bv64,
                             frame: Result<Address>, flags2: bv64, frame2: Result<Address>)
    requires |s| == TableSize
    requires GetMappingOf(s, idx, flags, frame).entries[idx] != NilMapping
    ensures var o := GetMappingOf(s, idx, flags, frame);
      GetMappingOf(o.entries, idx, flags2, frame2) == Outcome(o.entries, None)
  {
  }

  /** The allocator is consulted exactly for an empty slot: an occupied
      slot gives the same successful no-op whatever the allocator would
      answer, and for an empty slot some answer (a failure) shows through. */
  lemma GetMappingConsultsAllocatorIffEmpty(s: seq<TableEntry>, idx: TableIndex, flags: bv64)
    requires |s| == TableSize
    ensures s[idx] != NilMapping <==>
      (forall frame: Result<Address> :: GetMappingOf(s, idx, flags, frame) == Outcome(s, None))
  {
    if s[idx] == NilMapping {
      assert GetMappingOf(s, idx, flags, Err(AllocationFailed(""))).err != None;
    }
  }

  /** The two calls of pagetable_test.go on an empty table: the first
      installs frame 0x123456789000 with flags 0xFFF, and the second, with
      the allocator now answering 0x987654321000, leaves it in place. */
  lemma GetMappingTwiceExample()
    ensures var empty := seq(TableSize, _ => NilMapping);
      var o1 := GetMappingOf(empty, 0, 0xFFF, Ok(0x0000_1234_5678_9000));
      var o2 := GetMappingOf(o1.entries, 0, 0xFFF, Ok(0x0000_9876_5432_1000));
      o1.err == None && o2.err == None &&
      EntryAddress(o2.entries[0]) == 0x0000_1234_5678_9000 &&
      EntryFlags(o2.entries[0]) == 0xFFF
  {
    var empty := seq(TableSize, _ => NilMapping);
    var o1 := GetMappingOf(empty, 0, 0xFFF, Ok(0x0000_1234_5678_9000));
    assert EntryAddress(o1.entries[0]) == 0x0000_1234_5678_9000;
  }
}
