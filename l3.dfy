/** The L3 table, PDPT (amd64paging/L3.go): `Map` makes sure the slot for
    the L3 field of the virtual address is mapped, steps into the L2 table
    it names and hands the mapping on to that table, returning the first
    error it meets.

    The next level's `Map` (the L2 `PageDirectory.Map`) is not part of this
    model; it is a parameter here, the answer it gives for the L2
    table address and the caller's arguments. Its effect on memory is not
    modelled, so the model assumes that the L2 table it writes is not this
    table: `pd` is reached through the recursive mapping, and for an L3
    table reached through L4 slot 511 and an address whose L3 field is 511
    the two are the same memory, which the model does not capture. */
module L3 {
  import opened Layout
  import opened AddressCodec
  import opened Entry
  import opened BaseTable

  /** `pd.Map(v, p, flags)` on the L2 table at address `pd`. */
  type NextMap = (Address, Address, Address, bv64) -> Option<Error>

  /** What `Map(v, p, flags)` does to the table `s` and returns, when the
      frame allocator would answer `frame`, the base-table step answers with
      `step` and the L2 `Map` with `next`. The L2 `Map` is taken not to
      write this table. */
  function MapOutcomeOf(s: seq<TableEntry>, v: Address, p: Address, flags: bv64,
                        frame: Result<Address>, step: StepAtIndex, next: NextMap): (o: Outcome)
    requires |s| == TableSize
    ensures o.entries == GetMappingOf(s, GetL3Index(v) as int, ImplicitMappingFlags, frame).entries
  {
    var g := GetMappingOf(s, GetL3Index(v) as int, ImplicitMappingFlags, frame);
    if g.err.Some? then g
    else match step(g.entries, GetL3Index(v), PageTableFlags)
      case Err(e) => Outcome(g.entries, Some(e))
      case Ok(pd) => Outcome(g.entries, next(pd, v, p, flags))
  }

  class PageDirectoryPointerTable {
    const entries: array<TableEntry>

    ghost predicate Valid()
      reads this
    {
      entries.Length == TableSize
    }

    /** A zeroed table. */
    constructor ()
      ensures Valid() && fresh(entries)
      ensures forall j :: 0 <= j < TableSize ==> entries[j] == NilMapping
    {
      entries := new TableEntry[TableSize](_ => NilMapping);
    }

    /** `Step(v, flags)`: the base-table step for the L3 field of `v`. */
    function Step(v: Address, flags: bv64, step: StepAtIndex): Result<Address>
      requires Valid()
      reads this, entries
    {
      step(entries[..], GetL3Index(v), flags)
    }

    /** Maps `v` to `p` through this table, as `Map` does. */
    method Map(v: Address, p: Address, flags: bv64, frame: Result<Address>,
               step: StepAtIndex, next: NextMap) returns (err: Option<Error>)
      requires Valid()
      modifies entries
      ensures Outcome(entries[..], err) == MapOutcomeOf(old(entries[..]), v, p, flags, frame, step, next)
    {
      err := GetMapping(entries, GetL3Index(v) as int, ImplicitMappingFlags, frame);
      if err.Some? {
        return;
      }
      var pd := Step(v, PageTableFlags, step);
      if pd.Err? {
        return Some(pd.error);
      }
      err := next(pd.value, v, p, flags);
    }
  }

  /** When `GetMapping` fails, `Map` returns its error, leaves the table as
      it was, and neither steps nor calls the L2 `Map`: the outcome is the
      same for any step and any L2 `Map`. */
  lemma MapStopsOnMappingError(s: seq<TableEntry>, v: Address, p: Address, flags: bv64,
                               e: Error, step: StepAtIndex, next: NextMap,
                               step2: StepAtIndex, next2: NextMap)
    requires |s| == TableSize
    requires s[GetL3Index(v) as int] == NilMapping
    ensures MapOutcomeOf(s, v, p, flags, Err(e), step, next) == Outcome(s, Some(e))
    ensures MapOutcomeOf(s, v, p, flags, Err(e), step, next)
         == MapOutcomeOf(s, v, p, flags, Err(e), step2, next2)
  {
  }

  /** When the step fails, `Map` returns its error and does not call the
      L2 `Map`. */
  lemma MapStopsOnStepError(s: seq<TableEntry>, v: Address, p: Address, flags: bv64,
                            frame: Result<Address>, step: StepAtIndex, next: NextMap,
                            next2: NextMap, e: Error)
    requires |s| == TableSize
    requires GetMappingOf(s, GetL3Index(v) as int, ImplicitMappingFlags, frame).err == None
    requires step(GetMappingOf(s, GetL3Index(v) as int, ImplicitMappingFlags, frame).entries,
                  GetL3Index(v), PageTableFlags) == Err(e)
    ensures MapOutcomeOf(s, v, p, flags, frame, step, next).err == Some(e)
    ensures MapOutcomeOf(s, v, p, flags, frame, step, next)
         == MapOutcomeOf(s, v, p, flags, frame, step, next2)
  {
  }

  /** When both earlier calls succeed, `Map` hands `v`, `p` and the
      caller's `flags` unchanged to the L2 `Map` of the table the step
      found, and returns its answer. */
  lemma MapForwardsToNextLevel(s: seq<TableEntry>, v: Address, p: Address, flags: bv64,
                               frame: Result<Address>, step: StepAtIndex, next: NextMap, pd: Address)
    requires |s| == TableSize
    requires GetMappingOf(s, GetL3Index(v) as int, ImplicitMappingFlags, frame).err == None
    requires step(GetMappingOf(s, GetL3Index(v) as int, ImplicitMappingFlags, frame).entries,
                  GetL3Index(v), PageTableFlags) == Ok(pd)
    ensures MapOutcomeOf(s, v, p, flags, frame, step, next).err == next(pd, v, p, flags)
  {
  }

  /** `Map` steps with `pageTableFlags` and the L3 field of `v` only: two
      steps that agree there give the same outcome, whatever they answer
      for the caller's flags. */
  lemma MapStepsWithPageTableFlags(s: seq<TableEntry>, v: Address, p: Address, flags: bv64,
                                   frame: Result<Address>, step: StepAtIndex, step2: StepAtIndex,
                                   next: NextMap)
    requires |s| == TableSize
    requires forall t: seq<TableEntry> ::
      step(t, GetL3Index(v), PageTableFlags) == step2(t, GetL3Index(v), PageTableFlags)
    ensures MapOutcomeOf(s, v, p, flags, frame, step, next)
         == MapOutcomeOf(s, v, p, flags, frame, step2, next)
  {
  }

  /** When the L3 slot of `v` is already mapped, `Map` uses neither the
      allocator nor touches the table. */
  lemma MapOnMappedSlot(s: seq<TableEntry>, v: Address, p: Address, flags: bv64,
                        frame: Result<Address>, frame2: Result<Address>,
                        step: StepAtIndex, next: NextMap)
    requires |s| == TableSize
    requires s[GetL3Index(v) as int] != NilMapping
    ensures MapOutcomeOf(s, v, p, flags, frame, step, next).entries == s
    ensures MapOutcomeOf(s, v, p, flags, frame, step, next)
         == MapOutcomeOf(s, v, p, flags, frame2, step, next)
  {
  }

  /** `Map` writes at most the L3 slot of `v`. */
  lemma MapTouchesOnlyItsSlot(s: seq<TableEntry>, v: Address, p: Address, flags: bv64,
                              frame: Result<Address>, step: StepAtIndex, next: NextMap)
    requires |s| == TableSize
    ensures var o := MapOutcomeOf(s, v, p, flags, frame, step, next);
      |o.entries| == TableSize &&
      forall j :: 0 <= j < TableSize && j != GetL3Index(v) as int ==> o.entries[j] == s[j]
  {
  }

  /** `Step` depends on `v` only through its L3 field. */
  lemma StepReadsL3Field(pdpt: PageDirectoryPointerTable, v: Address, w: Address,
                         flags: bv64, step: StepAtIndex)
    requires pdpt.Valid()
    requires GetL3Index(v) == GetL3Index(w)
    ensures pdpt.Step(v, flags, step) == pdpt.Step(w, flags, step)
  {
  }

  /** `Step(v, flags)` hands the caller's `flags` and the L3 field of `v`
      to the base-table step and returns its answer unchanged: two base
      steps that agree on this table, that index and those flags give the
      same result. */
  lemma StepForwardsFlags(pdpt: PageDirectoryPointerTable, v: Address, flags: bv64,
                          step: StepAtIndex, step2: StepAtIndex)
    requires pdpt.Valid()
    requires step(pdpt.entries[..], GetL3Index(v), flags)
          == step2(pdpt.entries[..], GetL3Index(v), flags)
    ensures pdpt.Step(v, flags, step) == pdpt.Step(v, flags, step2)
  {
  }

  /** Any two addresses whose bits 30 and up agree take the same step. */
  lemma StepIgnoresLowBits(pdpt: PageDirectoryPointerTable, v: Address, w: Address,
                           flags: bv64, step: StepAtIndex)
    requires pdpt.Valid()
    requires v >> 30 == w >> 30
    ensures pdpt.Step(v, flags, step) == pdpt.Step(w, flags, step)
  {
    IndexDependsOnHighBits(v, w);
  }
}
