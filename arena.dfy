/**
 * The arena and the helpers of MemoryAllocatorBaseImpl.h that act on it:
 * `freeRegionList()` (the statically sized storage and the list over it),
 * `allocateBlock` and `deallocateBlock`.
 *
 * The arena is an array of words indexed by byte offset: `storage[o]` is the size
 * word of a block header that starts at byte `o`. Pointers are byte offsets into
 * the arena, and a null pointer is `None`.
 */
module Arena {
  import opened Wrappers
  import opened BlockHeader
  import opened FreeRegionList

  /** `build::MEMORY_CAPACITY` and `FreeMemoryRegionList::minimumAlignment()`. */
  datatype Layout = Layout(capacity: nat, alignment: nat)

  /**
   * The allocator's state as a value: the blocks the free list has handed out
   * (region offset to reserved size) and the words of the arena.
   */
  datatype ArenaState = ArenaState(live: map<nat, nat>, words: seq<nat>)

  /** The live blocks are well formed and each one's header holds its reserved size. */
  ghost predicate Consistent(l: Layout, s: ArenaState) {
    l.alignment > 0 &&
    |s.words| == l.capacity &&
    WellFormed(s.live, l.capacity, l.alignment) &&
    forall o :: o in s.live ==> o < |s.words| && s.words[o] == s.live[o]
  }

  /** `p` is the payload pointer of a block that is still live. */
  ghost predicate LivePayload(l: Layout, s: ArenaState, p: nat) {
    l.alignment > 0 &&
    p >= HeaderSize(l.alignment) &&
    p - HeaderSize(l.alignment) in s.live
  }

  /**
   * The free list handed out the region under payload `p` for `total` bytes, and
   * the header at the region's start now holds `total`; nothing else changed.
   */
  ghost predicate Granted(l: Layout, s: ArenaState, total: nat, p: nat, s': ArenaState)
    requires l.alignment > 0
  {
    var header := HeaderSize(l.alignment);
    p >= header &&
    Fits(s.live, p - header, total, l.capacity, l.alignment) &&
    p - header < |s.words| &&
    s' == ArenaState(s.live[p - header := total], s.words[p - header := total])
  }

  /**
   * `allocateBlock(requested)` from state `s` returns `p` and leaves state `s'`:
   * null with nothing changed when the total does not fit in a `std::size_t`;
   * otherwise whatever the free list answers, which is either null with nothing
   * changed or a granted block holding the total.
   */
  ghost predicate AllocateStep(l: Layout, s: ArenaState, requested: SizeT, p: Option<nat>, s': ArenaState) {
    l.alignment > 0 &&
    match AllocationSize(requested, l.alignment)
    case None => p == None && s' == s
    case Some(total) =>
      (p == None && s' == s) || (p.Some? && Granted(l, s, total, p.value, s'))
  }

  /** The region and size `deallocateBlock(p)` hands back to the free list, read from the header. */
  function Released(l: Layout, s: ArenaState, p: nat): (r: (nat, nat))
    requires Consistent(l, s) && LivePayload(l, s, p)
    ensures r.0 + HeaderSize(l.alignment) == p
    ensures r.0 in s.live && r.1 == s.live[r.0]
  {
    var region := p - HeaderSize(l.alignment);
    (region, s.words[region])
  }

  /**
   * `deallocateBlock(p)` from state `s` leaves state `s'`: nothing changes for
   * null; otherwise the block under `p` is no longer live and the arena's words
   * are untouched.
   */
  ghost predicate DeallocateStep(l: Layout, s: ArenaState, p: Option<nat>, s': ArenaState) {
    match p
    case None => s' == s
    case Some(q) =>
      l.alignment > 0 && q >= HeaderSize(l.alignment) &&
      s' == ArenaState(s.live - {q - HeaderSize(l.alignment)}, s.words)
  }

  /** `allocateBlock` keeps the arena consistent. */
  lemma AllocateKeepsConsistent(l: Layout, s: ArenaState, requested: SizeT, p: Option<nat>, s': ArenaState)
    requires Consistent(l, s) && AllocateStep(l, s, requested, p, s')
    ensures Consistent(l, s')
  {
    if p.Some? {
      var total := AllocationSize(requested, l.alignment).value;
      var region := p.value - HeaderSize(l.alignment);
      GrantKeepsWellFormed(s.live, region, total, l.capacity, l.alignment);
      forall o | o in s'.live
        ensures o < |s'.words| && s'.words[o] == s'.live[o]
      {
        if o != region {
          assert o in s.live;
        }
      }
    }
  }

  /**
   * What a successful `allocateBlock(requested)` hands out: a payload on the free
   * list's alignment with room for the whole request inside the arena, whose
   * header holds `kHeaderSize + normalizedSize(requested)` and whose block is now
   * live; no other word of the arena is written.
   */
  lemma AllocatedBlock(l: Layout, s: ArenaState, requested: SizeT, p: nat, s': ArenaState)
    requires Consistent(l, s) && AllocateStep(l, s, requested, Some(p), s')
    ensures p % l.alignment == 0
    ensures p + requested <= l.capacity
    ensures LivePayload(l, s', p)
    ensures s'.words[p - HeaderSize(l.alignment)] == HeaderSize(l.alignment) + NormalizedSize(requested, l.alignment)
    ensures |s'.words| == |s.words|
    ensures forall i :: 0 <= i < |s.words| && i != p - HeaderSize(l.alignment) ==> s'.words[i] == s.words[i]
    ensures forall o :: o in s.live ==> o in s'.live && s'.live[o] == s.live[o]
  {
    var region := p - HeaderSize(l.alignment);
    PayloadAligned(region, l.alignment);
    AllocateKeepsConsistent(l, s, requested, Some(p), s');
    GrantKeepsWellFormed(s.live, region, AllocationSize(requested, l.alignment).value, l.capacity, l.alignment);
  }

  /** `deallocateBlock` on a live payload or on null keeps the arena consistent. */
  lemma DeallocateKeepsConsistent(l: Layout, s: ArenaState, p: Option<nat>, s': ArenaState)
    requires Consistent(l, s) && (p.Some? ==> LivePayload(l, s, p.value))
    requires DeallocateStep(l, s, p, s')
    ensures Consistent(l, s')
  {
    if p.Some? {
      ReleaseKeepsWellFormed(s.live, p.value - HeaderSize(l.alignment), l.capacity, l.alignment);
    }
  }

  /**
   * Round trip: freeing the payload that `allocateBlock(requested)` returned hands
   * the free list back exactly the region and size it handed out, and the live
   * blocks are those from before the allocation.
   */
  lemma AllocateThenDeallocate(l: Layout, s: ArenaState, requested: SizeT, p: nat, s1: ArenaState, s2: ArenaState)
    requires Consistent(l, s)
    requires AllocateStep(l, s, requested, Some(p), s1)
    requires DeallocateStep(l, s1, Some(p), s2)
    ensures AllocationSize(requested, l.alignment).Some?
    ensures Consistent(l, s1) && LivePayload(l, s1, p)
    ensures Released(l, s1, p) == (p - HeaderSize(l.alignment), AllocationSize(requested, l.alignment).value)
    ensures s2.live == s.live
  {
    AllocatedBlock(l, s, requested, p, s1);
    var region := p - HeaderSize(l.alignment);
    GrantKeepsWellFormed(s.live, region, AllocationSize(requested, l.alignment).value, l.capacity, l.alignment);
    assert s2.live == s.live[region := s1.live[region]] - {region};
  }

  /**
   * The process-wide arena and free-region list returned by `freeRegionList()`.
   * The list's state is `live`; whatever bookkeeping the list keeps in the
   * storage it is given is not modelled.
   */
  class Heap {
    const layout: Layout
    const storage: array<nat>
    var live: map<nat, nat>

    ghost function State(): ArenaState
      reads this, storage
    {
      ArenaState(live, storage[..])
    }

    ghost predicate Valid()
      reads this, storage
    {
      storage.Length == layout.capacity && Consistent(layout, State())
    }

    /** The zero-initialised static storage and a list with nothing handed out. */
    constructor (capacity: nat, alignment: nat)
      requires alignment > 0
      ensures Valid() && fresh(storage)
      ensures layout == Layout(capacity, alignment) && live == map[]
      ensures forall i :: 0 <= i < capacity ==> storage[i] == 0
    {
      layout := Layout(capacity, alignment);
      storage := new nat[capacity](_ => 0);
      live := map[];
    }

    /** `FreeMemoryRegionList::allocate(size)`, through its contract. */
    method ListAllocate(size: nat) returns (region: Option<nat>)
      requires layout.alignment > 0 && WellFormed(live, layout.capacity, layout.alignment)
      requires size > 0
      modifies this
      ensures WellFormed(live, layout.capacity, layout.alignment)
      ensures region.None? <==> !HasRoom(old(live), size, layout.capacity, layout.alignment)
      ensures region.None? ==> live == old(live)
      ensures region.Some? ==> Fits(old(live), region.value, size, layout.capacity, layout.alignment)
      ensures region.Some? ==> region.value !in old(live) && live == old(live)[region.value := size]
    {
      region := FindFreeOffset(live, size, layout.capacity, layout.alignment);
      if region.Some? {
        GrantKeepsWellFormed(live, region.value, size, layout.capacity, layout.alignment);
        live := live[region.value := size];
      }
    }

    /** `FreeMemoryRegionList::deallocate(region, size)`: takes back a block it handed out. */
    method ListDeallocate(region: nat, size: nat)
      requires WellFormed(live, layout.capacity, layout.alignment)
      requires region in live && live[region] == size
      modifies this
      ensures WellFormed(live, layout.capacity, layout.alignment)
      ensures TookBack(old(live), live, (region, size))
    {
      ReleaseKeepsWellFormed(live, region, layout.capacity, layout.alignment);
      live := live - {region};
    }

    /** `allocateBlock(requestedSize)`. */
    method AllocateBlock(requested: SizeT) returns (p: Option<nat>)
      requires Valid()
      modifies this, storage
      ensures Valid()
      ensures AllocateStep(layout, old(State()), requested, p, State())
    {
      var allocationSize := AllocationSize(requested, layout.alignment);
      if allocationSize.None? {
        return None;
      }
      var region := ListAllocate(allocationSize.value);
      if region.None? {
        return None;
      }
      storage[region.value] := allocationSize.value;
      p := Some(region.value + HeaderSize(layout.alignment));
      assert State() == ArenaState(old(live)[region.value := allocationSize.value],
                                   old(storage[..])[region.value := allocationSize.value]);
      AllocateKeepsConsistent(layout, old(State()), requested, p, State());
    }

    /**
     * `deallocateBlock(memory)`: the size comes from the header, never from the
     * caller, and the list takes back exactly the pair `Released` names.
     */
    method DeallocateBlock(p: Option<nat>)
      requires Valid()
      requires p.Some? ==> LivePayload(layout, State(), p.value)
      modifies this
      ensures Valid()
      ensures DeallocateStep(layout, old(State()), p, State())
      ensures p.Some? ==> TookBack(old(live), live, Released(layout, old(State()), p.value))
    {
      if p.None? {
        return;
      }
      var header := p.value - HeaderSize(layout.alignment);
      var size := storage[header];
      assert (header, size) == Released(layout, State(), p.value);
      ListDeallocate(header, size);
      DeallocateKeepsConsistent(layout, old(State()), p, State());
    }
  }
}
