/**
 * The contract the allocation facade relies on from `FreeMemoryRegionList`
 * (FreeMemoryRegionList.h is not part of this model). The list is described by
 * the blocks it has handed out and not yet taken back: a map from the offset of
 * each block's region to its size. `allocate(size)` either fails or hands out an
 * aligned region of `size` bytes inside the arena that shares no byte with any
 * live block; `deallocate(region, size)` takes back exactly such a block.
 *
 * `FindFreeOffset` is a stand-in search that meets this contract; nothing in the
 * facade's proofs depends on which fitting region it picks.
 */
module FreeRegionList {
  import opened Wrappers
  import opened Alignment

  /** The byte ranges `[o1, o1 + n1)` and `[o2, o2 + n2)` share no byte. */
  predicate Apart(o1: nat, n1: nat, o2: nat, n2: nat) {
    o1 + n1 <= o2 || o2 + n2 <= o1
  }

  /** A region of `size` bytes at `offset` is one the list may hand out. */
  predicate Fits(live: map<nat, nat>, offset: nat, size: nat, capacity: nat, alignment: nat)
    requires alignment > 0
  {
    offset % alignment == 0 &&
    offset + size <= capacity &&
    forall o :: o in live ==> Apart(offset, size, o, live[o])
  }

  /** Some region of `size` bytes may be handed out. */
  ghost predicate HasRoom(live: map<nat, nat>, size: nat, capacity: nat, alignment: nat)
    requires alignment > 0
  {
    exists offset :: Fits(live, offset, size, capacity, alignment)
  }

  /** The live blocks are aligned, non-empty, inside the arena and pairwise disjoint. */
  ghost predicate WellFormed(live: map<nat, nat>, capacity: nat, alignment: nat) {
    alignment > 0 &&
    (forall o :: o in live ==> o % alignment == 0 && 0 < live[o] && o + live[o] <= capacity) &&
    (forall o1, o2 :: o1 in live && o2 in live && o1 != o2 ==> Apart(o1, live[o1], o2, live[o2]))
  }

  /**
   * `live'` is `live` after the list took back `block` (region, size): that
   * block was live with exactly that size, and it is the only one gone.
   */
  ghost predicate TookBack(live: map<nat, nat>, live': map<nat, nat>, block: (nat, nat)) {
    block.0 in live && live[block.0] == block.1 && live' == live - {block.0}
  }

  /** Searches the aligned offsets of the arena for a region of `size` bytes. */
  method FindFreeOffset(live: map<nat, nat>, size: nat, capacity: nat, alignment: nat)
    returns (region: Option<nat>)
    requires alignment > 0
    ensures region.Some? ==> Fits(live, region.value, size, capacity, alignment)
    ensures region.None? ==> forall offset :: !Fits(live, offset, size, capacity, alignment)
  {
    var offset := 0;
    ghost var k := 0;
    while offset + size <= capacity
      invariant offset == k * alignment
      invariant forall c: nat :: c < offset ==> !Fits(live, c, size, capacity, alignment)
      decreases capacity - offset
    {
      if Fits(live, offset, size, capacity, alignment) {
        return Some(offset);
      }
      forall c | offset <= c < offset + alignment
        ensures !Fits(live, c, size, capacity, alignment)
      {
        if c % alignment == 0 {
          OnlyMultipleInStep(k, alignment, c);
        }
      }
      offset, k := offset + alignment, k + 1;
    }
    return None;
  }

  /**
   * Handing out a fitting, non-empty region keeps the live blocks well formed,
   * and the region was not live before.
   */
  lemma GrantKeepsWellFormed(live: map<nat, nat>, offset: nat, size: nat, capacity: nat, alignment: nat)
    requires WellFormed(live, capacity, alignment)
    requires Fits(live, offset, size, capacity, alignment) && size > 0
    ensures offset !in live
    ensures WellFormed(live[offset := size], capacity, alignment)
  {
    var live' := live[offset := size];
    forall o1, o2 | o1 in live' && o2 in live' && o1 != o2
      ensures Apart(o1, live'[o1], o2, live'[o2])
    {
      if o1 == offset {
        assert Apart(offset, size, o2, live[o2]);
      } else if o2 == offset {
        assert Apart(offset, size, o1, live[o1]);
      }
    }
  }

  /** Taking back a live block keeps the others well formed. */
  lemma ReleaseKeepsWellFormed(live: map<nat, nat>, offset: nat, capacity: nat, alignment: nat)
    requires WellFormed(live, capacity, alignment)
    ensures WellFormed(live - {offset}, capacity, alignment)
  {
  }
}
