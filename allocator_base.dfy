/**
 * `MemoryAllocatorBase::allocate` and `MemoryAllocatorBase::deallocate`. The
 * function-static arena behind them is passed explicitly as `heap`.
 */
module MemoryAllocatorBase {
  import opened Wrappers
  import opened BlockHeader
  import opened Arena

  /** `MemoryAllocatorBase::allocate(size)`: `allocateBlock(size)`. */
  method Allocate(heap: Heap, size: SizeT) returns (p: Option<nat>)
    requires heap.Valid()
    modifies heap, heap.storage
    ensures heap.Valid()
    ensures AllocateStep(heap.layout, old(heap.State()), size, p, heap.State())
  {
    p := heap.AllocateBlock(size);
  }

  /**
   * `MemoryAllocatorBase::deallocate(memory, size)`: `deallocateBlock(memory)`;
   * the size argument plays no part in what happens.
   */
  method Deallocate(heap: Heap, p: Option<nat>, size: SizeT)
    requires heap.Valid()
    requires p.Some? ==> LivePayload(heap.layout, heap.State(), p.value)
    modifies heap
    ensures heap.Valid()
    ensures DeallocateStep(heap.layout, old(heap.State()), p, heap.State())
  {
    heap.DeallocateBlock(p);
  }
}
