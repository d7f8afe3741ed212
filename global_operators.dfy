/**
 * The replaceable global `operator new`, `operator new[]`, `operator delete` and
 * `operator delete[]` overloads. A throwing overload's result is either a
 * pointer or `std::bad_alloc`; the `std::nothrow` overloads return the
 * allocator's pointer, null included.
 */
module GlobalOperators {
  import opened Wrappers
  import opened BlockHeader
  import opened FreeRegionList
  import opened Arena
  import MemoryAllocatorBase

  /** What a throwing `operator new` produces: a (never null) pointer, or a thrown `std::bad_alloc`. */
  datatype NewResult = Pointer(address: nat) | BadAlloc

  /** The allocator's pointer a throwing overload's result stands for. */
  function AsPointer(r: NewResult): Option<nat> {
    match r
    case Pointer(address) => Some(address)
    case BadAlloc => None
  }

  /** Turns the allocator's null into `std::bad_alloc`; any other pointer is returned. */
  method ThrowIfNull(p: Option<nat>) returns (r: NewResult)
    ensures AsPointer(r) == p
  {
    if p.Some? {
      return Pointer(p.value);
    }
    return BadAlloc;
  }

  /** `operator new(size)`. */
  method OperatorNew(heap: Heap, size: SizeT) returns (r: NewResult)
    requires heap.Valid()
    modifies heap, heap.storage
    ensures heap.Valid()
    ensures AllocateStep(heap.layout, old(heap.State()), size, AsPointer(r), heap.State())
  {
    var memory := MemoryAllocatorBase.Allocate(heap, size);
    r := ThrowIfNull(memory);
  }

  /** `operator new(size, std::nothrow)`. */
  method OperatorNewNothrow(heap: Heap, size: SizeT) returns (p: Option<nat>)
    requires heap.Valid()
    modifies heap, heap.storage
    ensures heap.Valid()
    ensures AllocateStep(heap.layout, old(heap.State()), size, p, heap.State())
  {
    p := MemoryAllocatorBase.Allocate(heap, size);
  }

  /** `operator new[](size)`. */
  method OperatorNewArray(heap: Heap, size: SizeT) returns (r: NewResult)
    requires heap.Valid()
    modifies heap, heap.storage
    ensures heap.Valid()
    ensures AllocateStep(heap.layout, old(heap.State()), size, AsPointer(r), heap.State())
  {
    var memory := MemoryAllocatorBase.Allocate(heap, size);
    r := ThrowIfNull(memory);
  }

  /** `operator new[](size, std::nothrow)`. */
  method OperatorNewArrayNothrow(heap: Heap, size: SizeT) returns (p: Option<nat>)
    requires heap.Valid()
    modifies heap, heap.storage
    ensures heap.Valid()
    ensures AllocateStep(heap.layout, old(heap.State()), size, p, heap.State())
  {
    p := MemoryAllocatorBase.Allocate(heap, size);
  }

  /** `operator delete(memory)`. */
  method OperatorDelete(heap: Heap, memory: Option<nat>)
    requires heap.Valid()
    requires memory.Some? ==> LivePayload(heap.layout, heap.State(), memory.value)
    modifies heap
    ensures heap.Valid()
    ensures DeallocateStep(heap.layout, old(heap.State()), memory, heap.State())
  {
    MemoryAllocatorBase.Deallocate(heap, memory, 0);
  }

  /** `operator delete(memory, size)`: the size is not passed on. */
  method OperatorDeleteSized(heap: Heap, memory: Option<nat>, size: SizeT)
    requires heap.Valid()
    requires memory.Some? ==> LivePayload(heap.layout, heap.State(), memory.value)
    modifies heap
    ensures heap.Valid()
    ensures DeallocateStep(heap.layout, old(heap.State()), memory, heap.State())
  {
    MemoryAllocatorBase.Deallocate(heap, memory, 0);
  }

  /** `operator delete(memory, std::nothrow)`. */
  method OperatorDeleteNothrow(heap: Heap, memory: Option<nat>)
    requires heap.Valid()
    requires memory.Some? ==> LivePayload(heap.layout, heap.State(), memory.value)
    modifies heap
    ensures heap.Valid()
    ensures DeallocateStep(heap.layout, old(heap.State()), memory, heap.State())
  {
    MemoryAllocatorBase.Deallocate(heap, memory, 0);
  }

  /** `operator delete[](memory)`. */
  method OperatorDeleteArray(heap: Heap, memory: Option<nat>)
    requires heap.Valid()
    requires memory.Some? ==> LivePayload(heap.layout, heap.State(), memory.value)
    modifies heap
    ensures heap.Valid()
    ensures DeallocateStep(heap.layout, old(heap.State()), memory, heap.State())
  {
    MemoryAllocatorBase.Deallocate(heap, memory, 0);
  }

  /** `operator delete[](memory, size)`: the size is not passed on. */
  method OperatorDeleteArraySized(heap: Heap, memory: Option<nat>, size: SizeT)
    requires heap.Valid()
    requires memory.Some? ==> LivePayload(heap.layout, heap.State(), memory.value)
    modifies heap
    ensures heap.Valid()
    ensures DeallocateStep(heap.layout, old(heap.State()), memory, heap.State())
  {
    MemoryAllocatorBase.Deallocate(heap, memory, 0);
  }

  /** `operator delete[](memory, std::nothrow)`. */
  method OperatorDeleteArrayNothrow(heap: Heap, memory: Option<nat>)
    requires heap.Valid()
    requires memory.Some? ==> LivePayload(heap.layout, heap.State(), memory.value)
    modifies heap
    ensures heap.Valid()
    ensures DeallocateStep(heap.layout, old(heap.State()), memory, heap.State())
  {
    MemoryAllocatorBase.Deallocate(heap, memory, 0);
  }

  /**
   * `operator new(100)` on an empty 4096-byte arena with 16-byte alignment, then
   * `operator delete` of its result. If the free list grants the block, the
   * pointer is 16-byte aligned, the 100 bytes lie inside the arena and the header
   * in front of them holds 128; either way nothing is live afterwards.
   */
  method HundredByteScenario() returns (r: NewResult, heap: Heap)
    ensures heap.storage.Length == 4096
    ensures r.Pointer? ==> r.address % 16 == 0 && 16 <= r.address && r.address + 100 <= 4096
    ensures r.Pointer? ==> heap.storage[r.address - 16] == 128
    ensures heap.live == map[]
  {
    heap := new Heap(4096, 16);
    HundredByteRequest();
    ghost var before := heap.State();
    r := OperatorNew(heap, 100);
    if r.Pointer? {
      AllocatedBlock(heap.layout, before, 100, r.address, heap.State());
    }
    OperatorDelete(heap, AsPointer(r));
  }
}
