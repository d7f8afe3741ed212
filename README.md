# Fixed-arena allocation facade

A Dafny model of the allocation facade in `Source/MemoryAllocation/MemoryAllocatorBaseImpl.h`.
Every dynamic allocation in the process goes through this facade, and it serves each one from a single
statically sized arena. A request is clamped to at least one byte and rounded up to the free-region
list's minimum alignment. A fixed-size header (`kHeaderSize` bytes, holding the block's total size) is
put in front of it. The total is then taken from the free-region list. On deallocation the size is read
back from the header, because the caller's size is never trusted. The global `operator new`,
`operator new[]`, `operator delete` and `operator delete[]` overloads all go through the facade. The
throwing overloads turn a null result into `std::bad_alloc`; the `std::nothrow` ones pass the null on.

Layout of the model:

- `wrappers.dfy` (`Wrappers`): `Option`. A null pointer is `None`.
- `align.dfy` (`Alignment`): `utils::align`, defined as the least multiple of the alignment at or above the value, with that minimality proved.
- `block_header.dfy` (`BlockHeader`): `std::size_t` (64 bits), `sizeof(MemoryBlockHeader)`, `kHeaderSize`, `normalizedSize` and the allocation total.
- `free_region_list.dfy` (`FreeRegionList`): the contract of `FreeMemoryRegionList`. Its state is the map of blocks it has handed out (region offset to size), and a stand-in search meets the contract.
- `arena.dfy` (`Arena`): the arena plus the list as one class, `Heap` (`freeRegionList()`), with `allocateBlock` and `deallocateBlock`. The ghost predicates `AllocateStep` and `DeallocateStep` state both operations on values (`ArenaState`), and the lemmas about those predicates carry the properties.
- `allocator_base.dfy` (`MemoryAllocatorBase`): `MemoryAllocatorBase::allocate` / `deallocate`.
- `global_operators.dfy` (`GlobalOperators`): the ten global `new` / `delete` overloads.

The arena is an `array<nat>` indexed by byte offset. `storage[o]` is the size word of a header that
starts at byte `o`, and pointers are byte offsets. The two build-time constants, `build::MEMORY_CAPACITY`
and `FreeMemoryRegionList::minimumAlignment()`, are the parameters `Layout(capacity, alignment)`.

## Model

| member | source | states |
|---|---|---|
| `Alignment.Align` | Source/MemoryAllocation/MemoryAllocatorBaseImpl.h:25 | `utils::align(v, a)` is a multiple of `a` with `v <= r < v + a` |
| `Alignment.AlignIsLeast` | Source/MemoryAllocation/MemoryAllocatorBaseImpl.h:25 | no multiple of `a` that is at least `v` lies below `align(v, a)`: it is the smallest such multiple |
| `BlockHeader.HeaderSize` | Source/MemoryAllocation/MemoryAllocatorBaseImpl.h:16-20 | `kHeaderSize` is at least `sizeof(MemoryBlockHeader)` (8), less than 8 + alignment, and a multiple of the minimum alignment |
| `BlockHeader.AtLeastOne` | Source/MemoryAllocation/MemoryAllocatorBaseImpl.h:24 | `std::max(requestedSize, 1)`: at least 1 and at least the request, and equal to one of them |
| `BlockHeader.NormalizedSize` | Source/MemoryAllocation/MemoryAllocatorBaseImpl.h:22-26 | `normalizedSize(r)` is a multiple of the minimum alignment, is at least `max(r, 1)`, and is less than `max(r, 1)` + alignment |
| `BlockHeader.NormalizedSizeIsLeast` | Source/MemoryAllocation/MemoryAllocatorBaseImpl.h:22-26 | `normalizedSize(r)` is no larger than any non-zero multiple of the alignment that holds `r` |
| `BlockHeader.ZeroRequestIsOneByte` | Source/MemoryAllocation/MemoryAllocatorBaseImpl.h:24 | `normalizedSize(0) == normalizedSize(1)` |
| `BlockHeader.PayloadAligned` | Source/MemoryAllocation/MemoryAllocatorBaseImpl.h:39-41 | if the region is aligned, so is the payload pointer `region + kHeaderSize` |
| `BlockHeader.AllocationSize` | Source/MemoryAllocation/MemoryAllocatorBaseImpl.h:37 | the total asked of the free list is `kHeaderSize + normalizedSize(n)`. It is aligned, at least header + max(n, 1), and present exactly when it fits in a `std::size_t` (the corrected form, see Findings) |
| `BlockHeader.AllocationSizeAsWritten` | Source/MemoryAllocation/MemoryAllocatorBaseImpl.h:37 | the total computed in wrapping `std::size_t` arithmetic. It agrees with `AllocationSize` whenever the true total fits |
| `BlockHeader.AsWrittenReservesTooLittle` | Source/MemoryAllocation/MemoryAllocatorBaseImpl.h:37-41 | for any alignment up to 2^62, whenever the true total overflows, the wrapped total is smaller than header + request |
| `BlockHeader.AsWrittenWrapsToZero` | Source/MemoryAllocation/MemoryAllocatorBaseImpl.h:37 | with alignment 16, a request of 2^64 - 16 bytes asks the free list for 0 bytes |
| `BlockHeader.HundredByteRequest` | Source/MemoryAllocation/MemoryAllocatorBaseImpl.h:20-26 | with alignment 16, the header is 16 bytes, a 100-byte request normalizes to 112, and the block reserves 128 |
| `FreeRegionList.FindFreeOffset` | Source/MemoryAllocation/MemoryAllocatorBaseImpl.h:38 | the region found is aligned, ends inside the arena and is disjoint from every live block; failure means no such region exists |
| `FreeRegionList.GrantKeepsWellFormed` | Source/MemoryAllocation/MemoryAllocatorBaseImpl.h:38 | handing out a fitting non-empty region keeps live blocks aligned, in range and pairwise disjoint, and the region was not live before |
| `FreeRegionList.ReleaseKeepsWellFormed` | Source/MemoryAllocation/MemoryAllocatorBaseImpl.h:52 | taking a block back keeps the remaining live blocks well formed |
| `Arena.Released` | Source/MemoryAllocation/MemoryAllocatorBaseImpl.h:51-52 | for a live payload, the (region, size) pair `deallocateBlock` reads from the header is `ptr - kHeaderSize` and that block's live size |
| `Arena.AllocateKeepsConsistent` | Source/MemoryAllocation/MemoryAllocatorBaseImpl.h:35-44 | after `allocateBlock`, live blocks are still pairwise disjoint, aligned and in range, and every live block's header holds its size |
| `Arena.AllocatedBlock` | Source/MemoryAllocation/MemoryAllocatorBaseImpl.h:35-42 | a non-null result is aligned and the whole request fits in the arena after it. The header word at `ptr - kHeaderSize` holds `kHeaderSize + normalizedSize(n)`. No other arena word changes, and earlier live blocks are untouched |
| `Arena.DeallocateKeepsConsistent` | Source/MemoryAllocation/MemoryAllocatorBaseImpl.h:46-53 | `deallocateBlock` of null or of a live payload keeps the arena consistent |
| `Arena.AllocateThenDeallocate` | Source/MemoryAllocation/MemoryAllocatorBaseImpl.h:37-52 | freeing what `allocateBlock(n)` returned hands back exactly the region and size the free list handed out, and restores the live blocks |
| `Arena.Heap.constructor` | Source/MemoryAllocation/MemoryAllocatorBaseImpl.h:28-33 | the zero-initialised static storage of `capacity` words, over which the list has handed nothing out |
| `Arena.Heap.ListAllocate` | Source/MemoryAllocation/MemoryAllocatorBaseImpl.h:38 | the free list's `allocate`, served by the stand-in search. It fails exactly when no region fits, changing nothing. Otherwise the region fits and becomes live with the requested size |
| `Arena.Heap.ListDeallocate` | Source/MemoryAllocation/MemoryAllocatorBaseImpl.h:52 | the free list's `deallocate` takes back exactly a live block with its recorded size (`TookBack`) |
| `Arena.Heap.AllocateBlock` | Source/MemoryAllocation/MemoryAllocatorBaseImpl.h:35-44 | `AllocateStep`. Null with nothing changed when the total is not a `size_t`. Otherwise the list's answer: null with nothing changed, or `region + kHeaderSize` for a fitting region, with the header at `region` set to the total and only that word written |
| `Arena.Heap.DeallocateBlock` | Source/MemoryAllocation/MemoryAllocatorBaseImpl.h:46-53 | `DeallocateStep`. Null changes nothing. Otherwise the list takes back exactly `Released`, the region and size read from the header, and the arena words are untouched |
| `MemoryAllocatorBase.Allocate` | Source/MemoryAllocation/MemoryAllocatorBaseImpl.h:56-59 | behaves exactly as `allocateBlock` |
| `MemoryAllocatorBase.Deallocate` | Source/MemoryAllocation/MemoryAllocatorBaseImpl.h:61-64 | behaves exactly as `deallocateBlock`, whatever the size argument |
| `GlobalOperators.ThrowIfNull` | Source/MemoryAllocation/MemoryAllocatorBaseImpl.h:68-70 | throws `bad_alloc` exactly when the allocator's result is null, and otherwise returns that pointer |
| `GlobalOperators.OperatorNew` | Source/MemoryAllocation/MemoryAllocatorBaseImpl.h:66-71 | never returns null. It does what `allocateBlock` does, and it throws `bad_alloc` exactly when that result is null; otherwise it returns that pointer |
| `GlobalOperators.OperatorNewNothrow` | Source/MemoryAllocation/MemoryAllocatorBaseImpl.h:73-76 | returns `allocateBlock`'s result unchanged, null included |
| `GlobalOperators.OperatorNewArray` | Source/MemoryAllocation/MemoryAllocatorBaseImpl.h:78-83 | as `OperatorNew` |
| `GlobalOperators.OperatorNewArrayNothrow` | Source/MemoryAllocation/MemoryAllocatorBaseImpl.h:85-88 | as `OperatorNewNothrow` |
| `GlobalOperators.OperatorDelete` | Source/MemoryAllocation/MemoryAllocatorBaseImpl.h:90-93 | `DeallocateStep` of the pointer: the same effect as every other delete form |
| `GlobalOperators.OperatorDeleteSized` | Source/MemoryAllocation/MemoryAllocatorBaseImpl.h:95-98 | the same effect as `OperatorDelete`; the size is ignored |
| `GlobalOperators.OperatorDeleteNothrow` | Source/MemoryAllocation/MemoryAllocatorBaseImpl.h:100-103 | the same effect as `OperatorDelete` |
| `GlobalOperators.OperatorDeleteArray` | Source/MemoryAllocation/MemoryAllocatorBaseImpl.h:105-108 | the same effect as `OperatorDelete` |
| `GlobalOperators.OperatorDeleteArraySized` | Source/MemoryAllocation/MemoryAllocatorBaseImpl.h:110-113 | the same effect as `OperatorDelete`; the size is ignored |
| `GlobalOperators.OperatorDeleteArrayNothrow` | Source/MemoryAllocation/MemoryAllocatorBaseImpl.h:115-118 | the same effect as `OperatorDelete` |
| `GlobalOperators.HundredByteScenario` | Source/MemoryAllocation/MemoryAllocatorBaseImpl.h:66-71 | `operator new(100)`, then delete, on an empty 4096-byte arena with 16-byte alignment. A returned pointer is 16-byte aligned and its 100 bytes lie inside the arena. The header in front of it holds 128. Either way, nothing is live afterwards |

## Left out

- `FreeMemoryRegionList` (FreeMemoryRegionList.h is not part of this model) is modelled by its contract only: `allocate` gives either failure or an aligned region inside the arena, disjoint from every live block, and `deallocate` takes back exactly a live block. Its algorithm is not modelled, and no search order, splitting or coalescing is claimed for it. Nor is the invariant that free plus live bytes add up to the capacity, since it is about the list's internals.
- FreeRegionList.FindFreeOffset: a stand-in search over aligned offsets, not the repository's algorithm. It fails exactly when no aligned gap is large enough, but the facade's contracts do not rely on that. `AllocateStep` lets the list fail at any time, and leaves open which fitting region it picks.
- Whatever bookkeeping the list keeps in the storage it is given is not modelled: the arena's words hold only block headers.
- Byte-level layout (`alignas`, `reinterpret_cast`, the eight bytes of the header word, the payload bytes) is replaced by offsets. One word at the region offset stands for the header.
- `utils::align` (Utils/Align.h is not part of this model) is defined by its intended meaning. Where its result would not fit in 64 bits, the as-written total assumes it wraps modulo 2^64.
- `build::MEMORY_CAPACITY` and `FreeMemoryRegionList::minimumAlignment()` are parameters. `std::size_t` is taken as 64 bits, so `sizeof(MemoryBlockHeader)` is 8.
- The `constinit` function-static initialisation is the `Heap` constructor. The process-wide singleton is passed to `MemoryAllocatorBase` and the operators as an explicit `heap` argument.
- C++ exceptions: `std::bad_alloc` is the result value `BadAlloc`.
- Misuse that the source leaves undetected, such as freeing a foreign pointer or freeing twice, is excluded by preconditions (the pointer is a live payload).
- Concurrency: there is no locking, so use is single-threaded.
- `Source/MemoryAllocation/UniquePtr.h` (factories that call `new (std::nothrow)`, and the compile-time rejection of bounded arrays) and `Source/MemoryAllocation/MemoryDeleter.h` (calls `delete` / `delete[]` and stores an element count) are thin wrappers with no runtime logic of their own.

## Findings

| source | as written | input that shows it | evidently intended | confidence | as-written member | corrected member |
|---|---|---|---|---|---|---|
| Source/MemoryAllocation/MemoryAllocatorBaseImpl.h:37 | `kHeaderSize + normalizedSize(requestedSize)` is computed in `std::size_t` and wraps modulo 2^64 | `requestedSize = 2^64 - 16` with a 16-byte minimum alignment: the total wraps to 0. The free list is asked for 0 bytes, the 8-byte header is written past that block, and a non-null pointer can be returned for a request of nearly 2^64 bytes | a request whose total does not fit fails: null from the `nothrow` forms, `std::bad_alloc` from the throwing forms | not executed; the wrap itself is certain, but how the list answers a 0-byte request is not known | `BlockHeader.AllocationSizeAsWritten` (`BlockHeader.AsWrittenWrapsToZero`, `BlockHeader.AsWrittenReservesTooLittle`) | `BlockHeader.AllocationSize` (used by `Arena.Heap.AllocateBlock`) |
