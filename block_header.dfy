/**
 * The block-header convention and the size arithmetic of the allocation facade
 * (`MemoryBlockHeader`, `kHeaderSize`, `normalizedSize` and the total that
 * `allocateBlock` asks the free-region list for).
 *
 * `std::size_t` is taken to be 64 bits wide. The minimum alignment of the
 * free-region list is a parameter: its value is not part of this model.
 */
module BlockHeader {
  import opened Wrappers
  import opened Alignment

  /** 2^64, the number of values of a 64-bit `std::size_t`. */
  const SizeModulus: nat := 0x1_0000_0000_0000_0000

  /** The largest `std::size_t`. */
  const SizeMax: nat := SizeModulus - 1

  /** A value of type `std::size_t`. */
  type SizeT = n: nat | n <= SizeMax

  /** `sizeof(MemoryBlockHeader)`: the header holds one `std::size_t`. */
  const HeaderRecordSize: nat := 8

  /**
   * `kHeaderSize`: the space reserved in front of every payload, which holds the
   * header record and keeps the payload on the free list's alignment.
   */
  function HeaderSize(alignment: nat): (r: nat)
    requires alignment > 0
    ensures HeaderRecordSize <= r < HeaderRecordSize + alignment
    ensures r % alignment == 0
  {
    Align(HeaderRecordSize, alignment)
  }

  /** The request after `std::max(requestedSize, 1)`. */
  function AtLeastOne(requested: nat): (r: nat)
    ensures r >= 1 && r >= requested
    ensures r == 1 || r == requested
  {
    if requested < 1 then 1 else requested
  }

  /**
   * `normalizedSize`: the payload size actually reserved for a request, never
   * zero and always a whole number of alignment units.
   */
  function NormalizedSize(requested: nat, alignment: nat): (r: nat)
    requires alignment > 0
    ensures r % alignment == 0
    ensures r >= 1 && r >= requested
    ensures r < AtLeastOne(requested) + alignment
  {
    Align(AtLeastOne(requested), alignment)
  }

  /** No smaller whole number of alignment units holds the (clamped) request. */
  lemma NormalizedSizeIsLeast(requested: nat, alignment: nat, m: nat)
    requires alignment > 0
    requires m % alignment == 0 && m >= 1 && m >= requested
    ensures NormalizedSize(requested, alignment) <= m
  {
    AlignIsLeast(AtLeastOne(requested), alignment, m);
  }

  /** A zero-byte request is served as a one-byte request. */
  lemma ZeroRequestIsOneByte(alignment: nat)
    requires alignment > 0
    ensures NormalizedSize(0, alignment) == NormalizedSize(1, alignment)
  {
  }

  /**
   * A block whose region starts on the free list's alignment hands out a payload
   * (`region + kHeaderSize`) on that alignment too.
   */
  lemma PayloadAligned(region: nat, alignment: nat)
    requires alignment > 0 && region % alignment == 0
    ensures (region + HeaderSize(alignment)) % alignment == 0
  {
    SumOfAligned(region, HeaderSize(alignment), alignment);
  }

  /**
   * The total `allocateBlock` asks the free list for: header plus normalized
   * payload, or `None` when that total is not a `std::size_t`. This is the
   * corrected form of `AllocationSizeAsWritten`.
   */
  function AllocationSize(requested: SizeT, alignment: nat): (r: Option<SizeT>)
    requires alignment > 0
    ensures r.Some? <==> HeaderSize(alignment) + NormalizedSize(requested, alignment) <= SizeMax
    ensures r.Some? ==> r.value % alignment == 0
    ensures r.Some? ==> r.value >= HeaderSize(alignment) + AtLeastOne(requested)
    ensures r.Some? ==> r.value - HeaderSize(alignment) == NormalizedSize(requested, alignment)
  {
    var total := HeaderSize(alignment) + NormalizedSize(requested, alignment);
    SumOfAligned(HeaderSize(alignment), NormalizedSize(requested, alignment), alignment);
    if total <= SizeMax then Some(total) else None
  }

  /**
   * `kHeaderSize + normalizedSize(requestedSize)` as the source computes it, in
   * `std::size_t` arithmetic, which wraps modulo 2^64. (When the rounded payload
   * itself does not fit, `utils::align` is taken to wrap modulo 2^64 as well.)
   * It agrees with `AllocationSize` whenever the total fits.
   */
  function AllocationSizeAsWritten(requested: SizeT, alignment: nat): (r: SizeT)
    requires alignment > 0
    ensures AllocationSize(requested, alignment).Some? ==> AllocationSize(requested, alignment) == Some(r)
  {
    (HeaderSize(alignment) + NormalizedSize(requested, alignment)) % SizeModulus
  }

  /**
   * Whenever the true total does not fit in a `std::size_t`, the wrapped total is
   * smaller than header plus request: the free list is asked for a block that
   * cannot hold what the caller asked for, instead of the request failing.
   */
  lemma AsWrittenReservesTooLittle(requested: SizeT, alignment: nat)
    requires 0 < alignment <= SizeModulus / 4
    requires AllocationSize(requested, alignment).None?
    ensures AllocationSizeAsWritten(requested, alignment) < HeaderSize(alignment) + requested
  {
    var total := HeaderSize(alignment) + NormalizedSize(requested, alignment);
    assert SizeModulus <= total < 2 * SizeModulus;
    assert total % SizeModulus == total - SizeModulus;
  }

  /**
   * With a 16-byte alignment, a request for 2^64 - 16 bytes makes the source ask
   * the free list for 0 bytes.
   */
  lemma AsWrittenWrapsToZero()
    ensures AllocationSize(SizeModulus - 16, 16).None?
    ensures AllocationSizeAsWritten(SizeModulus - 16, 16) == 0
  {
    assert HeaderSize(16) == 16;
    assert NormalizedSize(SizeModulus - 16, 16) == SizeModulus - 16;
  }

  /** capacity 4096, alignment 16: a 100-byte request reserves 16 + 112 = 128 bytes. */
  lemma HundredByteRequest()
    ensures HeaderSize(16) == 16
    ensures NormalizedSize(100, 16) == 112
    ensures AllocationSize(100, 16) == Some(128)
  {
  }
}
