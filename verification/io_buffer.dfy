/**
  The growable I/O byte buffer of the socket reactor (`io_buffer`).

  One allocation holds the unread bytes between two cursors. New bytes are
  appended at the write cursor, read bytes are dropped at the read cursor,
  and the unread bytes are slid back to offset 0 after every consumption.
  Capacity doubles when the tail runs short and halves when occupancy falls
  below a quarter.
 */
module IoBuffer {
  import opened Types

  /** Capacity of a fresh buffer: 64 KiB. */
  const IO_BUFFER_DEF: nat := 64 * 1024
  /** Largest capacity a resize accepts: 64 MiB. */
  const IO_BUFFER_MAX: nat := IO_BUFFER_DEF * 1024
  /** Tail space below which peek_space tries to grow: 8 KiB. */
  const GROW_THRESHOLD: nat := IO_BUFFER_DEF / 8
  /** Number of doublings from IO_BUFFER_DEF to IO_BUFFER_MAX. */
  const LADDER_TOP: nat := 10

  /**
    The buffer state. `mem` is the whole allocation (its length is the size
    last passed to malloc or realloc), `size` is the recorded capacity
    `m_buffer_size`, and `begin`/`end` are the offsets of `m_data_begin` and
    `m_data_end` from the start of the allocation.
   */
  datatype Buffer = Buffer(mem: seq<byte>, size: nat, begin: nat, end: nat)

  /** The pointer invariant `buffer <= begin <= end <= buffer + size`, inside the allocation and the cap. */
  predicate WellFormed(b: Buffer) {
    b.begin <= b.end <= b.size <= |b.mem| && b.size <= IO_BUFFER_MAX
  }

  /** The invariant every public operation keeps: well formed, unread bytes at offset 0. */
  predicate Valid(b: Buffer) {
    WellFormed(b) && b.begin == 0
  }

  /** Number of unread bytes. */
  function DataLen(b: Buffer): nat
    requires WellFormed(b)
  {
    b.end - b.begin
  }

  /** Free space after the write cursor. */
  function TailSpace(b: Buffer): nat
    requires WellFormed(b)
  {
    b.size - b.end
  }

  /** The unread bytes. */
  function Contents(b: Buffer): seq<byte>
    requires WellFormed(b)
  {
    b.mem[b.begin..b.end]
  }

  /** Bytes of a fresh allocation; their value is unspecified in C and modelled as zero. */
  function Fresh(n: nat): (r: seq<byte>)
    ensures |r| == n
  {
    seq(n, _ => 0)
  }

  /** realloc: a block of `n` bytes keeping the common prefix of the old one. */
  function Realloc(mem: seq<byte>, n: nat): (r: seq<byte>)
    ensures |r| == n
    ensures n <= |mem| ==> r == mem[..n]
    ensures |mem| <= n ==> r[..|mem|] == mem
  {
    if n <= |mem| then mem[..n] else mem + Fresh(n - |mem|)
  }

  // ---------------------------------------------------------------------
  // The capacity ladder IO_BUFFER_DEF * 2^k, 0 <= k <= LADDER_TOP

  /** The k-th capacity reachable from IO_BUFFER_DEF by doubling: IO_BUFFER_DEF * 2^k. */
  function Rung(k: nat): (r: nat)
    ensures r >= IO_BUFFER_DEF
  {
    if k == 0 then IO_BUFFER_DEF else 2 * Rung(k - 1)
  }

  ghost predicate OnLadder(c: nat) {
    exists k: nat :: k <= LADDER_TOP && c == Rung(k)
  }

  /** Valid, and the capacity is one of the ladder sizes. */
  ghost predicate Laddered(b: Buffer) {
    Valid(b) && OnLadder(b.size)
  }

  // ---------------------------------------------------------------------
  // Operations

  /** The constructor (`alloc_buffer`): an empty 64 KiB buffer. */
  function New(): (r: Buffer)
    ensures Valid(r) && Contents(r) == [] && r.size == IO_BUFFER_DEF
    ensures r.begin == 0 && r.end == 0 && |r.mem| == IO_BUFFER_DEF
  {
    Buffer(Fresh(IO_BUFFER_DEF), IO_BUFFER_DEF, 0, 0)
  }

  /** The three conditions under which `resize` leaves the buffer alone. */
  predicate ResizeRefused(b: Buffer, size: nat)
    requires WellFormed(b)
  {
    size == b.size || size < DataLen(b) || size > IO_BUFFER_MAX
  }

  /**
    `resize`: reallocate to `size` bytes and report the new tail space. The
    unread bytes are not moved before the realloc; the read cursor is simply
    reset to offset 0, so the unread bytes survive exactly when they already
    started at offset 0.
   */
  function Resize(b: Buffer, size: nat): (r: (Buffer, nat))
    requires WellFormed(b)
    ensures WellFormed(r.0)
    ensures r.1 == TailSpace(r.0)
    ensures ResizeRefused(b, size) ==> r.0 == b
    ensures !ResizeRefused(b, size) ==>
      r.0.size == size && |r.0.mem| == size && r.0.begin == 0 && DataLen(r.0) == DataLen(b)
      && r.1 == size - DataLen(b)
    ensures b.begin == 0 ==> r.0.begin == 0 && Contents(r.0) == Contents(b)
  {
    var dataLen := DataLen(b);
    if ResizeRefused(b, size) then
      (b, b.size - b.end)
    else
      var mem' := Realloc(b.mem, size);
      (Buffer(mem', size, 0, dataLen), size - dataLen)
  }

  /** The copy of `data` into the space after the write cursor, cursors untouched. */
  function Store(b: Buffer, data: seq<byte>): (r: Buffer)
    requires WellFormed(b) && |data| <= TailSpace(b)
    ensures WellFormed(r) && r.size == b.size && r.begin == b.begin && r.end == b.end
    ensures |r.mem| == |b.mem|
    ensures r.mem[..b.end] == b.mem[..b.end]
    ensures r.mem[b.end..b.end + |data|] == data
    ensures r.mem[b.end + |data|..] == b.mem[b.end + |data|..]
  {
    b.(mem := b.mem[..b.end] + data + b.mem[b.end + |data|..])
  }

  /** `push_data`: append `data`; the caller must have checked the tail space. */
  function PushData(b: Buffer, data: seq<byte>): (r: (Buffer, bool))
    requires WellFormed(b) && |data| <= TailSpace(b)
    ensures WellFormed(r.0) && r.1
    ensures Contents(r.0) == Contents(b) + data
    ensures r.0.end == b.end + |data| && r.0.begin == b.begin && r.0.size == b.size
  {
    var stored := Store(b, data);
    assert stored.mem[b.begin..b.end] == b.mem[b.begin..b.end];
    (stored.(end := b.end + |data|), true)
  }

  /**
    `peek_space`: the write region (its offset and length), growing to twice
    the capacity first when fewer than GROW_THRESHOLD bytes are free.
   */
  function PeekSpace(b: Buffer): (r: (Buffer, nat, nat))
    requires WellFormed(b)
    ensures WellFormed(r.0)
    ensures r.1 == r.0.end && r.2 == TailSpace(r.0)
    ensures DataLen(r.0) == DataLen(b)
    ensures b.begin == 0 ==> r.0.begin == 0 && Contents(r.0) == Contents(b)
    ensures r.0.size == (if TailSpace(b) < GROW_THRESHOLD && 0 < b.size && 2 * b.size <= IO_BUFFER_MAX
                         then 2 * b.size else b.size)
    ensures TailSpace(b) >= GROW_THRESHOLD ==> r.0 == b
  {
    var spaceLen := b.size - b.end;
    if spaceLen < GROW_THRESHOLD then
      var (grown, len) := Resize(b, b.size * 2);
      (grown, grown.end, len)
    else
      (b, b.end, spaceLen)
  }

  /** `pop_space`: commit `n` bytes written into the region returned by `peek_space`. */
  function PopSpace(b: Buffer, n: nat): (r: Buffer)
    requires WellFormed(b) && b.end + n <= b.size
    ensures WellFormed(r)
    ensures Contents(r) == Contents(b) + b.mem[b.end..b.end + n]
    ensures r.end == b.end + n && r.begin == b.begin && r.size == b.size && r.mem == b.mem
  {
    b.(end := b.end + n)
  }

  /** `peek_data`: offset and length of the unread bytes, nothing consumed. */
  function PeekData(b: Buffer): (r: (nat, nat))
    requires WellFormed(b)
    ensures r.0 == b.begin && r.0 + r.1 <= |b.mem|
    ensures b.mem[r.0..r.0 + r.1] == Contents(b)
  {
    (b.begin, b.end - b.begin)
  }

  /** `empty`. */
  predicate Empty(b: Buffer)
    requires WellFormed(b)
    ensures Empty(b) <==> Contents(b) == []
  {
    b.end <= b.begin
  }

  /** `regularize`: slide the unread bytes to offset 0 and report the space that frees. */
  function Regularize(b: Buffer): (r: (Buffer, nat))
    requires WellFormed(b)
    ensures WellFormed(r.0) && r.0.begin == 0
    ensures Contents(r.0) == Contents(b)
    ensures r.0.size == b.size && |r.0.mem| == |b.mem|
    ensures r.1 == r.0.size - |Contents(r.0)|
  {
    var dataLen := DataLen(b);
    if b.begin > 0 then
      var mem' := if dataLen > 0 then b.mem[b.begin..b.end] + b.mem[dataLen..] else b.mem;
      (b.(mem := mem', begin := 0, end := dataLen), b.size - dataLen)
    else
      (b, b.size - dataLen)
  }

  /** The condition under which `pop_data` halves the capacity after compaction. */
  predicate ShrinkDue(size: nat, remaining: nat) {
    size > IO_BUFFER_DEF && remaining < size / 4
  }

  /** `pop_data`: drop `n` unread bytes, compact, and halve a mostly idle buffer. */
  function PopData(b: Buffer, n: nat): (r: Buffer)
    requires WellFormed(b) && n <= DataLen(b)
    ensures WellFormed(r) && r.begin == 0
    ensures Contents(r) == Contents(b)[n..]
    ensures r.size == (if ShrinkDue(b.size, DataLen(b) - n) then b.size / 2 else b.size)
  {
    var consumed := b.(begin := b.begin + n);
    assert Contents(consumed) == Contents(b)[n..];
    var compact := Regularize(consumed).0;
    var dataLen := DataLen(compact);
    if compact.size > IO_BUFFER_DEF && dataLen < compact.size / 4 then
      Resize(compact, compact.size / 2).0
    else
      compact
  }

  /**
    `clear`: try to shrink the allocation back to IO_BUFFER_DEF, then record
    that capacity and drop every unread byte. The shrink is refused when
    more than IO_BUFFER_DEF bytes are unread; the allocation then stays
    larger than the recorded capacity.
   */
  function Clear(b: Buffer): (r: Buffer)
    requires WellFormed(b)
    ensures Valid(r) && Contents(r) == [] && r.size == IO_BUFFER_DEF
    ensures r.begin == 0 && r.end == 0
    ensures DataLen(b) <= IO_BUFFER_DEF && b.size != IO_BUFFER_DEF ==> |r.mem| == IO_BUFFER_DEF
    ensures b.size == IO_BUFFER_DEF || DataLen(b) > IO_BUFFER_DEF ==> r.mem == b.mem
  {
    var shrunk := Resize(b, IO_BUFFER_DEF).0;
    shrunk.(size := IO_BUFFER_DEF, begin := 0, end := 0)
  }
}
