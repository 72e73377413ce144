/**
  The capacity ladder of `io_buffer`: starting at IO_BUFFER_DEF, doubling in
  `peek_space` and halving in `pop_data` keep the capacity on
  IO_BUFFER_DEF * 2^k for 0 <= k <= 10, that is between 64 KiB and 64 MiB.
 */
module BufferCapacity {
  import opened IoBuffer

  lemma {:induction false} RungMonotone(j: nat, k: nat)
    requires j <= k
    ensures Rung(j) <= Rung(k)
  {
    if j < k {
      RungMonotone(j, k - 1);
    }
  }

  /** The top rung is the cap. */
  lemma RungTop()
    ensures Rung(LADDER_TOP) == IO_BUFFER_MAX
  {
  }

  /** Every rung lies between the default and the maximum capacity. */
  lemma LadderBounds(c: nat)
    requires OnLadder(c)
    ensures IO_BUFFER_DEF <= c <= IO_BUFFER_MAX
  {
    var k: nat :| k <= LADDER_TOP && c == Rung(k);
    RungMonotone(k, LADDER_TOP);
    RungTop();
  }

  /** Both ends of the ladder are rungs. */
  lemma LadderEnds()
    ensures OnLadder(IO_BUFFER_DEF) && OnLadder(IO_BUFFER_MAX)
  {
    assert IO_BUFFER_DEF == Rung(0);
    RungTop();
  }

  /** A rung below the cap can always be doubled without passing the cap. */
  lemma LadderBelowMax(c: nat)
    requires OnLadder(c) && c < IO_BUFFER_MAX
    ensures 2 * c <= IO_BUFFER_MAX && OnLadder(2 * c)
  {
    var k: nat :| k <= LADDER_TOP && c == Rung(k);
    RungTop();
    assert k < LADDER_TOP;
    assert 2 * c == Rung(k + 1);
    RungMonotone(k + 1, LADDER_TOP);
  }

  /** Halving a rung above the default stays on the ladder. */
  lemma LadderHalve(c: nat)
    requires OnLadder(c) && c > IO_BUFFER_DEF
    ensures OnLadder(c / 2)
  {
    var k: nat :| k <= LADDER_TOP && c == Rung(k);
    assert k != 0;
    assert c / 2 == Rung(k - 1);
  }

  /** A fresh buffer sits on the lowest rung. */
  lemma NewLaddered()
    ensures Laddered(New())
  {
    LadderEnds();
  }

  /**
    `peek_space` keeps the buffer on the ladder and, unless the capacity is
    already IO_BUFFER_MAX, hands out at least GROW_THRESHOLD bytes; at
    IO_BUFFER_MAX it never grows.
   */
  lemma PeekSpaceLaddered(b: Buffer)
    requires Laddered(b)
    ensures Laddered(PeekSpace(b).0)
    ensures PeekSpace(b).2 >= GROW_THRESHOLD || b.size == IO_BUFFER_MAX
    ensures b.size == IO_BUFFER_MAX ==> PeekSpace(b).0 == b
  {
    LadderBounds(b.size);
    if b.size < IO_BUFFER_MAX {
      LadderBelowMax(b.size);
    }
  }

  /** `pop_data` keeps the buffer on the ladder. */
  lemma PopDataLaddered(b: Buffer, n: nat)
    requires Laddered(b) && n <= DataLen(b)
    ensures Laddered(PopData(b, n))
  {
    if ShrinkDue(b.size, DataLen(b) - n) {
      LadderHalve(b.size);
    }
  }

  /** `clear` puts the buffer back on the lowest rung whatever its state. */
  lemma ClearLaddered(b: Buffer)
    requires WellFormed(b)
    ensures Laddered(Clear(b))
  {
    LadderEnds();
  }
}
