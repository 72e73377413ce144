/**
  Conservation over any sequence of buffer operations: a producer reserves
  space with `peek_space`, copies bytes in and commits them with
  `pop_space`; a consumer drops read bytes with `pop_data`. Whatever the
  interleaving, the unread bytes are exactly everything committed with
  everything consumed cut off the front, and the capacity stays on the
  ladder.
 */
module BufferTrace {
  import opened Types
  import opened IoBuffer
  import BufferCapacity

  /** One step of a producer or consumer. */
  datatype Op =
    | Write(data: seq<byte>)   // peek_space, copy `data` into the region, pop_space(|data|)
    | Consume(n: nat)          // pop_data(n)

  /** One step, or None when it would break the operation's assertion. */
  function Step(b: Buffer, op: Op): (r: Option<Buffer>)
    requires WellFormed(b)
    ensures r.Some? ==> WellFormed(r.value)
  {
    match op
    case Write(data) =>
      var (reserved, _, len) := PeekSpace(b);
      if |data| <= len then Some(PopSpace(Store(reserved, data), |data|)) else None
    case Consume(n) =>
      if n <= DataLen(b) then Some(PopData(b, n)) else None
  }

  /** The buffer after every step of `ops`, or None when some step is not allowed. */
  function Run(b: Buffer, ops: seq<Op>): (r: Option<Buffer>)
    requires WellFormed(b)
    ensures r.Some? ==> WellFormed(r.value)
    decreases |ops|
  {
    if ops == [] then Some(b)
    else
      match Step(b, ops[0])
      case None => None
      case Some(b') => Run(b', ops[1..])
  }

  /** Bytes committed by one step. */
  function OpWritten(op: Op): seq<byte> {
    if op.Write? then op.data else []
  }

  /** Bytes consumed by one step. */
  function OpConsumed(op: Op): nat {
    if op.Consume? then op.n else 0
  }

  /** All bytes committed by `ops`, in order. */
  function Written(ops: seq<Op>): seq<byte>
    decreases |ops|
  {
    if ops == [] then [] else OpWritten(ops[0]) + Written(ops[1..])
  }

  /** Total number of bytes consumed by `ops`. */
  function Consumed(ops: seq<Op>): nat
    decreases |ops|
  {
    if ops == [] then 0 else OpConsumed(ops[0]) + Consumed(ops[1..])
  }

  /** Dropping a prefix before or after appending gives the same bytes. */
  lemma DropAppend(before: seq<byte>, w: seq<byte>, later: seq<byte>, c: nat, c': nat)
    requires c <= |before| + |w| && c' <= |before| + |w| - c + |later|
    ensures ((before + w)[c..] + later)[c'..] == (before + (w + later))[c + c'..]
  {
  }

  /** One step conserves bytes and keeps the ladder. */
  lemma StepConserves(b: Buffer, op: Op)
    requires Laddered(b) && Step(b, op).Some?
    ensures Laddered(Step(b, op).value)
    ensures OpConsumed(op) <= |Contents(b)|
    ensures Contents(Step(b, op).value) == (Contents(b) + OpWritten(op))[OpConsumed(op)..]
  {
    match op
    case Write(data) =>
      BufferCapacity.PeekSpaceLaddered(b);
      var reserved := PeekSpace(b).0;
      var stored := Store(reserved, data);
      assert stored.mem[0..reserved.end] == reserved.mem[0..reserved.end];
    case Consume(n) =>
      BufferCapacity.PopDataLaddered(b, n);
  }

  /**
    Conservation: after any allowed sequence of operations starting from a
    laddered buffer, the unread bytes are the old unread bytes followed by
    every committed byte, minus the consumed prefix, and the buffer is still
    laddered.
   */
  lemma {:induction false} RunConserves(b: Buffer, ops: seq<Op>)
    requires Laddered(b) && Run(b, ops).Some?
    ensures Laddered(Run(b, ops).value)
    ensures Consumed(ops) <= |Contents(b)| + |Written(ops)|
    ensures Contents(Run(b, ops).value) == (Contents(b) + Written(ops))[Consumed(ops)..]
    decreases |ops|
  {
    if ops == [] {
      assert Contents(b) + [] == Contents(b);
    } else {
      var op, rest := ops[0], ops[1..];
      var b' := Step(b, op).value;
      assert Run(b, ops) == Run(b', rest);
      StepConserves(b, op);
      RunConserves(b', rest);
      DropAppend(Contents(b), OpWritten(op), Written(rest), OpConsumed(op), Consumed(rest));
    }
  }
}
