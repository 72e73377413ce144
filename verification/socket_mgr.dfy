/**
  The connection registry of the socket reactor (`socket_mgr`): link and
  protocol enums, the base socket object's link status, the token
  allocator over the token -> object map, and the connection-count
  admission counters.
 */
module SocketMgr {
  import opened Types

  // ---------------------------------------------------------------------
  // Enumerations and their integer codes

  /** `elink_status`; the source spells the third value `link_colsing`. */
  datatype LinkStatus = LinkInit | LinkConnected | LinkClosing | LinkClosed

  function LinkStatusCode(s: LinkStatus): (r: int)
    ensures 0 <= r < 4
  {
    match s
    case LinkInit => 0
    case LinkConnected => 1
    case LinkClosing => 2
    case LinkClosed => 3
  }

  /** The status with integer code `c`, if any. */
  function LinkStatusOf(c: int): (r: Option<LinkStatus>)
    ensures r.Some? <==> 0 <= c < 4
    ensures r.Some? ==> LinkStatusCode(r.value) == c
  {
    if c == 0 then Some(LinkInit)
    else if c == 1 then Some(LinkConnected)
    else if c == 2 then Some(LinkClosing)
    else if c == 3 then Some(LinkClosed)
    else None
  }

  /** `eproto_type` without its `proto_max` bound. */
  datatype ProtoType = ProtoRpc | ProtoHead | ProtoText | ProtoCommon

  /** `proto_max`: one past the largest protocol code. */
  const PROTO_MAX: int := 4

  function ProtoCode(p: ProtoType): (r: int)
    ensures 0 <= r < PROTO_MAX
  {
    match p
    case ProtoRpc => 0
    case ProtoHead => 1
    case ProtoText => 2
    case ProtoCommon => 3
  }

  /** The protocol with integer code `c`; `proto_max` and beyond name none. */
  function ProtoOf(c: int): (r: Option<ProtoType>)
    ensures r.Some? <==> 0 <= c < PROTO_MAX
    ensures r.Some? ==> ProtoCode(r.value) == c
  {
    if c == 0 then Some(ProtoRpc)
    else if c == 1 then Some(ProtoHead)
    else if c == 2 then Some(ProtoText)
    else if c == 3 then Some(ProtoCommon)
    else None
  }

  /** Every enumerator is recovered from its code. */
  lemma CodesRoundTrip(s: LinkStatus, p: ProtoType)
    ensures LinkStatusOf(LinkStatusCode(s)) == Some(s)
    ensures ProtoOf(ProtoCode(p)) == Some(p)
  {
  }

  // ---------------------------------------------------------------------
  // The base socket object

  /**
    `socket_object`: the base keeps only the link status; `derived` stands
    for the state a concrete socket kind adds on top of it.
   */
  datatype SocketObject<D> = SocketObject(linkStatus: LinkStatus, derived: D)

  /** A freshly constructed object starts in `link_init`. */
  function NewSocketObject<D>(derived: D): (r: SocketObject<D>)
    ensures r.linkStatus == LinkInit && r.derived == derived
  {
    SocketObject(LinkInit, derived)
  }

  /** The default `close`: mark the link closed and leave the rest alone. */
  function CloseObject<D>(o: SocketObject<D>): (r: SocketObject<D>)
    ensures r.linkStatus == LinkClosed && r.derived == o.derived
    ensures o.linkStatus == LinkClosed ==> r == o
  {
    o.(linkStatus := LinkClosed)
  }

  // ---------------------------------------------------------------------
  // The manager state

  /**
    The part of `socket_mgr` this model keeps: the two counters, the last
    token handed out and the token -> object map.
   */
  datatype SocketMgr<T> = SocketMgr(maxCount: int, count: int, token: uint32, objects: map<uint32, T>)

  /** The member initialisers of a new manager. */
  function InitialMgr<T>(): (r: SocketMgr<T>)
    ensures r.count == 0 && r.maxCount == 0 && r.token == 0 && r.objects == map[]
  {
    SocketMgr(0, 0, 0, map[])
  }

  // ---------------------------------------------------------------------
  // Lookup

  /** The `uint32_t` key a C `int` token converts to (modulo 2^32). */
  function TokenKey(token: int): (r: uint32)
    requires IsInt32(token)
    ensures (r - token) % UINT32_RANGE == 0
  {
    if token < 0 then token + UINT32_RANGE else token
  }

  /** The C `int` a `uint32_t` token converts to when passed to an `int` parameter. */
  function TokenArg(t: uint32): (r: int)
    ensures IsInt32(r) && (r - t) % UINT32_RANGE == 0
  {
    if t <= INT32_MAX then t else t - UINT32_RANGE
  }

  /** `get_object`: the object registered under the token, or null. */
  function GetObject<T>(m: SocketMgr<T>, token: int): (r: Option<T>)
    requires IsInt32(token)
    ensures r.Some? <==> TokenKey(token) in m.objects
    ensures r.Some? ==> r.value == m.objects[TokenKey(token)]
  {
    var key := TokenKey(token);
    if key in m.objects then Some(m.objects[key]) else None
  }

  /** The two conversions are inverse, so a `uint32_t` token survives the `int` parameter. */
  lemma TokenConversionsInverse(t: uint32, i: int)
    requires IsInt32(i)
    ensures TokenKey(TokenArg(t)) == t
    ensures TokenArg(TokenKey(i)) == i
  {
  }

  /** Looking a registered `uint32_t` token up through `get_object` finds its object. */
  lemma GetObjectByToken<T>(m: SocketMgr<T>, t: uint32)
    ensures GetObject(m, TokenArg(t)) == (if t in m.objects then Some(m.objects[t]) else None)
  {
    TokenConversionsInverse(t, 0);
  }

  // ---------------------------------------------------------------------
  // Token allocation

  /** `++m_token` on a `uint32_t`. */
  function Next(t: uint32): (r: uint32)
    ensures r == (t + 1) % UINT32_RANGE
  {
    if t == UINT32_RANGE - 1 then 0 else t + 1
  }

  /** The `i`-th candidate after `from`, wrapping around. */
  function Advance(from: uint32, i: nat): uint32 {
    (from + i) % UINT32_RANGE
  }

  /** How many increments take `from` to `to`: between 1 and 2^32. */
  function Gap(from: uint32, to: uint32): (r: nat)
    ensures 1 <= r <= UINT32_RANGE
  {
    (to - from - 1) % UINT32_RANGE + 1
  }

  /** A candidate the allocator must skip: the reserved 0 or a live token. */
  predicate Taken<T>(objects: map<uint32, T>, t: uint32) {
    t == 0 || t in objects
  }

  lemma AdvanceNext(from: uint32, i: nat)
    ensures Next(Advance(from, i)) == Advance(from, i + 1)
  {
  }

  lemma AdvanceGap(from: uint32, to: uint32)
    ensures Advance(from, Gap(from, to)) == to
  {
  }

  lemma GapAdvance(from: uint32, i: nat)
    requires 1 <= i <= UINT32_RANGE
    ensures Gap(from, Advance(from, i)) == i
  {
  }

  /** A set holding every token from 1 to `n` has at least `n` elements. */
  lemma {:induction false} CoverCount(keys: set<uint32>, n: nat)
    requires n < UINT32_RANGE
    requires forall t: uint32 :: 1 <= t <= n ==> t in keys
    ensures |keys| >= n
  {
    if n > 0 {
      CoverCount(keys - {n}, n - 1);
    }
  }

  /** Pigeonhole: with fewer than 2^32 - 1 live tokens some non-zero token is free. */
  lemma FreeTokenExists<T>(objects: map<uint32, T>)
    requires |objects| < UINT32_RANGE - 1
    ensures exists t: uint32 :: !Taken(objects, t)
  {
    if forall t: uint32 :: Taken(objects, t) {
      forall t: uint32 | 1 <= t <= UINT32_RANGE - 1
        ensures t in objects.Keys
      {
        assert Taken(objects, t);
      }
      CoverCount(objects.Keys, UINT32_RANGE - 1);
      assert false;
    }
  }

  /**
    `new_token`: advance the counter, with 32-bit wrap-around, to the first
    value that is neither 0 nor a live token, and hand it out. The loop ends
    exactly when such a value exists; FreeTokenExists shows that it does
    whenever fewer than 2^32 - 1 tokens are live.
   */
  method NewToken<T>(m: SocketMgr<T>) returns (m': SocketMgr<T>, t: uint32)
    requires exists u: uint32 :: !Taken(m.objects, u)
    ensures t != 0 && t !in m.objects
    ensures m' == m.(token := t)
    ensures forall i :: 1 <= i < Gap(m.token, t) ==> Taken(m.objects, Advance(m.token, i))
  {
    ghost var free: uint32 :| !Taken(m.objects, free);
    ghost var bound := Gap(m.token, free);
    AdvanceGap(m.token, free);
    ghost var steps: nat := 1;
    var token := Next(m.token);
    while token == 0 || token in m.objects
      invariant 1 <= steps <= bound
      invariant token == Advance(m.token, steps)
      invariant forall i :: 1 <= i < steps ==> Taken(m.objects, Advance(m.token, i))
      decreases bound - steps
    {
      AdvanceNext(m.token, steps);
      steps := steps + 1;
      token := Next(token);
    }
    GapAdvance(m.token, steps);
    t := token;
    m' := m.(token := token);
  }

  /** Storing an object under a fresh token overwrites no registered object. */
  lemma FreshTokenExtends<T>(objects: map<uint32, T>, t: uint32, o: T)
    requires !Taken(objects, t)
    ensures |objects[t := o]| == |objects| + 1
    ensures forall u :: u in objects ==> u in objects[t := o] && objects[t := o][u] == objects[u]
  {
  }

  // ---------------------------------------------------------------------
  // Admission control

  /** `is_full`: the live count has reached the configured maximum. */
  predicate IsFull<T>(m: SocketMgr<T>)
    ensures IsFull(m) ==> m.count >= m.maxCount
    ensures !IsFull(m) ==> m.count + 1 <= m.maxCount
  {
    m.count >= m.maxCount
  }

  /** `increase_count`; `m_count` is a C `int`, so it must not overflow. */
  function IncreaseCount<T>(m: SocketMgr<T>): (r: SocketMgr<T>)
    requires m.count < INT32_MAX
    ensures r.count == m.count + 1 && r.(count := m.count) == m
  {
    m.(count := m.count + 1)
  }

  /** `decrease_count`; `m_count` is a C `int`, so it must not underflow. */
  function DecreaseCount<T>(m: SocketMgr<T>): (r: SocketMgr<T>)
    requires m.count > INT32_MIN
    ensures r.count == m.count - 1 && r.(count := m.count) == m
  {
    m.(count := m.count - 1)
  }

  lemma CountersInverse<T>(m: SocketMgr<T>)
    requires IsInt32(m.count)
    ensures m.count < INT32_MAX ==> DecreaseCount(IncreaseCount(m)) == m
    ensures m.count > INT32_MIN ==> IncreaseCount(DecreaseCount(m)) == m
  {
  }

  /** A registration attempt or the end of a registered connection. */
  datatype CountEvent = Admit | Release

  /**
    The admission pattern the counters serve: a registration is admitted,
    and counted, only while the manager is not full; a release uncounts a
    connection admitted before. None when a release has nothing to undo.
   */
  function CountStep<T>(m: SocketMgr<T>, e: CountEvent): (r: Option<SocketMgr<T>>)
    requires IsInt32(m.maxCount) && IsInt32(m.count)
  {
    match e
    case Admit => if IsFull(m) then Some(m) else Some(IncreaseCount(m))
    case Release => if m.count > 0 then Some(DecreaseCount(m)) else None
  }

  function CountRun<T>(m: SocketMgr<T>, es: seq<CountEvent>): (r: Option<SocketMgr<T>>)
    requires IsInt32(m.maxCount) && 0 <= m.count <= m.maxCount
    decreases |es|
  {
    if es == [] then Some(m)
    else
      match CountStep(m, es[0])
      case None => None
      case Some(m') => CountRun(m', es[1..])
  }

  /**
    Admission control: whatever the sequence of registrations and releases,
    the live count never exceeds the maximum nor drops below zero, and
    nothing but the count changes.
   */
  lemma {:induction false} AdmissionBounded<T>(m: SocketMgr<T>, es: seq<CountEvent>)
    requires IsInt32(m.maxCount) && 0 <= m.count <= m.maxCount
    requires CountRun(m, es).Some?
    ensures 0 <= CountRun(m, es).value.count <= m.maxCount
    ensures CountRun(m, es).value.(count := m.count) == m
    decreases |es|
  {
    if es != [] {
      var m' := CountStep(m, es[0]).value;
      AdmissionBounded(m', es[1..]);
    }
  }
}
