# io_buffer and socket_mgr, modelled in Dafny

This project models two self-contained parts of the luabus socket reactor:

* **`io_buffer`**: the growable byte buffer that each connection uses for
  receiving and sending. It is one allocation with a read cursor
  (`m_data_begin`) and a write cursor (`m_data_end`). `peek_space` reserves
  a write region and doubles the capacity when fewer than 8 KiB are free.
  `pop_space` and `push_data` commit bytes. `peek_data` exposes the unread
  bytes. `pop_data` consumes bytes, slides the rest back to offset 0 with
  `regularize`, and halves the capacity when less than a quarter is in use.
  `clear` resets the buffer to 64 KiB.
* **`socket_mgr`'s registry and admission counter**: the `elink_status` and
  `eproto_type` enumerations, the base `socket_object` link status and its
  default `close`, the `new_token` allocator over the token -> object map,
  `get_object`, and the `is_full` / `increase_count` / `decrease_count`
  counters.

The model is functional. The buffer is a datatype `Buffer(mem, size,
begin, end)`. `mem` is the whole allocation as a `seq<byte>`, and its
length is the size last passed to `malloc`/`realloc`. `size` is
`m_buffer_size`, and the cursors are offsets from the start of the
allocation. `memcpy`, `memmove` and `realloc` become sequence slicing and
concatenation. Bytes that a fresh allocation leaves undefined are modelled
as zero; no property depends on their value.

Every public buffer operation keeps the read cursor at offset 0 (`Valid`).
`resize` relies on this: it reallocates and then resets the read cursor to 0
without moving the unread bytes, so the bytes survive only because they
already start at offset 0. `Resize` states this precisely: the unread bytes
are preserved whenever `begin == 0`.

The capacity stays on the ladder 64 KiB * 2^k for 0 <= k <= 10 (`Laddered`)
under every operation except a direct `resize` to an arbitrary size.
`RunConserves` is the conservation theorem. For any interleaving of
reserve-copy-commit writes and `pop_data` consumptions, the unread bytes are
the earlier unread bytes followed by everything committed, with everything
consumed removed from the front.

The manager is a datatype `SocketMgr(maxCount, count, token, objects)`.
`objects` maps `uint32` tokens to objects of a type parameter. `new_token`
is a method with the source's loop. Its loop invariant records every
skipped candidate. It terminates whenever some non-zero token is free, and a pigeonhole
lemma shows one is free whenever fewer than 2^32 - 1 tokens are live.

Two behaviours of the code are worth stating plainly:

* `clear` records 64 KiB as the capacity but keeps a larger allocation when
  more than 64 KiB are unread, because its `resize(IO_BUFFER_DEF)` is then
  refused (`Clear`).
* A direct `resize` can set any capacity up to 64 MiB that is not below the
  unread length, including one below 64 KiB. The capacity stays within
  [64 KiB, 64 MiB] only under the other operations (`Resize`, `WellFormed`,
  `Laddered`).

## Model

| member | source | states |
|---|---|---|
| IoBuffer.New | core/luabus/src/io_buffer.h:106-112 | a new buffer is empty, with capacity and allocation of 64 KiB and both cursors at offset 0 |
| IoBuffer.Resize | core/luabus/src/io_buffer.h:20-33 | a refused resize (same size, below the unread length, above 64 MiB) leaves the buffer unchanged. A successful one sets capacity and allocation to the new size, keeps the unread length, moves the read cursor to 0 and keeps the unread bytes when they started at 0. Either way it returns the resulting tail space |
| IoBuffer.PushData | core/luabus/src/io_buffer.h:35-42 | given enough tail space, the unread bytes become the old ones followed by the data; the write cursor advances by exactly its length; the result is true |
| IoBuffer.PopSpace | core/luabus/src/io_buffer.h:91-95 | committing n bytes inside the capacity appends the n bytes already stored after the write cursor and moves nothing else |
| IoBuffer.PeekSpace | core/luabus/src/io_buffer.h:79-89 | the region starts at the write cursor, and its length is the actual tail space. The capacity doubles exactly when fewer than 8 KiB were free and doubling stays within 64 MiB. Unread bytes are kept |
| IoBuffer.PeekData | core/luabus/src/io_buffer.h:97-101 | the returned offset is the read cursor and the returned range holds exactly the unread bytes |
| IoBuffer.Empty | core/luabus/src/io_buffer.h:103 | the buffer is empty exactly when it holds no unread bytes |
| IoBuffer.Regularize | core/luabus/src/io_buffer.h:57-70 | unread bytes are kept and start at offset 0; capacity is unchanged; the result is capacity minus unread length |
| IoBuffer.PopData | core/luabus/src/io_buffer.h:44-55 | the unread bytes lose exactly their first n, the read cursor ends at 0, and the capacity halves exactly when it exceeded 64 KiB and fewer than `size / 4` bytes (integer division) remain; on ladder capacities this is exactly a quarter |
| IoBuffer.Clear | core/luabus/src/io_buffer.h:72-77 | the buffer ends empty with recorded capacity 64 KiB. The allocation is reallocated to exactly 64 KiB (shrinking or, after a direct resize below 64 KiB, growing) unless it was already recorded at 64 KiB or more than 64 KiB were unread, in which case the allocation is kept |
| BufferCapacity.RungTop | core/luabus/src/io_buffer.h:12-13 | ten doublings of the 64 KiB default reach exactly the 64 MiB maximum |
| BufferCapacity.LadderBounds | core/luabus/src/io_buffer.h:12-13 | every ladder capacity lies between 64 KiB and 64 MiB |
| BufferCapacity.LadderBelowMax | core/luabus/src/io_buffer.h:83-85 | a ladder capacity below 64 MiB can be doubled within the cap and lands on the ladder |
| BufferCapacity.LadderHalve | core/luabus/src/io_buffer.h:50-54 | halving a ladder capacity above 64 KiB lands on the ladder |
| BufferCapacity.NewLaddered | core/luabus/src/io_buffer.h:17 | a new buffer is on the ladder's lowest rung |
| BufferCapacity.PeekSpaceLaddered | core/luabus/src/io_buffer.h:79-89 | peek_space keeps a laddered buffer laddered. It hands out at least 8 KiB unless the capacity is 64 MiB, and at 64 MiB it never grows |
| BufferCapacity.PopDataLaddered | core/luabus/src/io_buffer.h:44-55 | pop_data keeps a laddered buffer laddered |
| BufferCapacity.ClearLaddered | core/luabus/src/io_buffer.h:72-77 | clear leaves any buffer laddered, at 64 KiB |
| BufferTrace.StepConserves | core/luabus/src/io_buffer.h:44-95 | one reserve-copy-commit write or one pop_data conserves bytes and keeps the ladder |
| BufferTrace.RunConserves | core/luabus/src/io_buffer.h:35-95 | after any allowed sequence of writes and consumptions, the unread bytes are the old unread bytes plus every committed byte minus the consumed prefix, and the buffer is still laddered |
| SocketMgr.LinkStatusOf | core/luabus/src/socket_mgr.h:14-20 | exactly the codes 0 to 3 name a link status, and each names the status with that code |
| SocketMgr.ProtoOf | core/luabus/src/socket_mgr.h:23-30 | exactly the codes below proto_max (4) name a protocol, and each names the protocol with that code |
| SocketMgr.CodesRoundTrip | core/luabus/src/socket_mgr.h:14-30 | every link status and protocol is recovered from its integer code |
| SocketMgr.NewSocketObject | core/luabus/src/socket_mgr.h:66 | a socket object starts in link_init |
| SocketMgr.CloseObject | core/luabus/src/socket_mgr.h:44 | the default close sets link_closed, keeps the rest of the object, and is a no-op on a closed object |
| SocketMgr.InitialMgr | core/luabus/src/socket_mgr.h:145-148 | a new manager has zero counters, token counter 0 and no registered objects |
| SocketMgr.TokenKey | core/luabus/src/socket_mgr.h:130-131 | the map key for an int token is the int modulo 2^32 |
| SocketMgr.GetObject | core/luabus/src/socket_mgr.h:130-136 | the lookup yields the mapped object exactly when the converted token is registered, and null otherwise |
| SocketMgr.TokenConversionsInverse | core/luabus/src/socket_mgr.h:130-131 | converting a uint32 token to int and back gives the token, and likewise for an int |
| SocketMgr.GetObjectByToken | core/luabus/src/socket_mgr.h:130-136 | a uint32 token passed through get_object's int parameter finds exactly its registered object, or null |
| SocketMgr.FreeTokenExists | core/luabus/src/socket_mgr.h:138-143 | with fewer than 2^32 - 1 live tokens, some non-zero token is free, so the loop ends |
| SocketMgr.NewToken | core/luabus/src/socket_mgr.h:138-143 | the new token is non-zero and not live, and it becomes the counter. Every earlier candidate after the old counter, with 32-bit wrap-around, was 0 or live. The map and counters are unchanged |
| SocketMgr.FreshTokenExtends | core/luabus/src/socket_mgr.h:139 | storing an object under a token that new_token may return grows the map by one and overwrites no live entry |
| SocketMgr.IsFull | core/luabus/src/socket_mgr.h:109 | the manager is full exactly when the count has reached the maximum; when it is not full, one more admission keeps the count within the maximum |
| SocketMgr.IncreaseCount | core/luabus/src/socket_mgr.h:107 | the count rises by exactly one and nothing else changes |
| SocketMgr.DecreaseCount | core/luabus/src/socket_mgr.h:108 | the count falls by exactly one and nothing else changes |
| SocketMgr.CountersInverse | core/luabus/src/socket_mgr.h:107-108 | increase_count and decrease_count undo each other |
| SocketMgr.AdmissionBounded | core/luabus/src/socket_mgr.h:107-109 | when registrations are counted only while is_full is false, the live count stays between 0 and the maximum for any sequence, and only the count changes |

## Left out

- socket_stream: the connect-with-retry algorithm, `do_recv`/`do_send`, its `close`, and `dispatch_package`, which splits received bytes into packets according to the `eproto_type` protocol (rpc, head, text, common). They are defined outside `io_buffer.h` and `socket_mgr.h` and are not modelled.
- The epoll, kqueue and IOCP backends: `wait`, `listen`, `connect`, the `watch_*` functions, `accept_stream` and `setup`. They are defined outside `socket_mgr.h`, are operating-system I/O, and are not modelled.
- The per-token forwarding functions of socket_mgr (`send`, `sendv`, `close`, `set_*`, `get_*`). They are defined outside `socket_mgr.h` and are not modelled. The registration that stores an object under a fresh token is defined there too; `FreshTokenExtends` states only what such a store does to the map.
- The default virtual functions of `socket_object` other than `close`: they do nothing or return 0, and only derived classes give them meaning.
- `malloc` or `realloc` returning null: allocation is modelled as always succeeding.
- `free` in the destructor: memory release is not observable in the model.
- Undefined bytes of a fresh allocation are modelled as zero.
- `size_t` arithmetic is unbounded in the model. Every size involved is at most 2 * 64 MiB, so `size_t` never wraps there.
- SocketMgr.NewToken: requires some non-zero token to be free. When every non-zero token is live, the loop in `new_token` never ends; the requires excludes exactly that state, so the model says nothing about it.
- SocketMgr.IncreaseCount: requires the count to stay within C `int`, because signed overflow is undefined behaviour in the source.
- SocketMgr.DecreaseCount: requires the count to stay within C `int`, for the same reason.
- SocketMgr.AdmissionBounded: the callers that check `is_full` before counting a connection are defined outside `socket_mgr.h`. The lemma states the admission pattern the counters exist for, not a particular caller.
- BufferTrace.RunConserves: a write larger than the region `peek_space` returns is treated as not allowed. A caller that receives fewer bytes is modelled by a shorter write.
