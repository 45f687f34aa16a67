# socketwrapper: endpoints and socket-handle ownership, in Dafny

This project models two sequential pieces of the header-only C++ library
`socketwrapper` and proves properties of them.

- **Address endpoints** (`endpoint<v4>`, `endpoint<v6>`, `endpoint<unixsock>`),
  module `Endpoint` in `endpoint.dfy`. The native address record
  (`sockaddr_in`, `sockaddr_in6`, `sockaddr_un`) is an `array<byte>` with the
  Linux x86-64 layout. The IP endpoints share the class `IpEndpoint`, which
  keeps the lazily filled text cache (`upToDate`, `addrString`, `port`). The
  byte constructors fill the record in place. `update()` refills the cache only
  when it is stale. The writable `get_addr()` marks the cache stale. The
  local-domain endpoint `UnixEndpoint` length-checks a path and copies it into
  `sun_path`.
- **The move-only socket handle** `detail::base_socket`, module `Handles` in
  `base_socket.dfy`. Its class `BaseSocket` has fields `sockfd` and `family`.
  A `Process` object carries the process-wide ghost state:
  - the readiness registry (descriptor to owning object);
  - the descriptors the kernel has open;
  - the live objects;
  - every `close` issued.

  `Process.Owned()` is the ownership invariant:
  - no two live objects hold the same descriptor (other than -1);
  - every held descriptor is open.

  Every operation requires and preserves it, in any order, including after
  the as-written move-assignment. `Process.RegistryNamesHolder()` adds that
  each registry entry names a live object that still holds that descriptor.
  Every operation keeps an exact registry exact, with two exceptions:
  - the as-written move-assignment into a destination whose descriptor is
    registered (see Findings);
  - destroying an object whose registered descriptor is 0, which the
    destructor's `> 0` guard leaves registered.
- Shared vocabulary, module `Net` in `net.dfy`: bytes, 16-bit words, the
  `ip_version` and `socket_type` values, and byte order. Module `Wrappers` in
  `wrappers.dfy` holds the `Result`/`Outcome` types that stand for thrown
  exceptions.

Foreign calls are parameters:
- `resolve_addrinfo` is the `resolve` function an `IpEndpoint` is built with;
- `resolve_hostname` is the `lookup` argument of `FromHost`;
- `socket`, `setsockopt` and `getsockopt` are the function values of an `Os`.

The model follows the code, including where it departs from the library's
stated design:
- the IPv6 byte constructors tag the record with the IPv4 family;
- the unix path constructor writes no terminator into a buffer it never zeroes;
- a constructor whose `setsockopt` step fails leaves its descriptor open (the
  throwing constructor never closes it);
- `get_option` does not compare the length the kernel reports with the
  option's size;
- `base_socket`'s constructors do not register with the readiness registry.

## Model

| member | source | states |
|---|---|---|
| `Net.NetworkOrderRoundTrip` | include/socketwrapper/endpoint.hpp:70 | a port stored with `host_to_network` reads back in host order as the same port |
| `Net.NetworkOrderInjective` | include/socketwrapper/endpoint.hpp:83 | every two-byte network-order field is the encoding of exactly one port |
| `Net.NetworkOrderIsSwappedHostOrder` | include/socketwrapper/endpoint.hpp:177 | on a little-endian host the stored port bytes are the host-order bytes swapped |
| `Net.HostOrderRoundTrip` | include/socketwrapper/endpoint.hpp:71 | a family tag written in host order reads back unchanged |
| `Endpoint.BytesRecordRoundTrip` | include/socketwrapper/endpoint.hpp:171-182 | the record built from address bytes and a port gives back exactly those bytes and that port; its family field is `AF_INET` even for IPv6 |
| `Endpoint.CopyN` | include/socketwrapper/endpoint.hpp:72 | `copy_n` overwrites exactly the target range with the source bytes and leaves the rest of the record as it was |
| `Endpoint.IpEndpoint.Default` | include/socketwrapper/endpoint.hpp:47 | a default endpoint has a stale cache and an empty text |
| `Endpoint.IpEndpoint.FromSockaddr` | include/socketwrapper/endpoint.hpp:49-55 | the record is the given one and the cache, marked valid, is what it resolves to |
| `Endpoint.IpEndpoint.FromHost` | include/socketwrapper/endpoint.hpp:57-62 | the record is `resolve_hostname`'s answer; the cache is valid with exactly the given text and port, whatever `resolve` would say |
| `Endpoint.IpEndpoint.FromBytes` | include/socketwrapper/endpoint.hpp:64-75 | the record holds the given port in network order, the `AF_INET` tag and the given bytes; `GetAddrBytes()` returns those bytes; the cache is valid and consistent with the record |
| `Endpoint.IpEndpoint.Update` | include/socketwrapper/endpoint.hpp:31-39 | afterwards the cache is marked up to date; a call on an up-to-date cache changes no field; a stale cache is refilled from the record |
| `Endpoint.IpEndpoint.GetAddrString` | include/socketwrapper/endpoint.hpp:90-94 | returns the cached text when valid, else the record's resolved text, which it caches; repeated calls return the same text |
| `Endpoint.IpEndpoint.GetPort` | include/socketwrapper/endpoint.hpp:103-107 | returns the cached port when valid, else the record's resolved port, which it caches; repeated calls return the same port |
| `Endpoint.IpEndpoint.GetAddrBytes` | include/socketwrapper/endpoint.hpp:96-101 | the 4 (IPv4) or 16 (IPv6) address bytes of the record, element by element |
| `Endpoint.IpEndpoint.GetAddrConst` | include/socketwrapper/endpoint.hpp:109-112 | the const overload gives a read-only view equal to the whole 16- or 28-byte record, so it needs no cache invalidation and changes nothing |
| `Endpoint.IpEndpoint.GetAddr` | include/socketwrapper/endpoint.hpp:114-118 | the writable overload returns the record, marks the cache stale unconditionally and leaves record, text and port unchanged |
| `Endpoint.IpEndpoint.IsValidAddrSize` | include/socketwrapper/endpoint.hpp:120-123 | true exactly when the size equals the record size (16 for IPv4, 28 for IPv6) |
| `Endpoint.LoopbackExample` | include/socketwrapper/endpoint.hpp:64-75 | bytes 127.0.0.1 and port 9999 give back port 9999 and those bytes, for a resolver that reads the port field |
| `Endpoint.CString` | include/socketwrapper/endpoint.hpp:263-266 | the prefix of a buffer before its first NUL: NUL-free, followed by a NUL or the end of the buffer |
| `Endpoint.CStringOfCopiedPath` | include/socketwrapper/endpoint.hpp:254-266 | a NUL-free path copied to the front of a buffer reads back as that path if and only if the byte after it is NUL |
| `Endpoint.UnixEndpoint.Default` | include/socketwrapper/endpoint.hpp:246 | a default unix endpoint has a record of `sizeof(sockaddr_un)` bytes, contents indeterminate |
| `Endpoint.UnixEndpoint.FromSockaddr` | include/socketwrapper/endpoint.hpp:248-252 | the record is the given one |
| `Endpoint.UnixEndpoint.FromPath` | include/socketwrapper/endpoint.hpp:254-261 | fails with "path is too long" if and only if the path length is at least `addr_str_len - 1`; otherwise the family is `AF_UNIX`, the first bytes of `sun_path` are the path, and the text reads back as the path exactly when the byte after it is NUL |
| `Endpoint.UnixEndpoint.GetAddrString` | include/socketwrapper/endpoint.hpp:263-266 | the bytes of `sun_path` before its first NUL |
| `Endpoint.UnixEndpoint.GetAddrBytes` | include/socketwrapper/endpoint.hpp:268-273 | all 108 bytes of `sun_path` |
| `Endpoint.UnixEndpoint.GetAddrConst` | include/socketwrapper/endpoint.hpp:276-279 | the const overload gives a read-only view equal to the whole 110-byte record and changes nothing |
| `Endpoint.UnixEndpoint.GetAddr` | include/socketwrapper/endpoint.hpp:281-284 | the writable overload returns the record itself; there is no cache to invalidate |
| `Endpoint.UnixEndpoint.IsValidAddrSize` | include/socketwrapper/endpoint.hpp:286-289 | true exactly when the size is at most the record size |
| `Handles.Filled` | include/socketwrapper/detail/base_socket.hpp:94-97 | the zero-initialised option buffer after the kernel wrote into it: its size is the option's size, written bytes first, zeros after |
| `Handles.ReadOption` | include/socketwrapper/detail/base_socket.hpp:90-103 | an option read fails if and only if `getsockopt` returns nonzero; otherwise the option has the requested kind and the buffer the kernel filled |
| `Handles.ConstructionChecks` | include/socketwrapper/detail/base_socket.hpp:47-64 | construction passes if and only if the descriptor is not -1 and both reuse `setsockopt` calls return at least 0; a -1 descriptor is a creation error |
| `Handles.Process.UpdateOwner` | include/socketwrapper/detail/base_socket.hpp:40 | `callback_update_socket` repoints an existing entry at the new owner and ignores unknown descriptors |
| `Handles.Process.Deregister` | include/socketwrapper/detail/base_socket.hpp:70 | `deregister` removes the entry if present, so a second call changes nothing |
| `Handles.Process.Close` | include/socketwrapper/detail/base_socket.hpp:71 | `close` removes the descriptor from the open set and logs it |
| `Handles.BaseSocket.Create` | include/socketwrapper/detail/base_socket.hpp:47-64 | fails at the first failing step: -1 from `socket`, or a reuse option below 0; on success the object holds the new descriptor and the given family; a descriptor whose option step failed stays open; ownership holds and an exact registry stays exact |
| `Handles.BaseSocket.Adopt` | include/socketwrapper/detail/base_socket.hpp:123-138 | rejects only -1 and failing reuse options; on success the object holds the adopted descriptor and family; ownership holds and an exact registry stays exact |
| `Handles.AdoptAccepted` | include/socketwrapper/detail/base_socket.hpp:123-138 | scenario: after the kernel hands out descriptor 7 (`Process.KernelOpens`, standing for `accept`), adopting it succeeds exactly when both reuse options can be set, and the new object then holds 7 in an exact registry |
| `Handles.BaseSocket.ConfigureReuse` | include/socketwrapper/detail/base_socket.hpp:130-137 | sets `SO_REUSEADDR` then `SO_REUSEPORT`, failing at the first one below 0; on success a fresh live object holds the descriptor; ownership holds and an exact registry stays exact |
| `Handles.BaseSocket.MoveFrom` | include/socketwrapper/detail/base_socket.hpp:26-29 | the new object holds the source's descriptor and family, the registry entry names it, the source holds -1; ownership holds and an exact registry stays exact |
| `Handles.BaseSocket.MoveAssign` | include/socketwrapper/detail/base_socket.hpp:31-45 | self-move changes nothing; otherwise the destination gets the source's descriptor and family, the source holds -1, that descriptor's entry names the destination; ownership (exclusivity, held descriptors open) always survives, from any state; an exact registry stays exact if and only if the destination's old descriptor was unregistered; that old descriptor stays open with no holder |
| `Handles.BaseSocket.MoveAssignReleasing` | include/socketwrapper/detail/base_socket.hpp:31-45 | same transfer after releasing any descriptor the destination holds (deregister, then close); the new registry is the old one without the destination's descriptor, with the source's entry, if any, repointed at the destination; ownership holds and an exact registry stays exact |
| `Handles.BaseSocket.Destroy` | include/socketwrapper/detail/base_socket.hpp:66-73 | deregisters and closes exactly when the descriptor is `> 0`; what it closes is open and held by no other live object; -1 and 0 touch neither registry nor kernel; ownership holds; an exact registry stays exact unless descriptor 0 was registered, whose entry then names the destroyed object |
| `Handles.BaseSocket.SetOption` | include/socketwrapper/detail/base_socket.hpp:75-88 | fails with an option error if and only if `setsockopt` on the held descriptor returns nonzero |
| `Handles.BaseSocket.GetOption` | include/socketwrapper/detail/base_socket.hpp:90-103 | the result is the option read from the held descriptor |
| `Handles.BaseSocket.GetOptionValue` | include/socketwrapper/detail/base_socket.hpp:105-110 | fails exactly when `get_option` fails; otherwise it is the value of `get_option`'s result |
| `Handles.BaseSocket.Get` | include/socketwrapper/detail/base_socket.hpp:112-115 | returns the held descriptor: open and held by no other live object; in an exact registry, any entry for it names this object |
| `Handles.BaseSocket.Family` | include/socketwrapper/detail/base_socket.hpp:117-120 | returns the stored family |
| `Handles.StaleEntryAfterMove` | include/socketwrapper/detail/base_socket.hpp:35-43 | concrete scenario: after moving a socket on descriptor 4 into one on registered descriptor 3, entry 3 names an object holding 4 and descriptor 3 is open with no owner |
| `Handles.DanglingEntriesAfterDestroy` | include/socketwrapper/detail/base_socket.hpp:31-73 | concrete scenario: sockets on registered descriptors 3, 4, 5; `a = move(b)`, `c = move(a)`, then all destroyed: ownership holds throughout, only 4 is closed, entries 3 and 5 name destroyed objects, and 3 and 5 stay open |

## Left out

- Name resolution (`resolve_addrinfo`, `resolve_hostname`) is a foreign call. It is a function parameter, and its errors are not modelled.
- `init_socket_system` is platform initialisation with nothing to observe; it is not modelled.
- The readiness registry's internals, its multiplexed wait and deadline-bounded reads are not modelled. They are concurrency and OS polling in `async.hpp`, which is not part of this model. Only `callback_update_socket` and `deregister` are modelled, as updates to a ghost map. `Process.Register` stands for the registration that happens in that code.
- `Process.Register`: assumes that `async_context` registers only a descriptor (0 included) held by a live object. When it registers is not modelled, because `async.hpp` is not part of this model.
- `Process.KernelOpens`: stands for `accept` handing the process a new descriptor. `accept` itself and which number the kernel picks are not modelled.
- The kernel's side of `socket`, `setsockopt`, `getsockopt` and `close` is not modelled. Their answers are the function values of an `Os`, and options do not round-trip through the kernel.
- `SO_REUSEPORT` is under `#ifdef`. The model is the build where it is defined (Linux).
- Record layouts, family values and socket-type values are those of Linux x86-64. `utility.hpp`, which defines `ip_version` and `socket_type`, is not part of this model.
- Option values (`option<level, name, T>`) are modelled as the bytes of `T`.
- The deleted copy constructor and copy assignment are not modelled: no copy operation exists in the model.
- `Endpoint.IpEndpoint.GetAddr` and `Endpoint.UnixEndpoint.GetAddr`: writes the caller makes through the returned reference are not modelled. The model hands out the same array, so such writes alias the record.
- `Endpoint.UnixEndpoint.FromPath`: `strlen` is stored in an `int`, and the overflow for paths of 2^31 bytes or more is not modelled. The path is given as the bytes before its terminator.
- `Endpoint.UnixEndpoint.GetAddrString`: when `sun_path` holds no NUL, the C++ reads past the record (undefined behaviour). The model stops at the end of `sun_path`.
- `BaseSocket.hpp`, `unixstream.hpp`, `unixdgram.hpp` and `example/unix_dgram_example.cpp` are not modelled: they hold declarations, type aliases and a demo program. The demo's `"/tmp/sock2"` round trip is the case `FromPath` describes.

## Findings

| source | as written | input that shows it | evidently intended | confidence | as-written member | corrected member |
|---|---|---|---|---|---|---|
| include/socketwrapper/detail/base_socket.hpp:35-43 | move-assignment overwrites the destination's descriptor without deregistering or closing it | destination on registered descriptor 3, source on descriptor 4: after the move, entry 3 names the destination, which holds 4, and descriptor 3 stays open with no owner | release the destination's own descriptor (deregister, then close) before taking the source's | not executed; medium | `Handles.BaseSocket.MoveAssign`, `Handles.StaleEntryAfterMove`, `Handles.DanglingEntriesAfterDestroy` | `Handles.BaseSocket.MoveAssignReleasing` |
