/**
  The move-only socket handle `base_socket` and the process-wide state it
  touches.

  `Process` gathers what lies outside the object: the readiness registry of
  `async_context` (descriptor to owning object), the descriptors the kernel
  has open, the set of `base_socket` objects currently alive, and the
  sequence of every `::close` issued. All of it is ghost: it is the state the
  ownership protocol is proved against. The kernel's answers to `::socket`,
  `::setsockopt` and `::getsockopt` are the function values of an `Os`.
*/
module Handles {
  import opened Net
  import opened Wrappers

  /** The descriptor value a moved-from socket holds. */
  const NoHandle: int := -1

  /** Linux `SOL_SOCKET`, `SO_REUSEADDR`, `SO_REUSEPORT`. */
  const SOL_SOCKET: int := 1
  const SO_REUSEADDR: int := 2
  const SO_REUSEPORT: int := 15
  /** `const int reuse = 1`, as the bytes `setsockopt` receives. */
  const ReuseOn: seq<byte> := [1, 0, 0, 0]

  /** The `std::runtime_error`s `base_socket` throws, by message. */
  datatype SocketError =
    | CreateFailed     // "Failed to create socket."
    | ReuseAddrFailed  // "Failed to set address reusable."
    | ReusePortFailed  // "Failed to set port reusable."
    | SetOptionFailed  // "Failed to set socket option."
    | GetOptionFailed  // "Failed to get socket option."

  /**
    The kernel as seen by one call: `socket(domain, type)` yields a
    descriptor or -1, `setsockopt(fd, level, name, value)` and
    `getsockopt(fd, level, name, optlen)` yield a status (and the bytes written).
  */
  datatype Os = Os(
    socket: (int, int) -> int,
    setsockopt: (int, int, int, seq<byte>) -> int,
    getsockopt: (int, int, int, nat) -> (int, seq<byte>))

  /** The template arguments of an `option<level, name, T>`: `size` is `sizeof(T)`. */
  datatype OptionKind = OptionKind(level: int, name: int, size: nat)

  /** An option value: its kind and the bytes of its `T`. */
  datatype SockOption = SockOption(kind: OptionKind, value: seq<byte>)

  /**
    The bytes of a zero-initialised buffer of `size` bytes after the kernel
    wrote `written` into it; whatever it reports beyond `size` is dropped.
  */
  function Filled(size: nat, written: seq<byte>): (b: seq<byte>)
    ensures |b| == size
    ensures forall i | 0 <= i < size :: b[i] == if i < |written| then written[i] else 0
  {
    seq(size, i requires 0 <= i < size => if i < |written| then written[i] else 0)
  }

  /**
    What `get_option<OPTION_TYPE>()` yields on descriptor `fd`: the option
    read back when `getsockopt` returns 0, and an option error otherwise.
    The length the kernel reports is not compared with `size`.
  */
  function ReadOption(fd: int, kind: OptionKind, os: Os): (r: Result<SockOption, SocketError>)
    ensures r.Failure? <==> os.getsockopt(fd, kind.level, kind.name, kind.size).0 != 0
    ensures r.Failure? ==> r.error == GetOptionFailed
    ensures r.Success? ==> r.value.kind == kind && |r.value.value| == kind.size
    ensures r.Success? ==> forall i | 0 <= i < kind.size ::
      var written := os.getsockopt(fd, kind.level, kind.name, kind.size).1;
      r.value.value[i] == if i < |written| then written[i] else 0
  {
    var (status, written) := os.getsockopt(fd, kind.level, kind.name, kind.size);
    if status != 0 then Failure(GetOptionFailed)
    else Success(SockOption(kind, Filled(kind.size, written)))
  }

  /**
    The checks both constructors run, in order, on the descriptor they hold:
    the first one that fails is the error they throw.
  */
  function ConstructionChecks(fd: int, os: Os): (o: Outcome<SocketError>)
    ensures o == Pass <==>
      fd != NoHandle
      && os.setsockopt(fd, SOL_SOCKET, SO_REUSEADDR, ReuseOn) >= 0
      && os.setsockopt(fd, SOL_SOCKET, SO_REUSEPORT, ReuseOn) >= 0
    ensures fd == NoHandle ==> o == Fail(CreateFailed)
  {
    if fd == NoHandle then Fail(CreateFailed)
    else if os.setsockopt(fd, SOL_SOCKET, SO_REUSEADDR, ReuseOn) < 0 then Fail(ReuseAddrFailed)
    else if os.setsockopt(fd, SOL_SOCKET, SO_REUSEPORT, ReuseOn) < 0 then Fail(ReusePortFailed)
    else Pass
  }

  /** Process-wide state around the sockets. */
  class Process {
    /** `async_context`'s registry: descriptor to the object that owns it. */
    ghost var registry: map<int, BaseSocket>
    /** Descriptors the kernel has open. */
    ghost var open: set<int>
    /** `base_socket` objects constructed and not yet destroyed. */
    ghost var live: set<BaseSocket>
    /** Every descriptor passed to `::close`, in order. */
    ghost var closed: seq<int>

    /** The kernel never hands out a negative descriptor. */
    ghost predicate OpenFdsNatural()
      reads this
    {
      forall fd | fd in open :: fd >= 0
    }

    /** Every descriptor a live object holds is open. */
    ghost predicate HoldersOpen()
      reads this, live
    {
      forall s | s in live && s.sockfd != NoHandle :: s.sockfd in open
    }

    /** No descriptor other than `NoHandle` is held by two live objects. */
    ghost predicate Exclusive()
      reads this, live
    {
      forall s, t | s in live && t in live && s != t && s.sockfd != NoHandle :: s.sockfd != t.sockfd
    }

    /** Each registry entry names a live object that still holds that descriptor. */
    ghost predicate RegistryNamesHolder()
      reads this, live
    {
      forall fd | fd in registry :: fd >= 0 && registry[fd] in live && registry[fd].sockfd == fd
    }

    /**
      The ownership invariant: it survives every operation of `base_socket`,
      including the move-assignment that leaves the registry inexact.
    */
    ghost predicate Owned()
      reads this, live
    {
      OpenFdsNatural() && HoldersOpen() && Exclusive()
    }

    /** Ownership together with an exact registry. */
    ghost predicate Valid()
      reads this, live
    {
      Owned() && RegistryNamesHolder()
    }

    constructor ()
      ensures Valid()
      ensures registry == map[] && open == {} && live == {} && closed == []
    {
      registry, open, live, closed := map[], {}, {}, [];
    }

    /**
      Registration with the readiness registry (done by `async_context`, whose
      code is not part of this model): inserts or overwrites the entry for
      `fd`, which its live owner holds.
    */
    method Register(fd: int, owner: BaseSocket)
      requires Owned() && owner in live && owner.sockfd == fd && fd != NoHandle
      modifies this
      ensures Owned()
      ensures old(RegistryNamesHolder()) ==> RegistryNamesHolder()
      ensures registry == old(registry)[fd := owner]
      ensures open == old(open) && live == old(live) && closed == old(closed)
    {
      registry := registry[fd := owner];
    }

    /** `callback_update_socket(fd, owner)`: repoints an existing entry; unknown descriptors are ignored. */
    method UpdateOwner(fd: int, owner: BaseSocket)
      modifies this
      ensures registry == if fd in old(registry) then old(registry)[fd := owner] else old(registry)
      ensures open == old(open) && live == old(live) && closed == old(closed)
    {
      if fd in registry {
        registry := registry[fd := owner];
      }
    }

    /**
      The kernel hands the process a new descriptor (as `::accept` does, in
      code that is not part of this model), the way `Adopt` expects to receive it.
    */
    ghost method KernelOpens(fd: int)
      requires Owned() && fd >= 0 && fd !in open
      modifies this
      ensures Owned()
      ensures old(RegistryNamesHolder()) ==> RegistryNamesHolder()
      ensures fd in open && forall s | s in live :: s.sockfd != fd
      ensures open == old(open) + {fd}
      ensures registry == old(registry) && live == old(live) && closed == old(closed)
    {
      open := open + {fd};
    }

    /** `deregister(fd)`: removes the entry, if there is one. */
    method Deregister(fd: int)
      modifies this
      ensures registry == old(registry) - {fd}
      ensures open == old(open) && live == old(live) && closed == old(closed)
    {
      registry := registry - {fd};
    }

    /** `::close(fd)`. */
    method Close(fd: int)
      modifies this
      ensures open == old(open) - {fd} && closed == old(closed) + [fd]
      ensures registry == old(registry) && live == old(live)
    {
      open := open - {fd};
      closed := closed + [fd];
    }
  }

  /** `detail::base_socket`: owns one descriptor and its address family. Copying is not offered. */
  class BaseSocket {
    /** `m_sockfd` */
    var sockfd: int
    /** `m_family` */
    var family: IpVersion

    constructor Init(sockfd: int, family: IpVersion)
      ensures this.sockfd == sockfd && this.family == family
    {
      this.sockfd := sockfd;
      this.family := family;
    }

    /**
      `base_socket(socket_type, ip_version)`: opens a descriptor with
      `::socket`, then sets `SO_REUSEADDR` and `SO_REUSEPORT`, throwing at the
      first step that fails. A descriptor whose option step fails stays open
      with no owner: the throwing constructor never closes it.
    */
    static method Create(sockType: SocketType, ipVer: IpVersion, proc: Process, os: Os)
      returns (r: Result<BaseSocket, SocketError>)
      requires proc.Owned()
      requires var fd := os.socket(ipVer.Native(), sockType.Native());
        fd == NoHandle || (fd >= 0 && fd !in proc.open)
      modifies proc
      ensures proc.Owned()
      ensures old(proc.RegistryNamesHolder()) ==> proc.RegistryNamesHolder()
      ensures var fd := os.socket(ipVer.Native(), sockType.Native());
        && (r.Failure? <==> ConstructionChecks(fd, os).Fail?)
        && (r.Failure? ==> r.error == ConstructionChecks(fd, os).error)
        && proc.open == (if fd == NoHandle then old(proc.open) else old(proc.open) + {fd})
        && (r.Success? ==> r.value.sockfd == fd)
      ensures r.Success? ==> fresh(r.value) && r.value.family == ipVer
      ensures proc.live == if r.Success? then old(proc.live) + {r.value} else old(proc.live)
      ensures proc.registry == old(proc.registry) && proc.closed == old(proc.closed)
    {
      var fd := os.socket(ipVer.Native(), sockType.Native());
      if fd == NoHandle {
        return Failure(CreateFailed);
      }
      proc.open := proc.open + {fd};
      r := ConfigureReuse(fd, ipVer, proc, os);
    }

    /**
      `base_socket(int sockfd, ip_version)`: adopts a descriptor the caller
      owns (one returned by `accept`), then applies the same reuse options.
      Only -1 is rejected as a descriptor.
    */
    static method Adopt(sockfd: int, ipVer: IpVersion, proc: Process, os: Os)
      returns (r: Result<BaseSocket, SocketError>)
      requires proc.Owned()
      requires sockfd == NoHandle || (sockfd in proc.open && forall s | s in proc.live :: s.sockfd != sockfd)
      modifies proc
      ensures proc.Owned()
      ensures old(proc.RegistryNamesHolder()) ==> proc.RegistryNamesHolder()
      ensures r.Failure? <==> ConstructionChecks(sockfd, os).Fail?
      ensures r.Failure? ==> r.error == ConstructionChecks(sockfd, os).error
      ensures r.Success? ==> fresh(r.value) && r.value.sockfd == sockfd && r.value.family == ipVer
      ensures proc.live == if r.Success? then old(proc.live) + {r.value} else old(proc.live)
      ensures proc.open == old(proc.open) && proc.registry == old(proc.registry) && proc.closed == old(proc.closed)
    {
      if sockfd == NoHandle {
        return Failure(CreateFailed);
      }
      r := ConfigureReuse(sockfd, ipVer, proc, os);
    }

    /**
      The option steps both constructors share; on success the object becomes
      live. `ConstructionChecks` is the specification of these steps.
    */
    static method ConfigureReuse(fd: int, ipVer: IpVersion, proc: Process, os: Os)
      returns (r: Result<BaseSocket, SocketError>)
      requires proc.Owned() && fd in proc.open && fd != NoHandle
      requires forall s | s in proc.live :: s.sockfd != fd
      modifies proc
      ensures proc.Owned()
      ensures old(proc.RegistryNamesHolder()) ==> proc.RegistryNamesHolder()
      ensures r.Failure? <==> ConstructionChecks(fd, os).Fail?
      ensures r.Failure? ==> r.error == ConstructionChecks(fd, os).error
      ensures r.Success? ==> fresh(r.value) && r.value.sockfd == fd && r.value.family == ipVer
      ensures proc.live == if r.Success? then old(proc.live) + {r.value} else old(proc.live)
      ensures proc.open == old(proc.open) && proc.registry == old(proc.registry) && proc.closed == old(proc.closed)
    {
      if os.setsockopt(fd, SOL_SOCKET, SO_REUSEADDR, ReuseOn) < 0 {
        return Failure(ReuseAddrFailed);
      }
      if os.setsockopt(fd, SOL_SOCKET, SO_REUSEPORT, ReuseOn) < 0 {
        return Failure(ReusePortFailed);
      }
      var s := new BaseSocket.Init(fd, ipVer);
      proc.live := proc.live + {s};
      r := Success(s);
    }

    /**
      `base_socket(base_socket&&)`: the new object takes the source's
      descriptor and family, the registry entry is repointed at it, and the
      source is left holding -1.
    */
    constructor MoveFrom(rhs: BaseSocket, proc: Process)
      requires proc.Owned() && rhs in proc.live
      modifies rhs, proc
      ensures proc.Owned()
      ensures old(proc.RegistryNamesHolder()) ==> proc.RegistryNamesHolder()
      ensures sockfd == old(rhs.sockfd) && family == old(rhs.family)
      ensures rhs.sockfd == NoHandle && rhs.family == old(rhs.family)
      ensures proc.live == old(proc.live) + {this}
      ensures proc.registry ==
        if old(rhs.sockfd) in old(proc.registry) then old(proc.registry)[old(rhs.sockfd) := this]
        else old(proc.registry)
      ensures proc.open == old(proc.open) && proc.closed == old(proc.closed)
    {
      sockfd := rhs.sockfd;
      family := rhs.family;
      new;
      proc.live := proc.live + {this};
      proc.UpdateOwner(sockfd, this);
      rhs.sockfd := NoHandle;
    }

    /**
      `operator=(base_socket&&)`, as written: unless it is a self-move, copies
      the descriptor and family, repoints the registry entry of that descriptor
      at `this`, and sets the source to -1. The destination's previous
      descriptor is overwritten without being closed or deregistered, so an
      exact registry stays exact only when that descriptor had no entry.
      Ownership survives in every case.
    */
    method MoveAssign(rhs: BaseSocket, proc: Process)
      requires proc.Owned() && this in proc.live && rhs in proc.live
      modifies this, rhs, proc
      ensures this == rhs ==> sockfd == old(sockfd) && family == old(family)
      ensures this != rhs ==> sockfd == old(rhs.sockfd) && family == old(rhs.family)
      ensures this != rhs ==> rhs.sockfd == NoHandle && rhs.family == old(rhs.family)
      ensures proc.registry ==
        if this != rhs && old(rhs.sockfd) in old(proc.registry) then old(proc.registry)[old(rhs.sockfd) := this]
        else old(proc.registry)
      ensures proc.open == old(proc.open) && proc.live == old(proc.live) && proc.closed == old(proc.closed)
      ensures proc.Owned()
      ensures old(proc.RegistryNamesHolder()) ==>
        (proc.RegistryNamesHolder() <==> (this == rhs || old(sockfd) !in old(proc.registry)))
      ensures this != rhs && old(sockfd) != NoHandle ==>
        old(sockfd) in proc.open && forall s | s in proc.live :: s.sockfd != old(sockfd)
    {
      if this != rhs {
        ghost var dropped := sockfd;
        sockfd := rhs.sockfd;
        family := rhs.family;
        proc.UpdateOwner(sockfd, this);
        rhs.sockfd := NoHandle;
        if old(proc.RegistryNamesHolder()) && dropped in old(proc.registry) {
          assert proc.registry[dropped] == this && sockfd != dropped;
        }
      }
    }

    /**
      Move-assignment that first releases the destination's own descriptor,
      whatever its value (deregister, then close), so an exact registry stays
      exact and nothing leaks.
    */
    method MoveAssignReleasing(rhs: BaseSocket, proc: Process)
      requires proc.Owned() && this in proc.live && rhs in proc.live
      modifies this, rhs, proc
      ensures proc.Owned()
      ensures old(proc.RegistryNamesHolder()) ==> proc.RegistryNamesHolder()
      ensures this == rhs ==> sockfd == old(sockfd) && family == old(family)
      ensures this != rhs ==> sockfd == old(rhs.sockfd) && family == old(rhs.family)
      ensures this != rhs ==> rhs.sockfd == NoHandle && rhs.family == old(rhs.family)
      ensures var released := this != rhs && old(sockfd) != NoHandle;
        var cleared := if released then old(proc.registry) - {old(sockfd)} else old(proc.registry);
        proc.registry ==
          if this != rhs && old(rhs.sockfd) in cleared then cleared[old(rhs.sockfd) := this] else cleared
      ensures var released := this != rhs && old(sockfd) != NoHandle;
        && proc.open == (if released then old(proc.open) - {old(sockfd)} else old(proc.open))
        && proc.closed == (if released then old(proc.closed) + [old(sockfd)] else old(proc.closed))
      ensures proc.live == old(proc.live)
    {
      if this != rhs {
        if sockfd != NoHandle {
          proc.Deregister(sockfd);
          proc.Close(sockfd);
        }
        sockfd := rhs.sockfd;
        family := rhs.family;
        proc.UpdateOwner(sockfd, this);
        rhs.sockfd := NoHandle;
      }
    }

    /**
      `~base_socket()`: deregisters and closes only a descriptor `> 0`; a
      moved-from object (-1) touches neither the registry nor the kernel, and
      descriptor 0 is never closed. What it closes is open and held by no
      other live object. An entry for descriptor 0 survives, naming the
      destroyed object.
    */
    method Destroy(proc: Process)
      requires proc.Owned() && this in proc.live
      modifies proc
      ensures proc.Owned()
      ensures old(proc.RegistryNamesHolder()) && !(sockfd == 0 && 0 in old(proc.registry)) ==>
        proc.RegistryNamesHolder()
      ensures old(proc.RegistryNamesHolder()) && sockfd == 0 && 0 in old(proc.registry) ==>
        0 in proc.registry && proc.registry[0] == this && this !in proc.live
      ensures proc.live == old(proc.live) - {this}
      ensures sockfd > 0 ==>
        && sockfd in old(proc.open)
        && (forall s | s in proc.live :: s.sockfd != sockfd)
        && proc.registry == old(proc.registry) - {sockfd}
        && proc.open == old(proc.open) - {sockfd}
        && proc.closed == old(proc.closed) + [sockfd]
      ensures sockfd <= 0 ==>
        proc.registry == old(proc.registry) && proc.open == old(proc.open) && proc.closed == old(proc.closed)
    {
      if sockfd > 0 {
        proc.Deregister(sockfd);
        proc.Close(sockfd);
      }
      proc.live := proc.live - {this};
    }

    /** `set_option(opt)`: throws exactly when `setsockopt` returns nonzero. */
    method SetOption(opt: SockOption, os: Os) returns (r: Outcome<SocketError>)
      ensures r.Fail? <==> os.setsockopt(sockfd, opt.kind.level, opt.kind.name, opt.value) != 0
      ensures r.Fail? ==> r.error == SetOptionFailed
    {
      if os.setsockopt(sockfd, opt.kind.level, opt.kind.name, opt.value) != 0 {
        return Fail(SetOptionFailed);
      }
      return Pass;
    }

    /** `get_option<OPTION_TYPE>()`; `ReadOption` is its specification. */
    method GetOption(kind: OptionKind, os: Os) returns (r: Result<SockOption, SocketError>)
      ensures r == ReadOption(sockfd, kind, os)
    {
      var (status, written) := os.getsockopt(sockfd, kind.level, kind.name, kind.size);
      if status != 0 {
        return Failure(GetOptionFailed);
      }
      return Success(SockOption(kind, Filled(kind.size, written)));
    }

    /** `get_option_value<OPTION_TYPE>()`: `get_option().value()`, failing as it does. */
    method GetOptionValue(kind: OptionKind, os: Os) returns (r: Result<seq<byte>, SocketError>)
      ensures r.Failure? <==> ReadOption(sockfd, kind, os).Failure?
      ensures r.Failure? ==> r.error == GetOptionFailed
      ensures r.Success? ==> r.value == ReadOption(sockfd, kind, os).value.value && |r.value| == kind.size
    {
      var opt := GetOption(kind, os);
      if opt.Failure? {
        return Failure(opt.error);
      }
      return Success(opt.value.value);
    }

    /** `get()`: the descriptor, which no other live object holds. */
    method Get(ghost proc: Process) returns (fd: int)
      requires proc.Owned() && this in proc.live
      ensures fd == sockfd
      ensures fd != NoHandle ==> fd in proc.open && forall s | s in proc.live && s != this :: s.sockfd != fd
      ensures proc.RegistryNamesHolder() && fd in proc.registry ==> proc.registry[fd] == this
    {
      fd := sockfd;
    }

    /** `family()`: the stored address family. */
    method Family() returns (f: IpVersion)
      ensures f == family
    {
      f := family;
    }
  }

  /**
    The normal use of `Adopt`: the kernel hands a fresh process descriptor 7,
    as `accept` does, and the socket adopting it succeeds exactly when both
    reuse options can be set on it, and then holds it within the ownership
    invariant.
  */
  method AdoptAccepted(os: Os) returns (proc: Process, r: Result<BaseSocket, SocketError>)
    ensures proc.Valid()
    ensures r.Success? <==>
      os.setsockopt(7, SOL_SOCKET, SO_REUSEADDR, ReuseOn) >= 0
      && os.setsockopt(7, SOL_SOCKET, SO_REUSEPORT, ReuseOn) >= 0
    ensures r.Success? ==> r.value.sockfd == 7 && r.value in proc.live && 7 in proc.open
  {
    proc := new Process();
    proc.KernelOpens(7);
    r := BaseSocket.Adopt(7, V4, proc, os);
  }

  /**
    A concrete scenario of the as-written move-assignment: two sockets on
    descriptors 3 and 4, both registered; moving the second into the first
    leaves the entry for 3 naming an object that now holds 4, and descriptor 3
    open with no owner.
  */
  method StaleEntryAfterMove() returns (proc: Process, a: BaseSocket)
    ensures 3 in proc.registry && proc.registry[3] == a && a.sockfd == 4
    ensures 3 in proc.open && forall s | s in proc.live :: s.sockfd != 3
    ensures !proc.Valid()
  {
    proc := new Process();
    var ok := (fd: int, level: int, name: int, value: seq<byte>) => 0;
    var noGet := (fd: int, level: int, name: int, size: nat) => (0, []);
    var ra := BaseSocket.Create(Tcp, V4, proc, Os((d: int, t: int) => 3, ok, noGet));
    var rb := BaseSocket.Create(Tcp, V4, proc, Os((d: int, t: int) => 4, ok, noGet));
    a := ra.value;
    var b := rb.value;
    proc.Register(3, a);
    proc.Register(4, b);
    a.MoveAssign(b, proc);
  }

  /** Three live sockets on descriptors 3, 4 and 5, each registered to its holder. */
  method ThreeRegistered() returns (proc: Process, a: BaseSocket, b: BaseSocket, c: BaseSocket)
    ensures fresh(proc) && fresh(a) && fresh(b) && fresh(c)
    ensures proc.Valid() && a != b && b != c && a != c
    ensures proc.live == {a, b, c} && proc.open == {3, 4, 5} && proc.closed == []
    ensures a.sockfd == 3 && b.sockfd == 4 && c.sockfd == 5
    ensures proc.registry == map[3 := a, 4 := b, 5 := c]
  {
    proc := new Process();
    var ok := (fd: int, level: int, name: int, value: seq<byte>) => 0;
    var noGet := (fd: int, level: int, name: int, size: nat) => (0, []);
    var ra := BaseSocket.Create(Tcp, V4, proc, Os((d: int, t: int) => 3, ok, noGet));
    var rb := BaseSocket.Create(Tcp, V4, proc, Os((d: int, t: int) => 4, ok, noGet));
    var rc := BaseSocket.Create(Tcp, V4, proc, Os((d: int, t: int) => 5, ok, noGet));
    a, b, c := ra.value, rb.value, rc.value;
    assert a != b && b != c && a != c;
    assert proc.live == {a, b, c} && proc.open == {3, 4, 5} && proc.closed == [];
    proc.Register(3, a);
    proc.Register(4, b);
    proc.Register(5, c);
  }

  /**
    The as-written move-assignment followed through to destruction: sockets
    on registered descriptors 3, 4 and 5; `a = move(b)`, then `c = move(a)`,
    then all three are destroyed. Exclusivity holds at every step and only
    descriptor 4 is ever closed, but the entries for 3 and 5 outlive their
    objects, and both descriptors stay open.
  */
  method DanglingEntriesAfterDestroy() returns (proc: Process, a: BaseSocket, c: BaseSocket)
    ensures proc.Owned() && proc.live == {}
    ensures 3 in proc.registry && proc.registry[3] == a && a !in proc.live
    ensures 5 in proc.registry && proc.registry[5] == c && c !in proc.live
    ensures 3 in proc.open && 5 in proc.open && 4 !in proc.open
    ensures proc.closed == [4]
  {
    var b;
    proc, a, b, c := ThreeRegistered();
    a.MoveAssign(b, proc);
    assert a.sockfd == 4 && b.sockfd == NoHandle && c.sockfd == 5;
    assert proc.registry == map[3 := a, 4 := a, 5 := c];
    c.MoveAssign(a, proc);
    assert a.sockfd == NoHandle && b.sockfd == NoHandle && c.sockfd == 4;
    assert proc.registry == map[3 := a, 4 := c, 5 := c];
    a.Destroy(proc);
    b.Destroy(proc);
    assert proc.live == {c} && proc.registry == map[3 := a, 4 := c, 5 := c];
    c.Destroy(proc);
  }
}
