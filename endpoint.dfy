/**
  Address endpoints: `endpoint<v4>`, `endpoint<v6>` and `endpoint<unixsock>`.

  Each endpoint owns a fixed-size native address record, modelled byte for
  byte as an array (Linux x86-64 layouts). The two IP endpoints share one
  class, told apart by `version`; they also keep a lazily filled text cache
  (`upToDate`, `addrString`, `port`). The local-domain endpoint has no cache:
  its text is the path stored in the record.

  Name resolution is a foreign call: `resolve` stands for
  `resolve_addrinfo<version>` (record to presentation text and port) and the
  `lookup` argument of `FromHost` for `resolve_hostname<version>`.
*/
module Endpoint {
  import opened Net
  import opened Wrappers

  /** `sizeof(sockaddr_in)`, `sizeof(sockaddr_in6)`, `sizeof(sockaddr_un)` on Linux x86-64. */
  const SockaddrInSize: nat := 16
  const SockaddrIn6Size: nat := 28
  const SockaddrUnSize: nat := 110
  /** Every record starts with a 16-bit family field; `sin_port`/`sin6_port` follow it. */
  const FamilyAt: nat := 0
  const PortAt: nat := 2
  /** `sun_path` starts right after the family field; `sizeof(sun_path)` is the unix `addr_str_len`. */
  const SunPathAt: nat := 2
  const SunPathLen: nat := 108

  /** The two IP specialisations. */
  type IpFamily = v: IpVersion | v != UnixSock witness V4

  /** `addr_size` of an IP endpoint. */
  function AddrSize(v: IpFamily): nat
  {
    if v == V4 then SockaddrInSize else SockaddrIn6Size
  }

  /** Offset of `sin_addr` / `sin6_addr` in the record. */
  function AddrOffset(v: IpFamily): nat
  {
    if v == V4 then 4 else 8
  }

  /** Number of address bytes: 4 for IPv4, 16 for IPv6. */
  function AddrLen(v: IpFamily): nat
  {
    if v == V4 then 4 else 16
  }

  /** The family field of a record, read in host order. */
  function FamilyField(r: seq<byte>): u16
    requires |r| >= 2
  {
    ReadHostOrder16(r[FamilyAt..FamilyAt + 2])
  }

  /** The port field of an IP record, still in network order. */
  function PortField(r: seq<byte>): seq<byte>
    requires |r| >= 4
  {
    r[PortAt..PortAt + 2]
  }

  /** The address bytes of an IP record. */
  function AddrField(v: IpFamily, r: seq<byte>): seq<byte>
    requires |r| == AddrSize(v)
  {
    r[AddrOffset(v)..AddrOffset(v) + AddrLen(v)]
  }

  function Zeros(n: nat): (z: seq<byte>)
    ensures |z| == n && forall i | 0 <= i < n :: z[i] == 0
  {
    seq(n, _ => 0)
  }

  /**
    The record the byte constructors build: zero-initialised (`m_addr{}`),
    then the port in network order, the family tag and the address bytes.
    Both versions write the IPv4 tag, as the IPv6 constructors do.
  */
  function BytesRecord(v: IpFamily, bytes: seq<byte>, port: u16): (r: seq<byte>)
    requires |bytes| == AddrLen(v)
    ensures |r| == AddrSize(v)
  {
    HostOrder16(V4.Native()) + HostToNetwork16(port) + Zeros(AddrOffset(v) - 4)
      + bytes + Zeros(AddrSize(v) - AddrOffset(v) - AddrLen(v))
  }

  /**
    Byte round trip: the address bytes and the port read back from the record
    are the ones it was built from, and the family field holds `AF_INET` for
    IPv6 records too.
  */
  lemma BytesRecordRoundTrip(v: IpFamily, bytes: seq<byte>, port: u16)
    requires |bytes| == AddrLen(v)
    ensures AddrField(v, BytesRecord(v, bytes, port)) == bytes
    ensures NetworkToHost16(PortField(BytesRecord(v, bytes, port))) == port
    ensures FamilyField(BytesRecord(v, bytes, port)) == AF_INET
    ensures v == V6 ==> FamilyField(BytesRecord(v, bytes, port)) != V6.Native()
  {
  }

  /** `std::copy_n` / `std::memcpy` of `src` into `dst` starting at `at`. */
  method CopyN(src: seq<byte>, dst: array<byte>, at: nat)
    requires at + |src| <= dst.Length
    modifies dst
    ensures dst[..] == old(dst[..at]) + src + old(dst[at + |src|..])
  {
    var i := 0;
    while i < |src|
      invariant 0 <= i <= |src|
      invariant forall k | 0 <= k < dst.Length ::
        dst[k] == if at <= k < at + i then src[k - at] else old(dst[k])
    {
      dst[at + i] := src[i];
      i := i + 1;
    }
    assert forall k | 0 <= k < dst.Length ::
      dst[..][k] == (old(dst[..at]) + src + old(dst[at + |src|..]))[k];
  }

  /** `endpoint<v4>` and `endpoint<v6>`. */
  class IpEndpoint {
    const version: IpFamily
    /** `resolve_addrinfo<version>`: presentation text and host-order port of a record. */
    const resolve: seq<byte> -> (seq<char>, u16)
    /** `m_addr`, the native record. */
    const addr: array<byte>
    /** `m_up_to_date`, `m_addr_string`, `m_port`: the text cache. */
    var upToDate: bool
    var addrString: seq<char>
    var port: u16

    ghost predicate Valid()
      reads this
    {
      addr.Length == AddrSize(version)
    }

    /** The cache, when marked up to date, is what the record resolves to. */
    ghost predicate CacheConsistent()
      reads this, addr
    {
      upToDate ==> (addrString, port) == resolve(addr[..])
    }

    /** `endpoint() = default`: record and port indeterminate, cache stale. */
    constructor Default(version: IpFamily, resolve: seq<byte> -> (seq<char>, u16))
      ensures Valid() && fresh(addr)
      ensures this.version == version && this.resolve == resolve
      ensures !upToDate && addrString == [] && CacheConsistent()
    {
      this.version := version;
      this.resolve := resolve;
      addr := new byte[AddrSize(version)];
      upToDate := false;
      addrString := [];
    }

    /** `endpoint(const sockaddr_in&)`: copies the record and fills the cache from it. */
    constructor FromSockaddr(version: IpFamily, resolve: seq<byte> -> (seq<char>, u16), record: seq<byte>)
      requires |record| == AddrSize(version)
      ensures Valid() && fresh(addr)
      ensures this.version == version && this.resolve == resolve
      ensures addr[..] == record
      ensures upToDate && (addrString, port) == resolve(record) && CacheConsistent()
    {
      this.version := version;
      this.resolve := resolve;
      addr := new byte[|record|](i requires 0 <= i < |record| => record[i]);
      upToDate := true;
      addrString, port := resolve(record).0, resolve(record).1;
    }

    /**
      `endpoint(string_view addr, uint16_t port, socket_type)`: the record comes
      from `resolve_hostname`; the cache is marked valid with the given text and
      port, without consulting `resolve`.
    */
    constructor FromHost(version: IpFamily, resolve: seq<byte> -> (seq<char>, u16),
                         lookup: (seq<char>, u16, SocketType) -> seq<byte>,
                         host: seq<char>, port: u16, connType: SocketType)
      requires |lookup(host, port, connType)| == AddrSize(version)
      ensures Valid() && fresh(addr)
      ensures this.version == version && this.resolve == resolve
      ensures addr[..] == lookup(host, port, connType)
      ensures upToDate && addrString == host && this.port == port
    {
      this.version := version;
      this.resolve := resolve;
      var record := lookup(host, port, connType);
      addr := new byte[|record|](i requires 0 <= i < |record| => record[i]);
      upToDate := true;
      addrString := host;
      this.port := port;
    }

    /**
      `endpoint(const std::array<uint8_t, 4|16>&, uint16_t)` and the C-array
      overload: zeroes the record, writes the port in network order, the IPv4
      family tag (for IPv6 too) and the address bytes, then calls `update()`.
    */
    constructor FromBytes(version: IpFamily, resolve: seq<byte> -> (seq<char>, u16),
                          bytes: seq<byte>, port: u16)
      requires |bytes| == AddrLen(version)
      ensures Valid() && fresh(addr)
      ensures this.version == version && this.resolve == resolve
      ensures addr[..] == BytesRecord(version, bytes, port)
      ensures GetAddrBytes() == bytes
      ensures NetworkToHost16(PortField(addr[..])) == port
      ensures FamilyField(addr[..]) == AF_INET
      ensures upToDate && (addrString, this.port) == resolve(addr[..]) && CacheConsistent()
    {
      this.version := version;
      this.resolve := resolve;
      addr := new byte[AddrSize(version)](_ => 0);
      upToDate := false;
      addrString := [];
      this.port := 0;
      new;
      var p := HostToNetwork16(port);
      addr[PortAt], addr[PortAt + 1] := p[0], p[1];
      var f := HostOrder16(V4.Native());
      addr[FamilyAt], addr[FamilyAt + 1] := f[0], f[1];
      CopyN(bytes, addr, AddrOffset(version));
      assert forall k | 0 <= k < addr.Length :: addr[..][k] == BytesRecord(version, bytes, port)[k];
      BytesRecordRoundTrip(version, bytes, port);
      Update();
    }

    /**
      `update()`: refills the cache from the record only when it is stale.
      A second call changes nothing.
    */
    method Update()
      requires Valid()
      modifies this
      ensures Valid() && upToDate && CacheConsistent() == (old(CacheConsistent()) || !old(upToDate))
      ensures old(upToDate) ==> addrString == old(addrString) && port == old(port)
      ensures !old(upToDate) ==> (addrString, port) == resolve(addr[..])
    {
      if !upToDate {
        addrString, port := resolve(addr[..]).0, resolve(addr[..]).1;
        upToDate := true;
      }
    }

    /** `get_addr_string()`: the cached text, refreshed first when stale. */
    method GetAddrString() returns (s: seq<char>)
      requires Valid()
      modifies this
      ensures Valid() && upToDate && s == addrString
      ensures s == if old(upToDate) then old(addrString) else resolve(addr[..]).0
      ensures old(upToDate) ==> port == old(port)
      ensures !old(upToDate) ==> port == resolve(addr[..]).1
    {
      Update();
      s := addrString;
    }

    /** `get_port()`: the cached port, refreshed first when stale. */
    method GetPort() returns (p: u16)
      requires Valid()
      modifies this
      ensures Valid() && upToDate && p == port
      ensures p == if old(upToDate) then old(port) else resolve(addr[..]).1
      ensures old(upToDate) ==> addrString == old(addrString)
      ensures !old(upToDate) ==> addrString == resolve(addr[..]).0
    {
      Update();
      p := port;
    }

    /** `get_addr_bytes()`: a copy of the address bytes of the record. */
    function GetAddrBytes(): (r: seq<byte>)
      requires Valid()
      reads this, addr
      ensures |r| == AddrLen(version)
      ensures forall i | 0 <= i < |r| :: r[i] == addr[AddrOffset(version) + i]
    {
      addr[AddrOffset(version)..AddrOffset(version) + AddrLen(version)]
    }

    /**
      `get_addr() const`: a read-only view of the record, so the cache needs
      no invalidation; nothing changes.
    */
    method GetAddrConst() returns (r: seq<byte>)
      requires Valid()
      ensures |r| == AddrSize(version) && r == addr[..]
    {
      r := addr[..];
    }

    /**
      `get_addr()`: the record itself, writable by the caller, so the cache is
      marked stale unconditionally; the record and the cached values stay as
      they were, and a cache that is stale is trivially consistent with any
      later write through `r`.
    */
    method GetAddr() returns (r: array<byte>)
      modifies this
      ensures r == addr && !upToDate && CacheConsistent()
      ensures addr[..] == old(addr[..])
      ensures addrString == old(addrString) && port == old(port)
    {
      upToDate := false;
      r := addr;
    }

    /** `is_valid_addr_size(s)`: only the exact record size is valid. */
    function IsValidAddrSize(s: nat): (r: bool)
      requires Valid()
      reads this
      ensures r <==> s == addr.Length
    {
      s == AddrSize(version)
    }
  }

  /**
    An IPv4 endpoint built from the bytes 127.0.0.1 and port 9999 reports
    port 9999 and the bytes it was given, provided the resolver reads the
    port field back in host order as the system's does.
  */
  method LoopbackExample(resolve: seq<byte> -> (seq<char>, u16)) returns (p: u16, bytes: seq<byte>)
    requires forall r: seq<byte> | |r| >= 4 :: resolve(r).1 == NetworkToHost16(PortField(r))
    ensures p == 9999 && bytes == [127, 0, 0, 1]
  {
    var e := new IpEndpoint.FromBytes(V4, resolve, [127, 0, 0, 1], 9999);
    p := e.GetPort();
    bytes := e.GetAddrBytes();
  }

  /** The bytes of `buf` before its first NUL, or all of `buf` when it holds none. */
  function CString(buf: seq<byte>): (s: seq<byte>)
    ensures |s| <= |buf| && s == buf[..|s|]
    ensures forall i | 0 <= i < |s| :: s[i] != 0
    ensures |s| < |buf| ==> buf[|s|] == 0
  {
    if buf == [] || buf[0] == 0 then [] else [buf[0]] + CString(buf[1..])
  }

  /**
    A NUL-free `path` copied to the front of `buf` reads back as `path`
    exactly when the byte after it is NUL.
  */
  lemma CStringOfCopiedPath(buf: seq<byte>, path: seq<byte>)
    requires |path| < |buf| && buf[..|path|] == path
    requires forall i | 0 <= i < |path| :: path[i] != 0
    ensures CString(buf) == path <==> buf[|path|] == 0
  {
  }

  datatype EndpointError = PathTooLong  // std::invalid_argument("path is too long")

  /** `endpoint<unixsock>`. */
  class UnixEndpoint {
    /** `m_addr`, the `sockaddr_un` record. */
    const addr: array<byte>

    ghost predicate Valid()
      reads this
    {
      addr.Length == SockaddrUnSize
    }

    /** `endpoint() = default`: the record is left indeterminate. */
    constructor Default()
      ensures Valid() && fresh(addr)
    {
      addr := new byte[SockaddrUnSize];
    }

    /** `endpoint(const sockaddr_un&)`: copies the record. */
    constructor FromSockaddr(record: seq<byte>)
      requires |record| == SockaddrUnSize
      ensures Valid() && fresh(addr) && addr[..] == record
    {
      addr := new byte[|record|](i requires 0 <= i < |record| => record[i]);
    }

    /**
      `endpoint(const char* path)`, with `path` the bytes before the string's
      terminator. Throws when `strlen(path) >= addr_str_len - 1`; otherwise sets
      the family to `AF_UNIX` and copies the path bytes, and nothing else, into
      an indeterminate `sun_path`: no terminator is written.
    */
    static method FromPath(path: seq<byte>) returns (r: Result<UnixEndpoint, EndpointError>)
      requires forall i | 0 <= i < |path| :: path[i] != 0
      ensures r.Failure? <==> |path| >= SunPathLen - 1
      ensures r.Failure? ==> r.error == PathTooLong
      ensures r.Success? ==> fresh(r.value) && fresh(r.value.addr) && r.value.Valid()
      ensures r.Success? ==> FamilyField(r.value.addr[..]) == AF_UNIX
      ensures r.Success? ==> r.value.GetAddrBytes()[..|path|] == path
      ensures r.Success? ==>
        (r.value.GetAddrString() == path <==> r.value.addr[SunPathAt + |path|] == 0)
    {
      if |path| >= SunPathLen - 1 {
        return Failure(PathTooLong);
      }
      var e := new UnixEndpoint.Default();
      var f := HostOrder16(AF_UNIX);
      e.addr[FamilyAt], e.addr[FamilyAt + 1] := f[0], f[1];
      CopyN(path, e.addr, SunPathAt);
      assert e.addr[FamilyAt..FamilyAt + 2] == f;
      HostOrderRoundTrip(AF_UNIX);
      assert e.GetAddrBytes()[..|path|] == path;
      CStringOfCopiedPath(e.GetAddrBytes(), path);
      return Success(e);
    }

    /**
      `get_addr_string()`: `sun_path` up to its first NUL. (When `sun_path`
      holds no NUL the C++ reads past the record; the model stops at its end.)
    */
    function GetAddrString(): (s: seq<byte>)
      requires Valid()
      reads this, addr
      ensures |s| <= SunPathLen && s == addr[SunPathAt..SunPathAt + |s|]
      ensures forall i | 0 <= i < |s| :: s[i] != 0
      ensures |s| < SunPathLen ==> addr[SunPathAt + |s|] == 0
    {
      CString(addr[SunPathAt..])
    }

    /** `get_addr_bytes()`: all `addr_str_len` bytes of `sun_path`. */
    function GetAddrBytes(): (r: seq<byte>)
      requires Valid()
      reads this, addr
      ensures |r| == SunPathLen
      ensures forall i | 0 <= i < SunPathLen :: r[i] == addr[SunPathAt + i]
    {
      addr[SunPathAt..]
    }

    /** `get_addr() const`: a read-only view of the record; nothing changes. */
    method GetAddrConst() returns (r: seq<byte>)
      requires Valid()
      ensures |r| == SockaddrUnSize && r == addr[..]
    {
      r := addr[..];
    }

    /** `get_addr()`: the record itself, writable; there is no cache to invalidate. */
    method GetAddr() returns (r: array<byte>)
      ensures r == addr
    {
      r := addr;
    }

    /** `is_valid_addr_size(s)`: any size up to the record size is valid. */
    function IsValidAddrSize(s: nat): (r: bool)
      requires Valid()
      reads this
      ensures r <==> s <= addr.Length
    {
      s <= SockaddrUnSize
    }
  }
}
