/**
  Shared vocabulary of the socket library: bytes, 16-bit words, the address
  family tags of `ip_version`, the socket types, and byte-order conversion.

  The enumerator values of `ip_version` and `socket_type` live in a header
  that is not part of this model; they are the Linux address-family and
  socket-type constants that `base_socket` hands straight to `::socket`.
*/
module Net {

  type byte = x: int | 0 <= x < 0x100
  type u16 = x: int | 0 <= x < 0x1_0000

  const AF_UNIX: u16 := 1
  const AF_INET: u16 := 2
  const AF_INET6: u16 := 10

  /** `ip_version`: which address family an endpoint or socket belongs to. */
  datatype IpVersion = V4 | V6 | UnixSock {
    /** The native family value `static_cast<uint8_t>(ip_version)` yields. */
    function Native(): (f: u16)
      ensures f in {AF_INET, AF_INET6, AF_UNIX}
    {
      match this
      case V4 => AF_INET
      case V6 => AF_INET6
      case UnixSock => AF_UNIX
    }
  }

  /** `socket_type`: stream (`SOCK_STREAM`), datagram (`SOCK_DGRAM`) or unspecified. */
  datatype SocketType = Unspecified | Tcp | Udp {
    /** The native type value `static_cast<uint8_t>(socket_type)` yields. */
    function Native(): (t: int)
      ensures 0 <= t <= 2
    {
      match this
      case Unspecified => 0
      case Tcp => 1
      case Udp => 2
    }
  }

  /** `host_to_network<uint16_t>`: the two bytes of `v`, most significant first. */
  function HostToNetwork16(v: u16): (b: seq<byte>)
    ensures |b| == 2
  {
    [v / 0x100, v % 0x100]
  }

  /** `network_to_host<uint16_t>`: reads a big-endian 16-bit word. */
  function NetworkToHost16(b: seq<byte>): (v: u16)
    requires |b| == 2
  {
    (b[0] as int) * 0x100 + b[1]
  }

  /**
    A 16-bit field written in host byte order. The model fixes a
    little-endian host (x86-64, AArch64 Linux): least significant byte first.
  */
  function HostOrder16(v: u16): (b: seq<byte>)
    ensures |b| == 2
  {
    [v % 0x100, v / 0x100]
  }

  /** Reads a 16-bit field stored in host (little-endian) order. */
  function ReadHostOrder16(b: seq<byte>): (v: u16)
    requires |b| == 2
  {
    (b[1] as int) * 0x100 + b[0]
  }

  /** A port written by `host_to_network` reads back as the same port. */
  lemma NetworkOrderRoundTrip(port: u16)
    ensures NetworkToHost16(HostToNetwork16(port)) == port
  {
  }

  /** Every two-byte network-order field is the encoding of exactly one port. */
  lemma NetworkOrderInjective(b: seq<byte>)
    requires |b| == 2
    ensures HostToNetwork16(NetworkToHost16(b)) == b
  {
  }

  /** Host order and network order differ: a port is stored byte-swapped on this host. */
  lemma NetworkOrderIsSwappedHostOrder(port: u16)
    ensures HostToNetwork16(port) == [HostOrder16(port)[1], HostOrder16(port)[0]]
    ensures ReadHostOrder16(HostToNetwork16(port)) == (port % 0x100) * 0x100 + port / 0x100
  {
  }

  /** A family field written in host order reads back unchanged. */
  lemma HostOrderRoundTrip(v: u16)
    ensures ReadHostOrder16(HostOrder16(v)) == v
  {
  }
}
