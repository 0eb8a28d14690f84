/** Decoding of the ICMP header that follows the IPv4 header of a received
    datagram (RFC 792, section "Message Formats"; RFC 791, section 3.1). */
module Icmp {

  /** One octet of a received datagram. */
  type Byte = b: int | 0 <= b < 256

  /** Length of an IPv4 header without options (IHL = 5 words). The decoder
      assumes this length and never reads the IHL field. */
  const IpHeaderLength: nat := 20

  /** Length of the slice unpacked with the format 'bbHHh':
      type, code, checksum, identifier, sequence number. */
  const IcmpHeaderLength: nat := 8

  /** A received datagram long enough for the fixed-offset slice to unpack. */
  type Datagram = d: seq<Byte> | |d| >= IpHeaderLength + IcmpHeaderLength
    witness seq(28, i => 0)

  /** ICMP type 11, time exceeded (RFC 792), sent by a router that dropped the probe. */
  const TimeExceeded: Byte := 11
  /** ICMP type 3, destination unreachable (RFC 792). */
  const DestinationUnreachable: Byte := 3
  /** Code 0 of type 11: time to live exceeded in transit. */
  const TtlExceededInTransit: Byte := 0
  /** Code 3 of type 3: port unreachable, sent by the destination host itself. */
  const PortUnreachable: Byte := 3

  /** The value the struct format character 'b' yields for an octet:
      the octet read as a two's-complement signed 8-bit integer. */
  function Int8(b: Byte): (v: int)
    ensures -128 <= v < 128
    ensures (v - b) % 256 == 0
    ensures b < 128 ==> v == b
    ensures b >= 128 ==> v < 0
  {
    if b < 128 then b else b - 256
  }

  /** The octet that packing a signed 8-bit value with 'b' produces. */
  function Octet(v: int): (b: Byte)
    requires -128 <= v < 128
    ensures (v - b) % 256 == 0
    ensures v >= 0 ==> b == v
  {
    if v < 0 then v + 256 else v
  }

  /** Reading an octet as signed and packing it again gives the octet back,
      and a signed value survives packing and reading. */
  lemma Int8RoundTrip(b: Byte, v: int)
    requires -128 <= v < 128
    ensures Octet(Int8(b)) == b
    ensures Int8(Octet(v)) == v
  {
  }

  /** Int8 is the only reading of an octet within the signed 8-bit range that
      agrees with it modulo 256, so the decoded value is determined by the octet. */
  lemma Int8Unique(b: Byte, v: int)
    requires -128 <= v < 128
    requires (v - b) % 256 == 0
    ensures v == Int8(b)
  {
    if b < 128 {
      assert -256 < v - b < 256;
    } else {
      assert -384 < v - b < 0;
    }
  }

  /** Type and code of an ICMP message as the probe reads them. */
  datatype TypeCode = TypeCode(pktType: int, pktCode: int)

  /** The first two fields of `struct.unpack('bbHHh', data[20:28])`:
      bytes 20 and 21 of the datagram, each read as a signed octet. */
  function Unpack(d: Datagram): (tc: TypeCode)
    ensures -128 <= tc.pktType < 128 && -128 <= tc.pktCode < 128
    ensures Octet(tc.pktType) == d[IpHeaderLength]
    ensures Octet(tc.pktCode) == d[IpHeaderLength + 1]
  {
    TypeCode(Int8(d[IpHeaderLength]), Int8(d[IpHeaderLength + 1]))
  }

  /** A datagram carrying an ICMP message with the given type and code octets
      behind an option-less IPv4 header. */
  function Encapsulate(ip: seq<Byte>, t: Byte, c: Byte, rest: seq<Byte>): (d: Datagram)
    requires |ip| == IpHeaderLength
    requires |rest| >= IcmpHeaderLength - 2
    ensures |d| == |ip| + 2 + |rest|
    ensures d[..IpHeaderLength] == ip
  {
    ip + [t, c] + rest
  }

  /** Decoding a datagram built from an option-less IPv4 header and an ICMP
      message yields that message's type and code, read as signed octets. */
  lemma UnpackEncapsulate(ip: seq<Byte>, t: Byte, c: Byte, rest: seq<Byte>)
    requires |ip| == IpHeaderLength
    requires |rest| >= IcmpHeaderLength - 2
    ensures Unpack(Encapsulate(ip, t, c, rest)) == TypeCode(Int8(t), Int8(c))
  {
    var d := Encapsulate(ip, t, c, rest);
    assert d[IpHeaderLength] == t;
    assert d[IpHeaderLength + 1] == c;
  }

  /** A type or code octet of 128 or more is reported as a negative number,
      although RFC 792 defines both fields as unsigned octets. */
  lemma HighOctetDecodesNegative(ip: seq<Byte>, t: Byte, c: Byte, rest: seq<Byte>)
    requires |ip| == IpHeaderLength
    requires |rest| >= IcmpHeaderLength - 2
    ensures t >= 128 <==> Unpack(Encapsulate(ip, t, c, rest)).pktType < 0
    ensures c >= 128 <==> Unpack(Encapsulate(ip, t, c, rest)).pktCode < 0
    ensures t < 128 ==> Unpack(Encapsulate(ip, t, c, rest)).pktType == t
    ensures c < 128 ==> Unpack(Encapsulate(ip, t, c, rest)).pktCode == c
  {
    UnpackEncapsulate(ip, t, c, rest);
  }
}
