/** Header layout shared by the two filter programs: the bounds-checked walk over
    an Ethernet II header and an option-less IPv4 header (section 3.1 of RFC 791),
    and how four address bytes read from memory become a 32-bit map key. */
module Packet {
  import opened Wrappers

  /** An octet, and a 32-bit unsigned value (__u8, __u32). */
  newtype u8 = x: int | 0 <= x < 0x100
  newtype u32 = x: int | 0 <= x < 0x1_0000_0000

  /** sizeof(struct ethhdr). */
  const ETH_HLEN: nat := 14
  /** sizeof(struct iphdr): the 20-byte IPv4 header without options. */
  const IP_HLEN: nat := 20
  /** Offset of h_proto in the Ethernet header. */
  const ETH_PROTO_OFFSET: nat := 12
  /** ETH_P_IP, the EtherType of IPv4, as it appears on the wire (big-endian). */
  const ETH_P_IP: int := 0x0800
  /** Offsets of saddr and daddr inside the IPv4 header. */
  const IP_SADDR_OFFSET: nat := 12
  const IP_DADDR_OFFSET: nat := 16

  /** Why a frame is not classified: the three early exits of both programs. */
  datatype ParseError = TooShortForEthernet | NotIPv4 | TooShortForIPv4

  /** The two address fields the programs read, as 32-bit keys. */
  datatype Addresses = Addresses(saddr: u32, daddr: u32)

  /** The 16-bit field at offset i in network byte order. */
  function Load16BE(pkt: seq<u8>, i: nat): int
    requires i + 2 <= |pkt|
  {
    pkt[i] as int * 0x100 + pkt[i + 1] as int
  }

  /** A 32-bit load of four consecutive bytes, as the programs and the control
      plane perform it on their little-endian host: the first byte in memory is
      the least significant. Both sides load the same network-order memory image,
      so the key of an address is the same on both sides. */
  function Load32(b0: u8, b1: u8, b2: u8, b3: u8): u32
  {
    (b0 as int + 0x100 * b1 as int + 0x1_0000 * b2 as int + 0x100_0000 * b3 as int) as u32
  }

  /** The memory image of a 32-bit key: its four bytes in memory order. */
  function Bytes(x: u32): (b: seq<u8>)
    ensures |b| == 4
  {
    var q1 := x as int / 0x100;
    var q2 := q1 / 0x100;
    var q3 := q2 / 0x100;
    [(x as int % 0x100) as u8, (q1 % 0x100) as u8, (q2 % 0x100) as u8, q3 as u8]
  }

  lemma SplitOctet(v: int, q: int, r: int)
    requires v == r + 0x100 * q && 0 <= r < 0x100
    ensures v % 0x100 == r && v / 0x100 == q
  {
  }

  /** Storing and loading a key are inverse: a key is exactly its four bytes. */
  lemma LoadBytes(x: u32)
    ensures Load32(Bytes(x)[0], Bytes(x)[1], Bytes(x)[2], Bytes(x)[3]) == x
  {
  }

  lemma BytesLoad(b0: u8, b1: u8, b2: u8, b3: u8)
    ensures Bytes(Load32(b0, b1, b2, b3)) == [b0, b1, b2, b3]
  {
    var v := Load32(b0, b1, b2, b3) as int;
    var q2 := b2 as int + 0x100 * b3 as int;
    var q1 := b1 as int + 0x100 * q2;
    SplitOctet(v, q1, b0 as int);
    SplitOctet(q1, q2, b1 as int);
    SplitOctet(q2, b3 as int, b2 as int);
  }

  /** Two addresses have the same key exactly when their four bytes agree. */
  lemma Load32Injective(a0: u8, a1: u8, a2: u8, a3: u8, b0: u8, b1: u8, b2: u8, b3: u8)
    ensures Load32(a0, a1, a2, a3) == Load32(b0, b1, b2, b3) <==> [a0, a1, a2, a3] == [b0, b1, b2, b3]
  {
    BytesLoad(a0, a1, a2, a3);
    BytesLoad(b0, b1, b2, b3);
  }

  /** The 32-bit field at offset i of the packet. */
  function Field32(pkt: seq<u8>, i: nat): u32
    requires i + 4 <= |pkt|
  {
    Load32(pkt[i], pkt[i + 1], pkt[i + 2], pkt[i + 3])
  }

  /** A frame both programs classify: long enough for both headers, EtherType IPv4. */
  predicate IsIPv4Frame(pkt: seq<u8>)
  {
    |pkt| >= 34 && pkt[12] == 0x08 && pkt[13] == 0x00
  }

  /** Source address of a classified frame: bytes 26..30 of the frame. */
  function SourceKey(pkt: seq<u8>): u32
    requires |pkt| >= 34
  {
    Load32(pkt[26], pkt[27], pkt[28], pkt[29])
  }

  /** Destination address of a classified frame: bytes 30..34 of the frame. */
  function DestinationKey(pkt: seq<u8>): u32
    requires |pkt| >= 34
  {
    Load32(pkt[30], pkt[31], pkt[32], pkt[33])
  }

  /** The chain of bounds checks both programs run before touching the IPv4
      header: Ethernet header present, EtherType IPv4, IPv4 header present.
      The contract states the outcome on the raw frame bytes. */
  function ParseIPv4(pkt: seq<u8>): (r: Result<Addresses, ParseError>)
    ensures r == Failure(TooShortForEthernet) <==> |pkt| < 14
    ensures r == Failure(NotIPv4) <==> |pkt| >= 14 && (pkt[12] != 0x08 || pkt[13] != 0x00)
    ensures r == Failure(TooShortForIPv4) <==> |pkt| >= 14 && pkt[12] == 0x08 && pkt[13] == 0x00 && |pkt| < 34
    ensures r.Success? <==> IsIPv4Frame(pkt)
    ensures r.Success? ==> r.value.saddr == SourceKey(pkt) && r.value.daddr == DestinationKey(pkt)
  {
    if |pkt| < ETH_HLEN then
      Failure(TooShortForEthernet)
    else if Load16BE(pkt, ETH_PROTO_OFFSET) != ETH_P_IP then
      Failure(NotIPv4)
    else if |pkt| < ETH_HLEN + IP_HLEN then
      Failure(TooShortForIPv4)
    else
      Success(Addresses(Field32(pkt, ETH_HLEN + IP_SADDR_OFFSET), Field32(pkt, ETH_HLEN + IP_DADDR_OFFSET)))
  }
}
