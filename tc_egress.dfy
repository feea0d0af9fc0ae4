/** tc_egress_func: the egress hook. It never filters; for every IPv4 frame it
    sends it records the destination in whitelist_map, so that the reply
    traffic passes the ingress classifier ("auto-learn"). */
module TcEgress {
  import opened Wrappers
  import opened Packet
  import opened BpfMap
  import XdpIngress

  /** TC_ACT_OK: hand the packet on unchanged. */
  const TC_ACT_OK: int := 0

  /** Every entry carries a non-zero flag: what the egress hook and the control
      plane write (both store 1). */
  ghost predicate AllAllowed(whitelist: map<u32, u8>)
  {
    forall a :: a in whitelist ==> whitelist[a] != 0
  }

  /** The whitelist after the egress hook has seen pkt, in a map of capacity
      maxEntries. A failed insert (full map) leaves it as it was. */
  function Learned(pkt: seq<u8>, whitelist: map<u32, u8>, maxEntries: nat): (r: map<u32, u8>)
    ensures !IsIPv4Frame(pkt) ==> r == whitelist
    ensures forall a :: a in whitelist ==> a in r && r[a] == whitelist[a]
    ensures forall a :: a in r && a !in whitelist ==> IsIPv4Frame(pkt) && a == DestinationKey(pkt) && r[a] == 1
    ensures IsIPv4Frame(pkt) && DestinationKey(pkt) !in whitelist && |whitelist| < maxEntries ==>
      DestinationKey(pkt) in r
    ensures IsIPv4Frame(pkt) && DestinationKey(pkt) !in whitelist && |whitelist| >= maxEntries ==> r == whitelist
    ensures AllAllowed(whitelist) ==> AllAllowed(r)
  {
    match ParseIPv4(pkt)
    case Failure(_) => whitelist
    case Success(addrs) =>
      if addrs.daddr in whitelist || |whitelist| >= maxEntries then whitelist
      else
        var r := whitelist[addrs.daddr := 1];
        assert forall a :: a in r <==> a in whitelist || a == addrs.daddr;
        r
  }

  /** The hook itself, updating the shared map in place. Its verdict is
      TC_ACT_OK on every path, including a failed insert. */
  method Egress(m: HashMap, pkt: seq<u8>) returns (act: int)
    requires m.Valid()
    modifies m
    ensures m.Valid()
    ensures act == TC_ACT_OK
    ensures m.entries == Learned(pkt, old(m.entries), m.maxEntries)
  {
    var parsed := ParseIPv4(pkt);
    if parsed.Failure? {
      return TC_ACT_OK;
    }
    var dst := parsed.value.daddr;
    if dst !in m.entries {
      var _ := m.Update(dst, 1);
    }
    return TC_ACT_OK;
  }

  /** Auto-learn: once the host has sent a frame to D and D is recorded, a frame
      arriving from D passes ingress. Recording succeeds when the map has room or
      already knows D, and a D already in the map has a non-zero flag. */
  lemma ReplyPasses(out: seq<u8>, reply: seq<u8>, whitelist: map<u32, u8>, maxEntries: nat)
    requires IsIPv4Frame(out) && IsIPv4Frame(reply)
    requires SourceKey(reply) == DestinationKey(out)
    requires DestinationKey(out) in whitelist ==> whitelist[DestinationKey(out)] != 0
    requires DestinationKey(out) in whitelist || |whitelist| < maxEntries
    ensures XdpIngress.Verdict(reply, Learned(out, whitelist, maxEntries)) == XdpIngress.XdpPass
  {
  }

  /** Without the non-zero invariant auto-learn can fail: a destination already
      present with flag 0 stays 0, and its replies are dropped. */
  lemma ZeroFlagStaysDropped(out: seq<u8>, reply: seq<u8>, whitelist: map<u32, u8>, maxEntries: nat)
    requires IsIPv4Frame(out) && IsIPv4Frame(reply)
    requires SourceKey(reply) == DestinationKey(out)
    requires DestinationKey(out) in whitelist && whitelist[DestinationKey(out)] == 0
    ensures XdpIngress.Verdict(reply, Learned(out, whitelist, maxEntries)) == XdpIngress.XdpDrop
  {
  }
}
