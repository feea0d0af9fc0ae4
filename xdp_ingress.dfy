/** xdp_ingress_func: the ingress classifier. A straight-line walk over the
    frame's headers followed by one read-only probe of whitelist_map. Frames it
    cannot classify are let through (fail-open). */
module XdpIngress {
  import opened Wrappers
  import opened Packet

  /** The two verdicts the program returns (XDP_DROP = 1, XDP_PASS = 2). */
  datatype XdpAction = XdpDrop | XdpPass

  /** The verdict for a frame, given the whitelist map's contents. The map is a
      value here: the program only reads it. */
  function Verdict(pkt: seq<u8>, whitelist: map<u32, u8>): (r: XdpAction)
    ensures |pkt| < 14 ==> r == XdpPass
    ensures |pkt| >= 14 && (pkt[12] != 0x08 || pkt[13] != 0x00) ==> r == XdpPass
    ensures |pkt| >= 14 && pkt[12] == 0x08 && pkt[13] == 0x00 && |pkt| < 34 ==> r == XdpPass
    ensures |pkt| >= 34 && pkt[12] == 0x08 && pkt[13] == 0x00 ==>
      var src := Load32(pkt[26], pkt[27], pkt[28], pkt[29]);
      (r == XdpPass <==> src in whitelist && whitelist[src] != 0)
    ensures r == XdpDrop ==> IsIPv4Frame(pkt) && SourceKey(pkt) in whitelist ==> whitelist[SourceKey(pkt)] == 0
  {
    match ParseIPv4(pkt)
    case Failure(_) => XdpPass
    case Success(addrs) =>
      if addrs.saddr in whitelist && whitelist[addrs.saddr] != 0 then XdpPass else XdpDrop
  }
}
