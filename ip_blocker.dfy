/** The native control plane: the static globals of the shared library and the
    operations that move them, over the abstract kernel of module Libbpf.
    Members named ...AsWritten follow the code line by line, including the
    defects listed under Findings in the README; the members without that
    suffix are the corrected definitions the rest of the model uses. */
module IpBlocker {
  import opened Wrappers
  import opened Packet
  import opened BpfMap
  import opened Libbpf
  import Inet
  import XdpIngress

  /** The key is the last one bpf_map_get_next_key hands out. */
  predicate ZeroIsLast(order: seq<u32>)
  {
    |order| > 0 && order[|order| - 1] == 0
  }

  /** clear_map as written: iteration starts from key 0 rather than from
      NULL, and key 0 is deleted once more at the end. When 0.0.0.0 is in the
      map and comes last in iteration order, the first get_next_key already
      reports the end, and only key 0 is removed. */
  method ClearMapAsWritten(m: HashMap, fd: int)
    requires m.Valid()
    modifies m
    ensures m.Valid()
    ensures fd < 0 ==> unchanged(m)
    ensures fd >= 0 && ZeroIsLast(old(m.order)) ==> m.entries == old(m.entries) - {0}
    ensures fd >= 0 && !ZeroIsLast(old(m.order)) ==> m.entries == map[]
    ensures fd >= 0 ==> m.entries == ClearedAsWritten(old(m.entries), old(m.order))
  {
    if fd < 0 {
      return;
    }
    var key: u32 := 0;
    var next := m.GetNextKey(Some(key));
    while next.Some?
      invariant m.Valid()
      invariant next.Some? ==> next.value in m.entries && !ZeroIsLast(old(m.order))
      invariant ZeroIsLast(old(m.order)) ==> m.entries == old(m.entries)
      invariant next.None? && m.entries != map[] ==> ZeroIsLast(old(m.order))
      decreases |m.order|
    {
      var err := m.Delete(next.value);
      key := next.value;
      next := m.GetNextKey(Some(key));
    }
    key := 0;
    var err := m.Delete(key);
  }

  /** clear_map, corrected: every round asks for the first key (a NULL
      previous key) and deletes it, until the map reports no key at all. */
  method ClearMap(m: HashMap, fd: int)
    requires m.Valid()
    modifies m
    ensures m.Valid()
    ensures fd < 0 ==> unchanged(m)
    ensures fd >= 0 ==> m.entries == map[]
  {
    if fd < 0 {
      return;
    }
    var next := m.GetNextKey(None);
    while next.Some?
      invariant m.Valid()
      invariant next.Some? ==> next.value in m.entries
      invariant next.None? ==> m.entries == map[]
      decreases |m.order|
    {
      var err := m.Delete(next.value);
      next := m.GetNextKey(None);
    }
  }

  /** The map clear_map leaves behind as written: everything but key 0 when
      key 0 is last in iteration order, nothing otherwise. */
  function ClearedAsWritten(entries: map<u32, u8>, order: seq<u32>): (r: map<u32, u8>)
    ensures r == map[] || (ZeroIsLast(order) && r == entries - {0})
  {
    if ZeroIsLast(order) then entries - {0} else map[]
  }

  /** Whitelisting 0.0.0.0 beside another address A can leave A whitelisted
      after a clear: with iteration order [A, 0], clear_map as written deletes
      only key 0, and frames from A keep passing the ingress classifier. */
  lemma ClearAsWrittenKeepsAddress(pkt: seq<u8>)
    requires IsIPv4Frame(pkt) && SourceKey(pkt) != 0
    ensures var a := SourceKey(pkt);
      var entries := map[a := 1, 0 := 1];
      && IsOrderOf([a, 0], entries)
      && ClearedAsWritten(entries, [a, 0]) == map[a := 1]
      && XdpIngress.Verdict(pkt, ClearedAsWritten(entries, [a, 0])) == XdpIngress.XdpPass
  {
    var a := SourceKey(pkt);
    var entries := map[a := 1, 0 := 1];
    assert entries - {0} == map[a := 1];
  }

  /** The object handles an optional bpf_object reference holds. */
  function Handles(obj: Option<nat>): (hs: set<nat>)
    ensures obj.None? <==> hs == {}
    ensures forall h :: h in hs ==> obj == Some(h)
  {
    if obj.Some? then {obj.value} else {}
  }

  /** The three path arguments of blackhole_init, each possibly NULL (None). */
  predicate ArgsPresent(ifname: Option<string>, tcPath: Option<string>, xdpPath: Option<string>)
  {
    ifname.Some? && tcPath.Some? && xdpPath.Some?
  }

  /** Init as written fails in lines 180-236: one of the calls there fails,
      or bpf_tc_attach refuses tc_opts because they still carry the prog_id
      of an earlier attach (no error exit of init clears it). */
  predicate AttachFails(fault: Option<Step>, staleProgId: bool)
  {
    FailsInAttach(fault) || (staleProgId && !FailsBy(fault, CreateHook))
  }

  /** What add_to_whitelist stores is what the ingress classifier looks up:
      once the key parsed from the dotted quad "a.b.c.d" maps to 1, an IPv4
      frame whose source bytes are a, b, c, d passes. */
  lemma AddedAddressPasses(ts: seq<string>, pkt: seq<u8>, whitelist: map<u32, u8>)
    requires Inet.IsQuad(ts) && IsIPv4Frame(pkt)
    requires forall i :: 0 <= i < 4 ==> pkt[26 + i] == Inet.OctetValue(ts[i])
    requires Inet.InetPton4(Inet.Dotted(ts)).Some?
    requires var key := Inet.InetPton4(Inet.Dotted(ts)).value; key in whitelist && whitelist[key] == 1
    ensures XdpIngress.Verdict(pkt, whitelist) == XdpIngress.XdpPass
  {
    Inet.PtonOfDotted(ts);
    assert SourceKey(pkt) == Inet.QuadKey(ts) by {
      assert pkt[26 + 0] == pkt[26] && pkt[26 + 1] == pkt[27] && pkt[26 + 2] == pkt[28] && pkt[26 + 3] == pkt[29];
    }
  }

  /** The static globals of ip_blocker.cpp. tc_hook is represented by the
      interface index it names (0 after memset); of tc_opts only whether its
      prog_id is set is kept, since the descriptor it carries goes straight
      into the abstract attach call. */
  class ControlPlane {
    const k: Kernel
    var tcObj: Option<nat>
    var xdpObj: Option<nat>
    var ifindex: int
    var tcHookIfindex: int
    var mapFd: int
    var createdQdisc: bool
    /** tc_opts.prog_id != 0: a successful bpf_tc_attach wrote the filter's id back. */
    var tcProgId: bool
    var whitelistIps: seq<string>

    ghost predicate Valid()
      reads this, k, k.whitelist
    {
      && k.Valid() && k.whitelist.Valid()
      && (tcObj.Some? ==> tcObj.value < k.nextId)
      && (xdpObj.Some? ==> xdpObj.value < k.nextId)
      && (tcObj.Some? && xdpObj.Some? ==> tcObj.value != xdpObj.value)
    }

    /** Both tc_obj and xdp_obj, when set, refer to objects that are still open. */
    ghost predicate NoDangling()
      reads this, k
    {
      Handles(tcObj) <= k.live && Handles(xdpObj) <= k.live
    }

    /** The state the globals start in and cleanup_internal leaves: each of its
        guards (map_fd >= 0, ifindex > 0, tc_hook.ifindex > 0, non-null
        objects) is off. */
    predicate IsReset()
      reads this
    {
      && tcObj.None? && xdpObj.None?
      && ifindex <= 0 && mapFd < 0 && tcHookIfindex <= 0
      && !createdQdisc && !tcProgId && whitelistIps == []
    }

    constructor (k: Kernel)
      requires k.Valid() && k.whitelist.Valid()
      ensures this.k == k && Valid() && NoDangling() && IsReset()
      ensures ifindex == -1 && mapFd == -1 && tcHookIfindex == 0
    {
      this.k := k;
      tcObj := None;
      xdpObj := None;
      ifindex := -1;
      tcHookIfindex := 0;
      mapFd := -1;
      createdQdisc := false;
      tcProgId := false;
      whitelistIps := [];
    }

    /** add_to_whitelist: parse the dotted quad, upsert key -> 1 with BPF_ANY,
        and remember the string on success. */
    method AddToWhitelist(ip: string) returns (ret: int)
      requires Valid()
      modifies this`whitelistIps, k.whitelist
      ensures Valid()
      ensures ret == 0 || ret == -1
      ensures Inet.InetPton4(ip).None? ==>
        ret == -1 && unchanged(k.whitelist) && whitelistIps == old(whitelistIps)
      ensures Inet.InetPton4(ip).Some? ==>
        var key := Inet.InetPton4(ip).value;
        && (ret == 0 <==> key in old(k.whitelist.entries) || |old(k.whitelist.entries)| < k.whitelist.maxEntries)
        && (ret == 0 ==> k.whitelist.entries == old(k.whitelist.entries)[key := 1] && whitelistIps == old(whitelistIps) + [ip])
        && (ret != 0 ==> k.whitelist.entries == old(k.whitelist.entries) && whitelistIps == old(whitelistIps))
    {
      var addr := Inet.InetPton4(ip);
      if addr.None? {
        return -1;
      }
      var err := k.whitelist.Update(addr.value, 1);
      if err != 0 {
        return -1;
      }
      whitelistIps := whitelistIps + [ip];
      return 0;
    }

    /** blackhole_add_whitelist_ip: refused before init has found the map. */
    method AddWhitelistIp(ip: string) returns (ret: int)
      requires Valid()
      modifies this`whitelistIps, k.whitelist
      ensures Valid()
      ensures ret == 0 || ret == -1
      ensures mapFd < 0 ==> ret == -1 && unchanged(k.whitelist) && whitelistIps == old(whitelistIps)
      ensures mapFd >= 0 && ret == 0 ==>
        && Inet.InetPton4(ip).Some?
        && k.whitelist.entries == old(k.whitelist.entries)[Inet.InetPton4(ip).value := 1]
        && whitelistIps == old(whitelistIps) + [ip]
      ensures mapFd >= 0 && ret == -1 ==> k.whitelist.entries == old(k.whitelist.entries) && whitelistIps == old(whitelistIps)
      ensures mapFd >= 0 ==> (ret == 0 <==> (Inet.InetPton4(ip).Some? &&
        (Inet.InetPton4(ip).value in old(k.whitelist.entries) || |old(k.whitelist.entries)| < k.whitelist.maxEntries)))
    {
      if mapFd < 0 {
        return -1;
      }
      ret := AddToWhitelist(ip);
    }

    /** blackhole_clear_whitelist with the corrected clear_map: empties the map
        and the list of strings. */
    method ClearWhitelist() returns (ret: int)
      requires Valid()
      modifies this`whitelistIps, k.whitelist
      ensures Valid()
      ensures mapFd < 0 ==> ret == -1 && unchanged(k.whitelist) && whitelistIps == old(whitelistIps)
      ensures mapFd >= 0 ==> ret == 0 && k.whitelist.entries == map[] && whitelistIps == []
    {
      if mapFd < 0 {
        return -1;
      }
      ClearMap(k.whitelist, mapFd);
      whitelistIps := [];
      return 0;
    }

    /** cleanup_internal(false), which is blackhole_cleanup, with the corrected
        clear_map: clear the map, detach XDP, detach TC and destroy the hook
        only if this library created it, close and forget both objects, reset
        every global. */
    method Cleanup()
      requires Valid()
      modifies this, k, k.whitelist
      ensures Valid() && IsReset() && NoDangling()
      ensures ifindex == -1 && mapFd == -1 && tcHookIfindex == 0
      ensures old(mapFd) >= 0 ==> k.whitelist.entries == map[]
      ensures old(mapFd) < 0 ==> k.whitelist.entries == old(k.whitelist.entries)
      ensures k.xdpAttached == if old(ifindex) > 0 then old(k.xdpAttached) - {old(ifindex)} else old(k.xdpAttached)
      ensures k.tcAttached == if old(tcHookIfindex) > 0 then old(k.tcAttached) - {old(tcHookIfindex)} else old(k.tcAttached)
      ensures k.hooks == old(k.hooks)
      ensures k.foreignFilters == if old(tcHookIfindex) > 0 && old(createdQdisc) then old(k.foreignFilters) - {old(tcHookIfindex)} else old(k.foreignFilters)
      ensures k.live == old(k.live) - Handles(old(tcObj)) - Handles(old(xdpObj))
      ensures k.doubleClosed == (old(k.doubleClosed) || !old(NoDangling()))
      ensures k.nextId == old(k.nextId)
      ensures old(IsReset()) ==> unchanged(k, k.whitelist)
    {
      if mapFd >= 0 {
        ClearMap(k.whitelist, mapFd);
      }
      DetachPrograms();
      CloseObjects();
      ifindex := -1;
      mapFd := -1;
      createdQdisc := false;
      tcHookIfindex := 0;
      tcProgId := false;
      whitelistIps := [];
    }

    /** blackhole_clear_whitelist as written (lines 270-279): clear_map from
        key 0 leaves every other key when key 0 is last in iteration order. */
    method ClearWhitelistAsWritten() returns (ret: int)
      requires Valid()
      modifies this`whitelistIps, k.whitelist
      ensures Valid()
      ensures mapFd < 0 ==> ret == -1 && unchanged(k.whitelist) && whitelistIps == old(whitelistIps)
      ensures mapFd >= 0 ==> ret == 0 && whitelistIps == []
      ensures mapFd >= 0 ==> k.whitelist.entries == ClearedAsWritten(old(k.whitelist.entries), old(k.whitelist.order))
    {
      if mapFd < 0 {
        return -1;
      }
      ClearMapAsWritten(k.whitelist, mapFd);
      whitelistIps := [];
      return 0;
    }

    /** blackhole_cleanup as written (lines 41-93 and 265-268): the same steps
        as Cleanup, with clear_map from key 0. */
    method CleanupAsWritten()
      requires Valid()
      modifies this, k, k.whitelist
      ensures Valid() && IsReset() && NoDangling()
      ensures ifindex == -1 && mapFd == -1 && tcHookIfindex == 0
      ensures old(mapFd) >= 0 ==> k.whitelist.entries == ClearedAsWritten(old(k.whitelist.entries), old(k.whitelist.order))
      ensures old(mapFd) < 0 ==> k.whitelist.entries == old(k.whitelist.entries)
      ensures k.xdpAttached == if old(ifindex) > 0 then old(k.xdpAttached) - {old(ifindex)} else old(k.xdpAttached)
      ensures k.tcAttached == if old(tcHookIfindex) > 0 then old(k.tcAttached) - {old(tcHookIfindex)} else old(k.tcAttached)
      ensures k.hooks == old(k.hooks)
      ensures k.foreignFilters == if old(tcHookIfindex) > 0 && old(createdQdisc) then old(k.foreignFilters) - {old(tcHookIfindex)} else old(k.foreignFilters)
      ensures k.live == old(k.live) - Handles(old(tcObj)) - Handles(old(xdpObj))
      ensures k.doubleClosed == (old(k.doubleClosed) || !old(NoDangling()))
      ensures k.nextId == old(k.nextId)
      ensures old(IsReset()) ==> unchanged(k, k.whitelist)
    {
      if mapFd >= 0 {
        ClearMapAsWritten(k.whitelist, mapFd);
      }
      DetachPrograms();
      CloseObjects();
      ifindex := -1;
      mapFd := -1;
      createdQdisc := false;
      tcHookIfindex := 0;
      tcProgId := false;
      whitelistIps := [];
    }

    /** The detach half of cleanup_internal: XDP when ifindex > 0; the TC
        filter when tc_hook names an interface, and its hook only if this
        library created it. */
    method DetachPrograms()
      requires Valid()
      modifies k
      ensures Valid()
      ensures k.xdpAttached == if ifindex > 0 then old(k.xdpAttached) - {ifindex} else old(k.xdpAttached)
      ensures k.tcAttached == if tcHookIfindex > 0 then old(k.tcAttached) - {tcHookIfindex} else old(k.tcAttached)
      ensures k.hooks == old(k.hooks)
      ensures k.foreignFilters == if tcHookIfindex > 0 && createdQdisc then old(k.foreignFilters) - {tcHookIfindex} else old(k.foreignFilters)
      ensures k.live == old(k.live) && k.nextId == old(k.nextId) && k.doubleClosed == old(k.doubleClosed)
      ensures ifindex <= 0 && tcHookIfindex <= 0 ==> unchanged(k)
    {
      if ifindex > 0 {
        var ret := k.XdpDetachProg(ifindex);
      }
      if tcHookIfindex > 0 {
        var ret := k.TcDetachProg(tcHookIfindex);
        if createdQdisc {
          ret := k.TcHookDestroy(tcHookIfindex);
        }
      }
    }

    /** The close half of cleanup_internal: each non-null object is closed and
        the variable holding it set to NULL. */
    method CloseObjects()
      requires Valid()
      modifies this`tcObj, this`xdpObj, k
      ensures Valid() && tcObj.None? && xdpObj.None?
      ensures k.live == old(k.live) - Handles(old(tcObj)) - Handles(old(xdpObj))
      ensures k.doubleClosed == (old(k.doubleClosed) || !old(NoDangling()))
      ensures k.hooks == old(k.hooks) && k.tcAttached == old(k.tcAttached) && k.xdpAttached == old(k.xdpAttached)
      ensures k.foreignFilters == old(k.foreignFilters) && k.nextId == old(k.nextId)
      ensures old(tcObj).None? && old(xdpObj).None? ==> unchanged(k)
    {
      if tcObj.Some? {
        k.Close(tcObj.value);
        tcObj := None;
      }
      if xdpObj.Some? {
        k.Close(xdpObj.value);
        xdpObj := None;
      }
    }

    /** Lines 136-161 as written: open and load each object; an error exit
        closes what it opened but leaves tc_obj and xdp_obj set. */
    method LoadObjectsAsWritten(fault: Option<Step>) returns (ok: bool)
      requires Valid()
      modifies this`tcObj, this`xdpObj, k
      ensures Valid()
      ensures ok <==> !FailsBy(fault, LoadXdp)
      ensures fault == Some(OpenTc) ==> tcObj.None? && xdpObj == old(xdpObj) && unchanged(k)
      ensures fault == Some(LoadTc) ==> tcObj == Some(old(k.nextId)) && xdpObj == old(xdpObj)
      ensures fault == Some(OpenXdp) ==> tcObj == Some(old(k.nextId)) && xdpObj.None?
      ensures !FailsBy(fault, OpenXdp) ==> tcObj == Some(old(k.nextId)) && xdpObj == Some(old(k.nextId) + 1)
      ensures ok ==> k.live == old(k.live) + {old(k.nextId), old(k.nextId) + 1}
      ensures ok ==> k.trace == old(k.trace) + [OpenObject(old(k.nextId)), OpenObject(old(k.nextId) + 1)]
      ensures !ok ==> k.live == old(k.live)
      ensures k.hooks == old(k.hooks) && k.tcAttached == old(k.tcAttached) && k.xdpAttached == old(k.xdpAttached)
      ensures k.foreignFilters == old(k.foreignFilters) && k.doubleClosed == old(k.doubleClosed)
    {
      tcObj := k.Open(fault == Some(OpenTc));
      if tcObj.None? {
        return false;
      }
      if fault == Some(LoadTc) {
        k.Close(tcObj.value);
        return false;
      }
      xdpObj := k.Open(fault == Some(OpenXdp));
      if xdpObj.None? {
        k.Close(tcObj.value);
        return false;
      }
      if fault == Some(LoadXdp) {
        k.Close(tcObj.value);
        k.Close(xdpObj.value);
        return false;
      }
      return true;
    }

    /** Lines 163-177 as written: an existing hook (-EEXIST) is adopted with
        created_qdisc false; any other error closes both objects and keeps tc_obj and xdp_obj. */
    method CreateTcHookAsWritten(fault: Option<Step>) returns (ok: bool)
      requires Valid() && NoDangling()
      requires ifindex > 0 && tcObj.Some? && xdpObj.Some?
      modifies this`tcHookIfindex, this`createdQdisc, k
      ensures Valid()
      ensures tcHookIfindex == ifindex
      ensures ok <==> fault != Some(CreateHook)
      ensures ok ==> createdQdisc == (ifindex !in old(k.hooks)) && k.hooks == old(k.hooks) + {ifindex}
      ensures ok ==> k.live == old(k.live) && k.trace == old(k.trace) + [HookCreate(ifindex)]
      ensures !ok ==> createdQdisc == old(createdQdisc) && k.hooks == old(k.hooks)
      ensures !ok ==> k.live == old(k.live) - {tcObj.value, xdpObj.value}
      ensures k.tcAttached == old(k.tcAttached) && k.xdpAttached == old(k.xdpAttached) && k.foreignFilters == old(k.foreignFilters)
      ensures k.nextId == old(k.nextId) && k.doubleClosed == old(k.doubleClosed)
    {
      tcHookIfindex := ifindex;
      var ret := k.TcHookCreate(tcHookIfindex, fault == Some(CreateHook));
      if ret == 0 {
        createdQdisc := true;
      } else if ret == -EEXIST {
        createdQdisc := false;
      } else {
        k.Close(tcObj.value);
        k.Close(xdpObj.value);
        return false;
      }
      return true;
    }

    /** The error exit shared by lines 180-236 as written: destroy the hook
        (whoever created it), which flushes every egress filter on the
        interface, and close both objects, keeping tc_obj and xdp_obj. */
    method AbortAsWritten()
      requires Valid() && NoDangling() && tcObj.Some? && xdpObj.Some?
      modifies k
      ensures Valid()
      ensures k.hooks == old(k.hooks) && k.tcAttached == old(k.tcAttached) - {tcHookIfindex}
      ensures k.foreignFilters == old(k.foreignFilters) - {tcHookIfindex}
      ensures k.xdpAttached == old(k.xdpAttached)
      ensures k.live == old(k.live) - {tcObj.value, xdpObj.value}
      ensures k.nextId == old(k.nextId) && k.doubleClosed == old(k.doubleClosed)
    {
      var ret := k.TcHookDestroy(tcHookIfindex);
      k.Close(tcObj.value);
      k.Close(xdpObj.value);
    }

    /** Lines 180-236 as written: find and attach the TC program, then the XDP
        program; every error exit runs AbortAsWritten. */
    method AttachProgramsAsWritten(fault: Option<Step>) returns (ok: bool)
      requires Valid() && NoDangling() && !FailsBy(fault, CreateHook)
      requires ifindex > 0 && tcHookIfindex == ifindex && ifindex in k.hooks && tcObj.Some? && xdpObj.Some?
      modifies this`tcProgId, k
      ensures Valid()
      ensures ok <==> !AttachFails(fault, old(tcProgId))
      ensures tcProgId == (old(tcProgId) || !FailsBy(fault, AttachTc))
      ensures k.hooks == old(k.hooks)
      ensures ok ==> k.live == old(k.live) && k.foreignFilters == old(k.foreignFilters)
      ensures ok ==> k.tcAttached == old(k.tcAttached) + {ifindex} && k.xdpAttached == old(k.xdpAttached) + {ifindex}
      ensures ok ==> k.trace == old(k.trace) + [TcAttach(ifindex), XdpAttach(ifindex)]
      ensures !ok ==> k.tcAttached == old(k.tcAttached) - {ifindex} && k.foreignFilters == old(k.foreignFilters) - {ifindex}
      ensures !ok ==> k.xdpAttached == old(k.xdpAttached) && k.live == old(k.live) - {tcObj.value, xdpObj.value}
      ensures k.nextId == old(k.nextId) && k.doubleClosed == old(k.doubleClosed)
    {
      if fault == Some(FindTcProg) || fault == Some(TcProgFd) {
        AbortAsWritten();
        return false;
      }
      var ret := k.TcAttachProg(tcHookIfindex, fault == Some(AttachTc), tcProgId);
      if ret != 0 {
        AbortAsWritten();
        return false;
      }
      tcProgId := true;
      if fault == Some(FindXdpProg) || fault == Some(XdpProgFd) {
        AbortAsWritten();
        return false;
      }
      ret := k.XdpAttachProg(ifindex, fault == Some(AttachXdp));
      if ret != 0 {
        AbortAsWritten();
        return false;
      }
      return true;
    }

    /** Lines 136-236 as written, once ifindex names an interface. */
    method SetUpAsWritten(fault: Option<Step>) returns (ok: bool)
      requires Valid() && ifindex > 0
      modifies this`tcObj, this`xdpObj, this`tcHookIfindex, this`createdQdisc, this`tcProgId, k
      ensures Valid()
      ensures ok <==> !FailsBy(fault, AttachXdp) && !old(tcProgId)
      ensures tcProgId == (old(tcProgId) || !FailsBy(fault, AttachTc))
      ensures ok ==>
        var t := old(k.nextId);
        && tcHookIfindex == ifindex
        && tcObj == Some(t) && xdpObj == Some(t + 1) && NoDangling()
        && createdQdisc == (ifindex !in old(k.hooks))
        && k.hooks == old(k.hooks) + {ifindex}
        && k.tcAttached == old(k.tcAttached) + {ifindex} && k.xdpAttached == old(k.xdpAttached) + {ifindex}
        && k.live == old(k.live) + {t, t + 1}
        && k.trace == old(k.trace) + [OpenObject(t), OpenObject(t + 1), HookCreate(ifindex), TcAttach(ifindex), XdpAttach(ifindex)]
      ensures k.live == old(k.live) + (if ok then {old(k.nextId), old(k.nextId) + 1} else {})
      ensures k.doubleClosed == old(k.doubleClosed)
      ensures !AttachFails(fault, old(tcProgId)) ==> k.foreignFilters == old(k.foreignFilters)
      ensures FailsBy(fault, LoadXdp) ==>
        && k.hooks == old(k.hooks) && tcHookIfindex == old(tcHookIfindex) && createdQdisc == old(createdQdisc)
        && (fault != Some(OpenTc) ==> tcObj == Some(old(k.nextId)) && old(k.nextId) !in k.live)
        && (FailsBy(fault, LoadTc) ==> xdpObj == old(xdpObj))
      ensures fault == Some(CreateHook) ==>
        && tcHookIfindex == ifindex && createdQdisc == old(createdQdisc) && k.hooks == old(k.hooks)
        && tcObj == Some(old(k.nextId)) && xdpObj == Some(old(k.nextId) + 1)
      ensures AttachFails(fault, old(tcProgId)) ==>
        && tcHookIfindex == ifindex && createdQdisc == (ifindex !in old(k.hooks))
        && k.hooks == old(k.hooks) + {ifindex} && ifindex !in k.tcAttached
        && k.foreignFilters == old(k.foreignFilters) - {ifindex}
        && tcObj == Some(old(k.nextId)) && xdpObj == Some(old(k.nextId) + 1)
    {
      ok := LoadObjectsAsWritten(fault);
      if !ok {
        return;
      }
      ok := CreateTcHookAsWritten(fault);
      if !ok {
        return;
      }
      ok := AttachProgramsAsWritten(fault);
    }

    /** Lines 238-253: look up whitelist_map and its descriptor; either error
        exit runs blackhole_cleanup. */
    method FindWhitelistMap(fault: Option<Step>) returns (ok: bool)
      requires Valid() && NoDangling() && !FailsBy(fault, AttachXdp)
      modifies this, k, k.whitelist
      ensures Valid() && NoDangling()
      ensures ok <==> fault.None?
      ensures ok ==> mapFd == k.whitelistFd && mapFd >= 0 && unchanged(k, k.whitelist)
      ensures ok ==> tcObj == old(tcObj) && xdpObj == old(xdpObj) && ifindex == old(ifindex)
      ensures ok ==> tcHookIfindex == old(tcHookIfindex) && createdQdisc == old(createdQdisc) && whitelistIps == old(whitelistIps)
      ensures ok ==> tcProgId == old(tcProgId)
      ensures !ok ==> IsReset()
      ensures !ok ==> k.xdpAttached == if old(ifindex) > 0 then old(k.xdpAttached) - {old(ifindex)} else old(k.xdpAttached)
      ensures !ok ==> k.tcAttached == if old(tcHookIfindex) > 0 then old(k.tcAttached) - {old(tcHookIfindex)} else old(k.tcAttached)
      ensures k.hooks == old(k.hooks)
      ensures !ok ==> k.foreignFilters == if old(tcHookIfindex) > 0 && old(createdQdisc) then old(k.foreignFilters) - {old(tcHookIfindex)} else old(k.foreignFilters)
      ensures !ok ==> k.live == old(k.live) - Handles(old(tcObj)) - Handles(old(xdpObj))
      ensures old(mapFd) < 0 ==> k.whitelist.entries == old(k.whitelist.entries)
      ensures k.doubleClosed == old(k.doubleClosed)
    {
      if fault == Some(FindMap) {
        Cleanup();
        return false;
      }
      mapFd := if fault == Some(MapFd) then -EINVAL else k.whitelistFd;
      if mapFd < 0 {
        Cleanup();
        return false;
      }
      return true;
    }

    /** Lines 135-253 as written, once ifindex names an interface. */
    method RunAsWritten(fault: Option<Step>) returns (ret: int)
      requires Valid() && ifindex > 0
      modifies this, k, k.whitelist
      ensures Valid()
      ensures ret == 0 <==> fault.None? && !old(tcProgId)
      ensures ret != 0 ==> ret == -1
      ensures ret == 0 ==>
        var ifx := old(ifindex);
        var t := old(k.nextId);
        && ifindex == ifx && tcHookIfindex == ifx
        && tcObj == Some(t) && xdpObj == Some(t + 1) && NoDangling()
        && createdQdisc == (ifx !in old(k.hooks))
        && mapFd == k.whitelistFd && mapFd >= 0
        && k.hooks == old(k.hooks) + {ifx} && k.foreignFilters == old(k.foreignFilters)
        && k.tcAttached == old(k.tcAttached) + {ifx} && k.xdpAttached == old(k.xdpAttached) + {ifx}
        && k.live == old(k.live) + {t, t + 1}
        && k.trace == old(k.trace) + [OpenObject(t), OpenObject(t + 1), HookCreate(ifx), TcAttach(ifx), XdpAttach(ifx)]
        && whitelistIps == old(whitelistIps) && k.whitelist.entries == old(k.whitelist.entries)
        && tcProgId
      ensures k.doubleClosed == old(k.doubleClosed)
      // Error exits of lines 137-161: the object opened here is closed but stays referenced.
      ensures FailsBy(fault, LoadXdp) ==>
        && ifindex == old(ifindex) && k.hooks == old(k.hooks) && k.live == old(k.live)
        && k.foreignFilters == old(k.foreignFilters)
        && (fault != Some(OpenTc) ==> tcObj == Some(old(k.nextId)) && old(k.nextId) !in k.live)
        && (FailsBy(fault, LoadTc) ==> xdpObj == old(xdpObj))
      // Error exit of lines 173-176: both objects closed, both still referenced.
      ensures fault == Some(CreateHook) ==>
        && tcHookIfindex == old(ifindex) && k.hooks == old(k.hooks) && k.live == old(k.live)
        && k.foreignFilters == old(k.foreignFilters)
        && tcObj == Some(old(k.nextId)) && xdpObj == Some(old(k.nextId) + 1)
      // Error exits of lines 181-236: the hook is flushed even when it existed
      // before (created_qdisc false), which removes the filters of other
      // programs too; the qdisc stays, and both closed objects stay referenced.
      // tc_opts keeps the prog_id of a TC attach that succeeded.
      ensures AttachFails(fault, old(tcProgId)) ==>
        && tcProgId == (old(tcProgId) || !FailsBy(fault, AttachTc))
        && createdQdisc == (old(ifindex) !in old(k.hooks))
        && k.hooks == old(k.hooks) + {old(ifindex)} && old(ifindex) !in k.tcAttached
        && k.foreignFilters == old(k.foreignFilters) - {old(ifindex)}
        && k.live == old(k.live)
        && tcObj == Some(old(k.nextId)) && xdpObj == Some(old(k.nextId) + 1)
      // Error exits of lines 240-251 go through blackhole_cleanup.
      ensures !old(tcProgId) && (fault == Some(FindMap) || fault == Some(MapFd)) ==>
        IsReset() && NoDangling() && k.live == old(k.live)
    {
      var ok := SetUpAsWritten(fault);
      if !ok {
        return -1;
      }
      ok := FindWhitelistMap(fault);
      return if ok then 0 else -1;
    }

    /** blackhole_init as written (lines 123-254). */
    method InitAsWritten(ifname: Option<string>, tcPath: Option<string>, xdpPath: Option<string>, fault: Option<Step>)
      returns (ret: int)
      requires Valid()
      modifies this, k, k.whitelist
      ensures Valid()
      ensures ret == 0 || ret == -1
      ensures !ArgsPresent(ifname, tcPath, xdpPath) ==> ret == -1 && unchanged(this, k, k.whitelist)
      ensures ArgsPresent(ifname, tcPath, xdpPath) && ifname.value !in k.interfaces ==>
        && ret == -1 && ifindex == 0 && unchanged(k, k.whitelist)
        && tcObj == old(tcObj) && xdpObj == old(xdpObj) && mapFd == old(mapFd)
        && tcHookIfindex == old(tcHookIfindex) && createdQdisc == old(createdQdisc) && tcProgId == old(tcProgId)
      ensures ret == 0 <==> ArgsPresent(ifname, tcPath, xdpPath) && ifname.value in k.interfaces && fault.None? && !old(tcProgId)
      ensures ret == 0 ==>
        var ifx := k.interfaces[ifname.value];
        var t := old(k.nextId);
        && ifindex == ifx && tcHookIfindex == ifx
        && tcObj == Some(t) && xdpObj == Some(t + 1) && NoDangling()
        && createdQdisc == (ifx !in old(k.hooks))
        && mapFd == k.whitelistFd && mapFd >= 0
        && k.hooks == old(k.hooks) + {ifx} && k.foreignFilters == old(k.foreignFilters)
        && k.tcAttached == old(k.tcAttached) + {ifx} && k.xdpAttached == old(k.xdpAttached) + {ifx}
        && k.live == old(k.live) + {t, t + 1}
        && k.trace == old(k.trace) + [OpenObject(t), OpenObject(t + 1), HookCreate(ifx), TcAttach(ifx), XdpAttach(ifx)]
        && whitelistIps == old(whitelistIps) && k.whitelist.entries == old(k.whitelist.entries)
        && tcProgId
      ensures k.doubleClosed == old(k.doubleClosed)
      ensures ArgsPresent(ifname, tcPath, xdpPath) && ifname.value in k.interfaces && FailsBy(fault, LoadXdp) ==>
        && ifindex == k.interfaces[ifname.value]
        && k.hooks == old(k.hooks) && k.live == old(k.live) && k.foreignFilters == old(k.foreignFilters)
        && (fault != Some(OpenTc) ==> tcObj == Some(old(k.nextId)) && old(k.nextId) !in k.live)
      ensures ArgsPresent(ifname, tcPath, xdpPath) && ifname.value in k.interfaces && fault == Some(CreateHook) ==>
        && tcHookIfindex == k.interfaces[ifname.value]
        && k.hooks == old(k.hooks) && k.live == old(k.live) && k.foreignFilters == old(k.foreignFilters)
        && tcObj == Some(old(k.nextId)) && xdpObj == Some(old(k.nextId) + 1)
      ensures ArgsPresent(ifname, tcPath, xdpPath) && ifname.value in k.interfaces && AttachFails(fault, old(tcProgId)) ==>
        var ifx := k.interfaces[ifname.value];
        && tcProgId == (old(tcProgId) || !FailsBy(fault, AttachTc))
        && createdQdisc == (ifx !in old(k.hooks))
        && k.hooks == old(k.hooks) + {ifx} && ifx !in k.tcAttached
        && k.foreignFilters == old(k.foreignFilters) - {ifx}
        && tcObj == Some(old(k.nextId)) && xdpObj == Some(old(k.nextId) + 1)
    {
      if !ArgsPresent(ifname, tcPath, xdpPath) {
        return -1;
      }
      ifindex := k.IfNameToIndex(ifname.value);
      if ifindex == 0 {
        return -1;
      }
      ret := RunAsWritten(fault);
    }

    /** Lines 136-161, corrected: an error exit also clears each of tc_obj and xdp_obj whose
        object it closes. */
    method LoadObjects(fault: Option<Step>) returns (ok: bool)
      requires Valid()
      modifies this`tcObj, this`xdpObj, k
      ensures Valid()
      ensures ok <==> !FailsBy(fault, LoadXdp)
      ensures ok ==> tcObj == Some(old(k.nextId)) && xdpObj == Some(old(k.nextId) + 1)
      ensures ok ==> k.live == old(k.live) + {old(k.nextId), old(k.nextId) + 1}
      ensures ok ==> k.trace == old(k.trace) + [OpenObject(old(k.nextId)), OpenObject(old(k.nextId) + 1)]
      ensures !ok ==> tcObj.None? && k.live == old(k.live)
      ensures !ok ==> if FailsBy(fault, LoadTc) then xdpObj == old(xdpObj) else xdpObj.None?
      ensures k.hooks == old(k.hooks) && k.tcAttached == old(k.tcAttached) && k.xdpAttached == old(k.xdpAttached)
      ensures k.foreignFilters == old(k.foreignFilters) && k.doubleClosed == old(k.doubleClosed)
    {
      tcObj := k.Open(fault == Some(OpenTc));
      if tcObj.None? {
        return false;
      }
      if fault == Some(LoadTc) {
        k.Close(tcObj.value);
        tcObj := None;
        return false;
      }
      xdpObj := k.Open(fault == Some(OpenXdp));
      if xdpObj.None? {
        k.Close(tcObj.value);
        tcObj := None;
        return false;
      }
      if fault == Some(LoadXdp) {
        CloseObjects();
        return false;
      }
      return true;
    }

    /** Lines 163-177, corrected: the error exit clears tc_obj, xdp_obj and
        tc_hook as well. */
    method CreateTcHook(fault: Option<Step>) returns (ok: bool)
      requires Valid() && NoDangling()
      requires ifindex > 0 && tcObj.Some? && xdpObj.Some?
      modifies this`tcObj, this`xdpObj, this`tcHookIfindex, this`createdQdisc, k
      ensures Valid()
      ensures ok <==> fault != Some(CreateHook)
      ensures ok ==> tcHookIfindex == ifindex && tcObj == old(tcObj) && xdpObj == old(xdpObj)
      ensures ok ==> createdQdisc == (ifindex !in old(k.hooks)) && k.hooks == old(k.hooks) + {ifindex}
      ensures ok ==> k.live == old(k.live) && k.trace == old(k.trace) + [HookCreate(ifindex)]
      ensures !ok ==> tcHookIfindex == 0 && createdQdisc == old(createdQdisc) && k.hooks == old(k.hooks)
      ensures !ok ==> tcObj.None? && xdpObj.None? && k.live == old(k.live) - {old(tcObj).value, old(xdpObj).value}
      ensures k.tcAttached == old(k.tcAttached) && k.xdpAttached == old(k.xdpAttached) && k.foreignFilters == old(k.foreignFilters)
      ensures k.nextId == old(k.nextId) && k.doubleClosed == old(k.doubleClosed)
    {
      tcHookIfindex := ifindex;
      var ret := k.TcHookCreate(tcHookIfindex, fault == Some(CreateHook));
      if ret == 0 {
        createdQdisc := true;
      } else if ret == -EEXIST {
        createdQdisc := false;
      } else {
        CloseObjects();
        tcHookIfindex := 0;
        return false;
      }
      return true;
    }

    /** The error exit of lines 180-236, corrected: detach the TC filter if
        this call attached it, destroy (flush) the hook only if this call
        created it, close both objects and clear tc_obj, xdp_obj, tc_hook and
        tc_opts. */
    method Rollback(tcAttachedHere: bool)
      requires Valid() && NoDangling() && tcObj.Some? && xdpObj.Some? && tcHookIfindex > 0
      modifies this`tcObj, this`xdpObj, this`tcHookIfindex, this`createdQdisc, this`tcProgId, k
      ensures Valid() && NoDangling()
      ensures tcObj.None? && xdpObj.None? && tcHookIfindex == 0 && !createdQdisc && !tcProgId
      ensures k.hooks == old(k.hooks)
      ensures k.foreignFilters == if old(createdQdisc) then old(k.foreignFilters) - {old(tcHookIfindex)} else old(k.foreignFilters)
      ensures k.tcAttached == if tcAttachedHere || old(createdQdisc) then old(k.tcAttached) - {old(tcHookIfindex)} else old(k.tcAttached)
      ensures k.xdpAttached == old(k.xdpAttached)
      ensures k.live == old(k.live) - {old(tcObj).value, old(xdpObj).value}
      ensures k.nextId == old(k.nextId) && k.doubleClosed == old(k.doubleClosed)
    {
      var ret;
      if tcAttachedHere {
        ret := k.TcDetachProg(tcHookIfindex);
      }
      if createdQdisc {
        ret := k.TcHookDestroy(tcHookIfindex);
      }
      CloseObjects();
      tcHookIfindex := 0;
      createdQdisc := false;
      tcProgId := false;
    }

    /** Lines 180-236, corrected: tc_opts is set afresh (prog_id 0) before
        bpf_tc_attach, and every error exit runs Rollback. */
    method AttachPrograms(fault: Option<Step>) returns (ok: bool)
      requires Valid() && NoDangling() && !FailsBy(fault, CreateHook)
      requires ifindex > 0 && tcHookIfindex == ifindex && ifindex in k.hooks && tcObj.Some? && xdpObj.Some?
      modifies this`tcObj, this`xdpObj, this`tcHookIfindex, this`createdQdisc, this`tcProgId, k
      ensures Valid() && NoDangling()
      ensures ok <==> !FailsInAttach(fault)
      ensures tcProgId == ok
      ensures ok ==> tcObj == old(tcObj) && xdpObj == old(xdpObj) && tcHookIfindex == ifindex && createdQdisc == old(createdQdisc)
      ensures k.hooks == old(k.hooks)
      ensures ok ==> k.live == old(k.live) && k.foreignFilters == old(k.foreignFilters)
      ensures ok ==> k.tcAttached == old(k.tcAttached) + {ifindex} && k.xdpAttached == old(k.xdpAttached) + {ifindex}
      ensures ok ==> k.trace == old(k.trace) + [TcAttach(ifindex), XdpAttach(ifindex)]
      ensures !ok ==> tcObj.None? && xdpObj.None? && tcHookIfindex == 0 && !createdQdisc
      ensures !ok ==> k.foreignFilters == if old(createdQdisc) then old(k.foreignFilters) - {ifindex} else old(k.foreignFilters)
      ensures !ok ==> k.tcAttached <= old(k.tcAttached) && k.xdpAttached == old(k.xdpAttached)
      ensures !ok ==> k.live == old(k.live) - {old(tcObj).value, old(xdpObj).value}
      ensures k.nextId == old(k.nextId) && k.doubleClosed == old(k.doubleClosed)
    {
      if fault == Some(FindTcProg) || fault == Some(TcProgFd) {
        Rollback(false);
        return false;
      }
      tcProgId := false;
      var ret := k.TcAttachProg(tcHookIfindex, fault == Some(AttachTc), tcProgId);
      if ret != 0 {
        Rollback(false);
        return false;
      }
      tcProgId := true;
      if fault == Some(FindXdpProg) || fault == Some(XdpProgFd) {
        Rollback(true);
        return false;
      }
      ret := k.XdpAttachProg(ifindex, fault == Some(AttachXdp));
      if ret != 0 {
        Rollback(true);
        return false;
      }
      return true;
    }

    /** Lines 136-236, corrected: a failure leaves the attachments, the
        filters of other programs and the open objects as they were before the
        call; only a clsact qdisc this call created can remain. */
    method SetUp(fault: Option<Step>) returns (ok: bool)
      requires Valid() && ifindex > 0
      modifies this`tcObj, this`xdpObj, this`tcHookIfindex, this`createdQdisc, this`tcProgId, k
      ensures Valid()
      ensures ok <==> !FailsBy(fault, AttachXdp)
      ensures ok ==> tcProgId
      ensures !ok && !old(tcProgId) ==> !tcProgId
      ensures ok ==>
        var t := old(k.nextId);
        && tcHookIfindex == ifindex
        && tcObj == Some(t) && xdpObj == Some(t + 1) && NoDangling()
        && createdQdisc == (ifindex !in old(k.hooks))
        && k.hooks == old(k.hooks) + {ifindex}
        && k.tcAttached == old(k.tcAttached) + {ifindex} && k.xdpAttached == old(k.xdpAttached) + {ifindex}
        && k.live == old(k.live) + {t, t + 1}
        && k.trace == old(k.trace) + [OpenObject(t), OpenObject(t + 1), HookCreate(ifindex), TcAttach(ifindex), XdpAttach(ifindex)]
      ensures k.foreignFilters == old(k.foreignFilters)
      ensures !ok ==> old(k.hooks) <= k.hooks <= old(k.hooks) + {ifindex} && k.live == old(k.live)
      ensures !ok ==> k.tcAttached <= old(k.tcAttached) && k.xdpAttached == old(k.xdpAttached)
      ensures !ok ==> tcObj.None? && (xdpObj.None? || xdpObj == old(xdpObj))
      ensures !ok && old(tcHookIfindex) <= 0 ==> tcHookIfindex <= 0
      ensures !ok && !old(createdQdisc) ==> !createdQdisc
      ensures !ok && old(NoDangling()) ==> NoDangling()
      ensures k.doubleClosed == old(k.doubleClosed)
    {
      ok := LoadObjects(fault);
      if !ok {
        return;
      }
      ok := CreateTcHook(fault);
      if !ok {
        return;
      }
      ok := AttachPrograms(fault);
    }

    /** blackhole_init with its error exits corrected: each undoes what this
        call did (all but a clsact qdisc it created, which the egress-only
        hook destroy cannot remove) and leaves the globals as cleanup_internal
        does. */
    method Init(ifname: Option<string>, tcPath: Option<string>, xdpPath: Option<string>, fault: Option<Step>)
      returns (ret: int)
      requires Valid()
      modifies this, k, k.whitelist
      ensures Valid()
      ensures ret == 0 || ret == -1
      ensures !ArgsPresent(ifname, tcPath, xdpPath) ==> ret == -1 && unchanged(this, k, k.whitelist)
      ensures ArgsPresent(ifname, tcPath, xdpPath) && ifname.value !in k.interfaces ==>
        ret == -1 && ifindex == 0 && unchanged(k, k.whitelist)
      ensures ret == 0 <==> ArgsPresent(ifname, tcPath, xdpPath) && ifname.value in k.interfaces && fault.None?
      ensures ret == 0 ==>
        var ifx := k.interfaces[ifname.value];
        var t := old(k.nextId);
        && ifindex == ifx && tcHookIfindex == ifx
        && tcObj == Some(t) && xdpObj == Some(t + 1) && NoDangling()
        && createdQdisc == (ifx !in old(k.hooks))
        && mapFd == k.whitelistFd && mapFd >= 0
        && k.hooks == old(k.hooks) + {ifx} && k.foreignFilters == old(k.foreignFilters)
        && k.tcAttached == old(k.tcAttached) + {ifx} && k.xdpAttached == old(k.xdpAttached) + {ifx}
        && k.live == old(k.live) + {t, t + 1}
        && k.trace == old(k.trace) + [OpenObject(t), OpenObject(t + 1), HookCreate(ifx), TcAttach(ifx), XdpAttach(ifx)]
        && whitelistIps == old(whitelistIps)
        && k.whitelist.entries == old(k.whitelist.entries)
        && tcProgId
      ensures k.foreignFilters == old(k.foreignFilters)
      ensures ret != 0 ==> old(k.hooks) <= k.hooks && k.live == old(k.live)
      ensures ret != 0 && ArgsPresent(ifname, tcPath, xdpPath) && ifname.value in k.interfaces ==>
        k.hooks <= old(k.hooks) + {k.interfaces[ifname.value]}
      ensures ret != 0 ==> k.tcAttached <= old(k.tcAttached) && k.xdpAttached <= old(k.xdpAttached)
      ensures ret != 0 && old(NoDangling()) ==> NoDangling()
      ensures ret != 0 && old(IsReset()) ==> IsReset()
      ensures old(mapFd) < 0 ==> k.whitelist.entries == old(k.whitelist.entries)
      ensures k.doubleClosed == old(k.doubleClosed)
    {
      if !ArgsPresent(ifname, tcPath, xdpPath) {
        return -1;
      }
      ifindex := k.IfNameToIndex(ifname.value);
      if ifindex == 0 {
        return -1;
      }
      var ok := SetUp(fault);
      if !ok {
        ifindex := -1;
        return -1;
      }
      ok := FindWhitelistMap(fault);
      return if ok then 0 else -1;
    }

    /** Lines 142-146 then 74-81: after init fails to load the TC object it
        has closed tc_obj but still refers to it, so the next blackhole_cleanup
        closes the same object a second time. */
    method FailedLoadThenCleanupAsWritten(ifname: string, tcPath: string, xdpPath: string)
      requires Valid() && NoDangling() && !k.doubleClosed && ifname in k.interfaces
      modifies this, k, k.whitelist
      ensures Valid() && IsReset()
      ensures k.doubleClosed
    {
      var ret := InitAsWritten(Some(ifname), Some(tcPath), Some(xdpPath), Some(LoadTc));
      CleanupAsWritten();
    }

    /** The same sequence with the corrected init: nothing is closed twice. */
    method FailedLoadThenCleanup(ifname: string, tcPath: string, xdpPath: string)
      requires Valid() && NoDangling() && !k.doubleClosed && ifname in k.interfaces
      modifies this, k, k.whitelist
      ensures Valid() && IsReset()
      ensures !k.doubleClosed
    {
      var ret := Init(Some(ifname), Some(tcPath), Some(xdpPath), Some(LoadTc));
      Cleanup();
    }

    /** Lines 170-171 then 181-186: on an interface whose egress hook already
        carries another program's filters, init adopts the hook (created_qdisc
        false), and when the TC program is then not found the error exit
        destroys the hook anyway, which flushes those filters. */
    method ForeignHookAsWritten(ifname: string, tcPath: string, xdpPath: string)
      requires Valid() && ifname in k.interfaces && k.interfaces[ifname] in k.foreignFilters
      modifies this, k, k.whitelist
      ensures Valid()
      ensures !createdQdisc && k.interfaces[ifname] in k.hooks && k.interfaces[ifname] !in k.foreignFilters
    {
      var ret := InitAsWritten(Some(ifname), Some(tcPath), Some(xdpPath), Some(FindTcProg));
    }

    /** The same sequence with the corrected init: the other program's filters
        are kept. */
    method ForeignHook(ifname: string, tcPath: string, xdpPath: string)
      requires Valid() && ifname in k.interfaces && k.interfaces[ifname] in k.foreignFilters
      modifies this, k, k.whitelist
      ensures Valid()
      ensures k.interfaces[ifname] in k.foreignFilters && k.foreignFilters == old(k.foreignFilters)
    {
      var ret := Init(Some(ifname), Some(tcPath), Some(xdpPath), Some(FindTcProg));
    }

    /** Lines 199-202 and 229-235: init fails after bpf_tc_attach succeeded
        (here bpf_xdp_attach fails), and its error exit leaves tc_opts.prog_id
        set. A second init in which no call fails is then refused by
        bpf_tc_attach, as is every later one until blackhole_cleanup. */
    method RetryAfterFailedAttachAsWritten(ifname: string, tcPath: string, xdpPath: string)
      returns (first: int, second: int)
      requires Valid() && ifname in k.interfaces
      modifies this, k, k.whitelist
      ensures Valid()
      ensures first == -1 && second == -1 && tcProgId
    {
      first := InitAsWritten(Some(ifname), Some(tcPath), Some(xdpPath), Some(AttachXdp));
      second := InitAsWritten(Some(ifname), Some(tcPath), Some(xdpPath), None);
    }

    /** The same sequence with the corrected init: the retry succeeds. */
    method RetryAfterFailedAttach(ifname: string, tcPath: string, xdpPath: string)
      returns (first: int, second: int)
      requires Valid() && ifname in k.interfaces
      modifies this, k, k.whitelist
      ensures Valid()
      ensures first == -1 && second == 0
    {
      first := Init(Some(ifname), Some(tcPath), Some(xdpPath), Some(AttachXdp));
      second := Init(Some(ifname), Some(tcPath), Some(xdpPath), None);
    }
  }
}
