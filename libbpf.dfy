/** The kernel and libbpf as the control plane sees them: each call is an
    abstract operation on a small kernel state that may fail. What is tracked:
    which interfaces have an egress TC hook, on which the blackhole TC filter and
    XDP program are attached, which bpf_object handles are open, and the pinned
    whitelist_map. A ghost trace records the calls in the order they were made. */
module Libbpf {
  import opened Wrappers
  import BpfMap

  /** errno values the calls report (negated). */
  const EPERM: int := 1
  const ENOENT: int := 2
  const EEXIST: int := 17
  const EINVAL: int := 22

  /** A kernel interface index; if_nametoindex returns 0 for "no such interface". */
  type Ifindex = i: int | i > 0 witness 1

  /** The library calls that change kernel state, as recorded in the trace. */
  datatype Call =
    | OpenObject(id: nat)
    | CloseObject(id: nat)
    | HookCreate(ifindex: int)
    | HookDestroy(ifindex: int)
    | TcAttach(ifindex: int)
    | TcDetach(ifindex: int)
    | XdpAttach(ifindex: int)
    | XdpDetach(ifindex: int)

  /** The libbpf call of blackhole_init that fails, in program order:
      bpf_object__open_file and bpf_object__load for each object,
      bpf_tc_hook_create, bpf_object__find_program_by_name and bpf_program__fd for
      each program, bpf_tc_attach, bpf_xdp_attach, bpf_object__find_map_by_name,
      bpf_map__fd. A run of init stops at its first failure, so one fault point
      describes every run. */
  datatype Step =
    | OpenTc | LoadTc | OpenXdp | LoadXdp | CreateHook
    | FindTcProg | TcProgFd | AttachTc | FindXdpProg | XdpProgFd | AttachXdp
    | FindMap | MapFd

  /** The position of a call in blackhole_init. */
  function Rank(s: Step): nat
  {
    match s
    case OpenTc => 0
    case LoadTc => 1
    case OpenXdp => 2
    case LoadXdp => 3
    case CreateHook => 4
    case FindTcProg => 5
    case TcProgFd => 6
    case AttachTc => 7
    case FindXdpProg => 8
    case XdpProgFd => 9
    case AttachXdp => 10
    case FindMap => 11
    case MapFd => 12
  }

  /** Some call up to and including s fails. */
  predicate FailsBy(fault: Option<Step>, s: Step)
  {
    fault.Some? && Rank(fault.value) <= Rank(s)
  }

  /** The failing call is one of the program lookups or attachments, whose
      error exits share one clean-up sequence. */
  predicate FailsInAttach(fault: Option<Step>)
  {
    fault.Some? && Rank(FindTcProg) <= Rank(fault.value) <= Rank(AttachXdp)
  }

  class Kernel {
    /** The interface table if_nametoindex consults. */
    const interfaces: map<string, Ifindex>
    /** whitelist_map, pinned by name: it outlives every bpf_object. */
    const whitelist: BpfMap.HashMap
    /** What bpf_map__fd returns for whitelist_map. */
    const whitelistFd: nat
    /** Interfaces with a clsact qdisc, the hook of bpf_tc_hook_create. */
    var hooks: set<int>
    /** Interfaces whose egress hook carries the blackhole TC filter. */
    var tcAttached: set<int>
    /** Interfaces whose egress hook carries filters other programs attached. */
    var foreignFilters: set<int>
    var xdpAttached: set<int>
    /** Open bpf_object handles, and the next handle to hand out. */
    var live: set<nat>
    var nextId: nat
    /** Set once bpf_object__close was called on a handle already closed. */
    ghost var doubleClosed: bool
    ghost var trace: seq<Call>

    ghost predicate Valid()
      reads this
    {
      && (forall id :: id in live ==> id < nextId)
      && tcAttached <= hooks && foreignFilters <= hooks
    }

    constructor (interfaces: map<string, Ifindex>, whitelist: BpfMap.HashMap, whitelistFd: nat, hooks: set<int>, foreignFilters: set<int>)
      requires foreignFilters <= hooks
      ensures Valid()
      ensures this.interfaces == interfaces && this.whitelist == whitelist && this.whitelistFd == whitelistFd
      ensures this.hooks == hooks && this.foreignFilters == foreignFilters
      ensures tcAttached == {} && xdpAttached == {} && live == {}
      ensures !doubleClosed && trace == []
    {
      this.interfaces := interfaces;
      this.whitelist := whitelist;
      this.whitelistFd := whitelistFd;
      this.hooks := hooks;
      this.foreignFilters := foreignFilters;
      tcAttached := {};
      xdpAttached := {};
      live := {};
      nextId := 0;
      doubleClosed := false;
      trace := [];
    }

    /** if_nametoindex: the interface's index, 0 when there is none. */
    function IfNameToIndex(name: string): (i: int)
      ensures i >= 0
      ensures i == 0 <==> name !in interfaces
    {
      if name in interfaces then interfaces[name] else 0
    }

    /** bpf_object__open_file: a fresh handle, or NULL (None) on failure. */
    method Open(fail: bool) returns (obj: Option<nat>)
      requires Valid()
      modifies this
      ensures Valid()
      ensures fail ==> obj.None? && unchanged(this)
      ensures !fail ==> obj == Some(old(nextId)) && old(nextId) !in old(live) && nextId == old(nextId) + 1
      ensures !fail ==> live == old(live) + {old(nextId)} && trace == old(trace) + [OpenObject(old(nextId))]
      ensures hooks == old(hooks) && tcAttached == old(tcAttached) && xdpAttached == old(xdpAttached)
      ensures foreignFilters == old(foreignFilters)
      ensures doubleClosed == old(doubleClosed)
    {
      if fail {
        return None;
      }
      obj := Some(nextId);
      live := live + {nextId};
      trace := trace + [OpenObject(nextId)];
      nextId := nextId + 1;
    }

    /** bpf_object__close. Closing a handle that is no longer open is a
        use-after-free in the library; the model records it. */
    method Close(id: nat)
      requires Valid()
      modifies this
      ensures Valid()
      ensures live == old(live) - {id}
      ensures doubleClosed == (old(doubleClosed) || id !in old(live))
      ensures trace == old(trace) + [CloseObject(id)]
      ensures hooks == old(hooks) && tcAttached == old(tcAttached) && xdpAttached == old(xdpAttached)
      ensures foreignFilters == old(foreignFilters)
      ensures nextId == old(nextId)
    {
      doubleClosed := doubleClosed || id !in live;
      live := live - {id};
      trace := trace + [CloseObject(id)];
    }

    /** bpf_tc_hook_create: 0 after creating the hook, -EEXIST when the
        interface already has one, another error when the call fails. */
    method TcHookCreate(ifindex: int, fail: bool) returns (ret: int)
      requires Valid()
      modifies this
      ensures Valid()
      ensures fail ==> ret == -EPERM && hooks == old(hooks)
      ensures !fail && ifindex in old(hooks) ==> ret == -EEXIST && hooks == old(hooks)
      ensures !fail && ifindex !in old(hooks) ==> ret == 0 && hooks == old(hooks) + {ifindex}
      ensures trace == old(trace) + [HookCreate(ifindex)]
      ensures tcAttached == old(tcAttached) && xdpAttached == old(xdpAttached) && foreignFilters == old(foreignFilters)
      ensures live == old(live) && nextId == old(nextId) && doubleClosed == old(doubleClosed)
    {
      trace := trace + [HookCreate(ifindex)];
      if fail {
        ret := -EPERM;
      } else if ifindex in hooks {
        ret := -EEXIST;
      } else {
        hooks := hooks + {ifindex};
        ret := 0;
      }
    }

    /** bpf_tc_hook_destroy on a hook whose attach point is BPF_TC_EGRESS
        alone, the only kind the control plane builds: libbpf then flushes
        every filter on the interface's egress hook, whoever attached it, and
        leaves the clsact qdisc in place. Without a qdisc the flush fails. */
    method TcHookDestroy(ifindex: int) returns (ret: int)
      requires Valid()
      modifies this
      ensures Valid()
      ensures ret == 0 <==> ifindex in old(hooks)
      ensures ret != 0 ==> ret < 0
      ensures hooks == old(hooks)
      ensures tcAttached == old(tcAttached) - {ifindex} && foreignFilters == old(foreignFilters) - {ifindex}
      ensures trace == old(trace) + [HookDestroy(ifindex)]
      ensures xdpAttached == old(xdpAttached)
      ensures live == old(live) && nextId == old(nextId) && doubleClosed == old(doubleClosed)
    {
      trace := trace + [HookDestroy(ifindex)];
      ret := if ifindex in hooks then 0 else -EINVAL;
      tcAttached := tcAttached - {ifindex};
      foreignFilters := foreignFilters - {ifindex};
    }

    /** bpf_tc_attach of the egress program. The options must not carry a
        prog_id yet (a successful attach writes the filter's id back into
        them): options that do are refused with -EINVAL before the kernel is
        asked. Otherwise the attach needs the hook to exist. */
    method TcAttachProg(ifindex: int, fail: bool, progIdSet: bool) returns (ret: int)
      requires Valid()
      modifies this
      ensures Valid()
      ensures ret == 0 <==> !progIdSet && !fail && ifindex in old(hooks)
      ensures progIdSet ==> ret == -EINVAL
      ensures ret == 0 ==> tcAttached == old(tcAttached) + {ifindex}
      ensures ret != 0 ==> tcAttached == old(tcAttached)
      ensures trace == old(trace) + [TcAttach(ifindex)]
      ensures hooks == old(hooks) && xdpAttached == old(xdpAttached) && foreignFilters == old(foreignFilters)
      ensures live == old(live) && nextId == old(nextId) && doubleClosed == old(doubleClosed)
    {
      trace := trace + [TcAttach(ifindex)];
      if progIdSet {
        ret := -EINVAL;
      } else if fail {
        ret := -EPERM;
      } else if ifindex !in hooks {
        ret := -ENOENT;
      } else {
        tcAttached := tcAttached + {ifindex};
        ret := 0;
      }
    }

    /** bpf_tc_detach of the egress program: -ENOENT when it is not attached. */
    method TcDetachProg(ifindex: int) returns (ret: int)
      requires Valid()
      modifies this
      ensures Valid()
      ensures ret == 0 <==> ifindex in old(tcAttached)
      ensures ret != 0 ==> ret == -ENOENT
      ensures tcAttached == old(tcAttached) - {ifindex}
      ensures trace == old(trace) + [TcDetach(ifindex)]
      ensures hooks == old(hooks) && xdpAttached == old(xdpAttached) && foreignFilters == old(foreignFilters)
      ensures live == old(live) && nextId == old(nextId) && doubleClosed == old(doubleClosed)
    {
      trace := trace + [TcDetach(ifindex)];
      ret := if ifindex in tcAttached then 0 else -ENOENT;
      tcAttached := tcAttached - {ifindex};
    }

    /** bpf_xdp_attach of the ingress program. */
    method XdpAttachProg(ifindex: int, fail: bool) returns (ret: int)
      requires Valid()
      modifies this
      ensures Valid()
      ensures ret == 0 <==> !fail
      ensures ret == 0 ==> xdpAttached == old(xdpAttached) + {ifindex}
      ensures ret != 0 ==> xdpAttached == old(xdpAttached)
      ensures trace == old(trace) + [XdpAttach(ifindex)]
      ensures hooks == old(hooks) && tcAttached == old(tcAttached) && foreignFilters == old(foreignFilters)
      ensures live == old(live) && nextId == old(nextId) && doubleClosed == old(doubleClosed)
    {
      trace := trace + [XdpAttach(ifindex)];
      if fail {
        ret := -EPERM;
      } else {
        xdpAttached := xdpAttached + {ifindex};
        ret := 0;
      }
    }

    /** bpf_xdp_detach: whatever XDP program the interface has is removed. */
    method XdpDetachProg(ifindex: int) returns (ret: int)
      requires Valid()
      modifies this
      ensures Valid()
      ensures ret == 0
      ensures xdpAttached == old(xdpAttached) - {ifindex}
      ensures trace == old(trace) + [XdpDetach(ifindex)]
      ensures hooks == old(hooks) && tcAttached == old(tcAttached) && foreignFilters == old(foreignFilters)
      ensures live == old(live) && nextId == old(nextId) && doubleClosed == old(doubleClosed)
    {
      trace := trace + [XdpDetach(ifindex)];
      xdpAttached := xdpAttached - {ifindex};
      ret := 0;
    }
  }
}
