# blackhole, modelled in Dafny

blackhole is a default-deny IPv4 ingress filter for one Linux network
interface. Two eBPF programs share one pinned hash map, `whitelist_map`,
which maps an IPv4 address to an "allowed" flag:

- `xdp_ingress_func` drops every IPv4 frame whose source address is not in
  the map with a non-zero flag. Frames it cannot classify pass.
- `tc_egress_func` never drops. It records the destination of every IPv4
  frame the host sends, so replies from that host pass ingress
  ("auto-learn").

A native control plane (`ip_blocker.cpp`) loads and attaches both programs,
edits the map, and detaches everything on cleanup. A Java facade
(`Blackhole.java`) wraps it as a guarded singleton.

The model has one module per component:

- `Packet`: the header bounds checks both programs run. It also fixes how
  four address bytes become a map key: a little-endian host load of the
  network-order bytes, the same on the packet side and the control-plane
  side.
- `XdpIngress`: the classifier, as a pure function of the frame and the
  map contents.
- `BpfMap`: the kernel hash map as a class. It has contents, a capacity and
  an iteration order, which is what `bpf_map_get_next_key` walks.
- `TcEgress`: the learning step, as a pure function, and the hook, as a
  method that updates the shared map in place.
- `Inet`: the dotted-quad parser behind `inet_pton(AF_INET, …)`. Its partner
  is the formatter `inet_ntop`, and the two round-trip.
- `Libbpf`: the kernel and libbpf as abstract calls that may fail. It tracks
  TC hooks, attached programs and open `bpf_object`s, and keeps a ghost trace
  of the calls made.
- `IpBlocker`: the static globals of `ip_blocker.cpp` as a class, with
  `blackhole_init`, `blackhole_cleanup`, the whitelist operations and
  `clear_map`. Members named `…AsWritten` follow the code line by line,
  defects included. The members without that suffix are the corrected
  definitions the rest of the model uses.
- `JavaFacade`: the static fields of `Blackhole` as one object, whose
  invariant ties the Java flag to the native globals.

A failing library call is chosen by a parameter `fault: Option<Step>`. It
names the one call of `blackhole_init` that fails, and `None` means every
call succeeds. Each error exit returns at once, so one fault point describes
every run. The map's capacity, `WHITELIST_MAP_SIZE`, is defined in a header
that is not part of this model, so it is the field `maxEntries`.
`if_nametoindex` reads a fixed interface table, and each temporary-file
extraction is given as an outcome.

## Model

| member | source | states |
|---|---|---|
| Packet.ParseIPv4 | src/xdp_ingress.c:25-36 | A frame shorter than 14 bytes, a frame whose EtherType bytes are not 08 00, and an IPv4 frame shorter than 34 bytes are each rejected, and only for that reason. Otherwise the frame is accepted, and the two addresses are the loads of bytes 26..29 and 30..33. |
| Packet.LoadBytes | src/xdp_ingress.c:36-37 | Storing a 32-bit key as four bytes and loading them back gives the key, so a map key is exactly the address's four bytes in memory. |
| Packet.BytesLoad | src/xdp_ingress.c:36-37 | Loading four bytes and storing the key back gives the same four bytes. |
| Packet.Load32Injective | src/xdp_ingress.c:36-37 | Two addresses have the same whitelist key exactly when their four bytes agree. |
| XdpIngress.Verdict | src/xdp_ingress.c:20-57 | PASS for short frames, non-IPv4 frames and short IPv4 frames. For a classified frame, PASS exactly when its source key is in the map with a non-zero flag, so a key present with flag 0 is dropped. The map is read-only. |
| TcEgress.Learned | src/tc_egress.c:27-45 | Non-IPv4 and short frames leave the map unchanged. No existing entry is removed or altered, including its value. Only the destination key can be added, with value 1. An absent destination is added when the map has room and silently not added when it is full. Non-zero flags stay non-zero. |
| TcEgress.Egress | src/tc_egress.c:22-55 | The verdict is TC_ACT_OK on every path, a failed insert included. The map afterwards is `Learned` of the map before. |
| TcEgress.ReplyPasses | src/tc_egress.c:38-45 | Auto-learn: after the host sends a frame to D and D is recorded, a frame arriving from D passes the ingress classifier. This needs only that D, if already in the map, has a non-zero flag. |
| TcEgress.ZeroFlagStaysDropped | src/tc_egress.c:41-42 | A destination already present with flag 0 is not rewritten, so its replies are still dropped. |
| BpfMap.HashMap.GetNextKey | native/src/ip_blocker.cpp:32 | A NULL or absent key yields the first key in iteration order. A present key that is not last yields the key right after it in that order. The call reports the end exactly when the map is empty or the key is the last one. |
| BpfMap.HashMap.Update | native/src/ip_blocker.cpp:111 | BPF_ANY upsert. It succeeds exactly when the key is present or the map has room, and then the contents become `old[key := value]`. The written key is linked afresh, so its place in iteration order is the kernel's choice even on an overwrite; the other keys keep their relative order. Otherwise it fails with -E2BIG and changes nothing. |
| BpfMap.HashMap.Delete | native/src/ip_blocker.cpp:33 | Removes the key. It returns 0 exactly when the key was present, and -ENOENT otherwise. |
| Inet.InetPton4 | native/src/ip_blocker.cpp:103-108 | Accepts exactly the texts of four dot-separated decimal octets 0..255. The key is the load of those octets in network order. |
| Inet.PtonOfNtop | native/src/ip_blocker.cpp:104 | Parsing the dotted-quad text of any address gives that address back. |
| Libbpf.Kernel.IfNameToIndex | native/src/ip_blocker.cpp:129-130 | Returns 0 exactly when no interface has the name. Otherwise it returns that interface's positive index. |
| Libbpf.Kernel.Open | native/src/ip_blocker.cpp:136-137 | Returns a fresh, now-open object handle, or NULL on failure with nothing changed. |
| Libbpf.Kernel.Close | native/src/ip_blocker.cpp:144 | The handle is no longer open. Closing a handle that is already closed is recorded as a double close. |
| Libbpf.Kernel.TcHookCreate | native/src/ip_blocker.cpp:167-177 | Returns 0 after creating the hook. Returns -EEXIST when the interface already has one. Returns another error when the call fails, and then changes nothing. |
| Libbpf.Kernel.TcHookDestroy | native/src/ip_blocker.cpp:183 | With the egress-only attach point this is a flush: every filter on the interface's egress hook is removed, this program's and other programs' alike, and the clsact qdisc itself stays. It returns 0 exactly when the hook exists, and a negative error otherwise. |
| Libbpf.Kernel.TcAttachProg | native/src/ip_blocker.cpp:199-202 | Attaches the egress filter. Options that still carry a prog_id from an earlier attach are refused with -EINVAL. Otherwise it succeeds exactly when the call does not fail and the hook exists. |
| Libbpf.Kernel.TcDetachProg | native/src/ip_blocker.cpp:60 | Removes the egress filter. It returns -ENOENT when none was attached. |
| Libbpf.Kernel.XdpAttachProg | native/src/ip_blocker.cpp:230 | Attaches the XDP program unless the call fails. |
| Libbpf.Kernel.XdpDetachProg | native/src/ip_blocker.cpp:48 | The interface no longer has the XDP program. |
| IpBlocker.ClearMapAsWritten | native/src/ip_blocker.cpp:24-39 | With a negative fd nothing changes. Otherwise the map is emptied, except when key 0 is present and last in iteration order: then only key 0 is removed. |
| IpBlocker.ClearedAsWritten | native/src/ip_blocker.cpp:30-38 | What the loop as written leaves behind: nothing, or every key except 0 when key 0 comes last. |
| IpBlocker.ClearAsWrittenKeepsAddress | native/src/ip_blocker.cpp:30-35 | A concrete map {A, 0.0.0.0} with order [A, 0] is left as {A}, and frames from A still pass ingress. |
| IpBlocker.ClearMap | native/src/ip_blocker.cpp:24-39 | Corrected: with fd >= 0 the map is empty afterwards, and with a negative fd nothing changes. |
| IpBlocker.AddedAddressPasses | native/src/ip_blocker.cpp:104-111 | For any dotted quad, the key `add_to_whitelist` stores is the key the classifier probes for a frame whose source bytes are those four octets, so once the key is stored with flag 1 that frame passes. |
| IpBlocker.ControlPlane.constructor | native/src/ip_blocker.cpp:15-22 | Initial globals: no objects, ifindex -1, map_fd -1, zeroed tc_hook, created_qdisc false, empty list. |
| IpBlocker.ControlPlane.AddToWhitelist | native/src/ip_blocker.cpp:101-117 | An unparseable address returns -1 and changes neither the map nor the list. Otherwise the call succeeds exactly when the upsert does. On success the map is `old[key := 1]` and the text is appended, even when it is already listed. On failure it returns -1 and changes nothing. |
| IpBlocker.ControlPlane.AddWhitelistIp | native/src/ip_blocker.cpp:256-263 | With map_fd < 0 it returns -1 and changes nothing. Otherwise it behaves as `add_to_whitelist`. |
| IpBlocker.ControlPlane.ClearWhitelist | native/src/ip_blocker.cpp:270-279 | Corrected (`clear_map` started from a NULL key): with map_fd < 0 it returns -1 and changes nothing. Otherwise it returns 0 with an empty map and an empty list. |
| IpBlocker.ControlPlane.Cleanup | native/src/ip_blocker.cpp:41-93 | Corrected (`clear_map` started from a NULL key): empties the map iff map_fd >= 0. Detaches XDP iff ifindex > 0. Detaches TC iff tc_hook names an interface, and flushes that hook only if created_qdisc; the hooks themselves stay. Closes exactly the objects held and clears both references. Every global ends reset. A second call changes nothing. |
| IpBlocker.ControlPlane.ClearWhitelistAsWritten | native/src/ip_blocker.cpp:270-279 | As written: with map_fd < 0 it returns -1 and changes nothing. Otherwise it returns 0 with an empty list, and the map is what `clear_map` from key 0 leaves: every key but 0 survives when key 0 is last in iteration order. |
| IpBlocker.ControlPlane.CleanupAsWritten | native/src/ip_blocker.cpp:41-93 | As written: the same detach, close and reset as the corrected cleanup, but the map is what `clear_map` from key 0 leaves. A second call changes nothing. |
| IpBlocker.ControlPlane.DetachPrograms | native/src/ip_blocker.cpp:47-72 | The detach half of cleanup, under the same guards. Other programs' egress filters are removed only when this library created the hook, and no hook is removed. |
| IpBlocker.ControlPlane.CloseObjects | native/src/ip_blocker.cpp:74-81 | Each object held is closed and its reference cleared. This is a double close only if a reference was already dangling. |
| IpBlocker.ControlPlane.LoadObjectsAsWritten | native/src/ip_blocker.cpp:135-161 | Each failure returns and closes what was opened. tc_obj or xdp_obj still refers to the closed object. |
| IpBlocker.ControlPlane.CreateTcHookAsWritten | native/src/ip_blocker.cpp:163-177 | created_qdisc becomes true iff the hook was created. -EEXIST adopts the existing hook with created_qdisc false. Any other error closes both objects and returns failure. |
| IpBlocker.ControlPlane.AbortAsWritten | native/src/ip_blocker.cpp:183-186 | The shared error exit: the hook is flushed whoever created it, which removes other programs' filters too, and both objects are closed but still referenced. |
| IpBlocker.ControlPlane.AttachProgramsAsWritten | native/src/ip_blocker.cpp:179-236 | On success TC is attached and then XDP, and the prog_id is recorded in tc_opts. The TC attach is refused while an earlier prog_id is still there. On any failure the hook is flushed, removing every filter on it including other programs', XDP is not attached, and both objects are closed. |
| IpBlocker.ControlPlane.SetUpAsWritten | native/src/ip_blocker.cpp:135-236 | The open, load, hook and attach steps composed, with the state each error exit leaves. Other programs' filters are lost exactly when a step of lines 180-236 fails, a TC attach refused for a stale prog_id included; the prog_id stays set once a TC attach succeeded. |
| IpBlocker.ControlPlane.FindWhitelistMap | native/src/ip_blocker.cpp:238-253 | On success map_fd is the map's descriptor, which is >= 0, and nothing else changes. Either failure runs `blackhole_cleanup`, so all globals end reset. |
| IpBlocker.ControlPlane.RunAsWritten | native/src/ip_blocker.cpp:135-253 | With the interface resolved, the result is 0 iff no call fails and tc_opts carries no prog_id from an earlier attach. On success the hook exists, both programs are attached and the two opened objects are live and referenced. Each error exit leaves the state the source leaves, including closed objects that are still referenced. |
| IpBlocker.ControlPlane.InitAsWritten | native/src/ip_blocker.cpp:123-254 | A NULL argument returns -1 and changes nothing. An unknown interface returns -1 with ifindex 0 and opens nothing. The result is 0 iff all arguments are present, the interface exists, no call fails and tc_opts carries no prog_id from an earlier attach. Then the calls were open, open, hook create, TC attach, XDP attach in that order, and map_fd >= 0. The error exits leave dangling references, flush an adopted hook, other programs' filters included, and keep the prog_id of a TC attach that succeeded. |
| IpBlocker.ControlPlane.LoadObjects | native/src/ip_blocker.cpp:135-161 | Corrected: the same steps, and each failure also clears the reference it closed. |
| IpBlocker.ControlPlane.CreateTcHook | native/src/ip_blocker.cpp:163-177 | Corrected: the same steps, and a failure also clears both references and tc_hook. |
| IpBlocker.ControlPlane.Rollback | native/src/ip_blocker.cpp:229-236 | Corrected error exit: detaches TC if this call attached it. Flushes the hook only if created_qdisc. Closes both objects and clears both references, tc_hook and the prog_id in tc_opts. |
| IpBlocker.ControlPlane.AttachPrograms | native/src/ip_blocker.cpp:179-236 | Corrected: `tc_opts` is set afresh before the attach, so the attach succeeds exactly when no call fails, and the prog_id is set exactly on success. On failure no hook is removed, other programs' filters are removed only from a hook this call created, no TC filter is added, XDP is not attached, and no reference dangles. |
| IpBlocker.ControlPlane.SetUp | native/src/ip_blocker.cpp:135-236 | Corrected: other programs' filters are never touched. A failure leaves the set of open objects and the XDP attachments as before, attaches no TC filter, and can leave at most the clsact qdisc this call created. |
| IpBlocker.ControlPlane.Init | native/src/ip_blocker.cpp:123-254 | Corrected: succeeds exactly when all arguments are present, the interface exists and no call fails, whatever an earlier run left in `tc_opts`; the success state is the code's, the whitelist map untouched included. Other programs' filters are never touched. A failure leaves the open objects as before, adds at most a hook on the named interface, and never closes an object twice. From a reset state, a failure leaves the globals reset. |
| IpBlocker.ControlPlane.FailedLoadThenCleanupAsWritten | native/src/ip_blocker.cpp:142-146 | A failed TC load followed by `blackhole_cleanup` closes the TC object twice. |
| IpBlocker.ControlPlane.FailedLoadThenCleanup | native/src/ip_blocker.cpp:142-146 | With the corrected init, the same sequence closes nothing twice. |
| IpBlocker.ControlPlane.ForeignHookAsWritten | native/src/ip_blocker.cpp:181-186 | On an interface whose egress hook already carries another program's filter, a missing TC program adopts the hook and then flushes it, so that filter is gone. |
| IpBlocker.ControlPlane.ForeignHook | native/src/ip_blocker.cpp:181-186 | With the corrected init, the other program's filter survives. |
| IpBlocker.ControlPlane.RetryAfterFailedAttachAsWritten | native/src/ip_blocker.cpp:199-235 | An init that fails at `bpf_xdp_attach`, followed by an init in which no call fails, returns -1 twice: the first run's `prog_id` is still in `tc_opts`. |
| IpBlocker.ControlPlane.RetryAfterFailedAttach | native/src/ip_blocker.cpp:199-235 | With the corrected init, the same retry returns 0. |
| JavaFacade.Blackhole.constructor | src/main/java/com/soda4fries/blackhole/Blackhole.java:21-24 | Starts uninitialized with no interface and no extracted paths, over reset native globals. |
| JavaFacade.Blackhole.IsInitialized | src/main/java/com/soda4fries/blackhole/Blackhole.java:66-68 | Returns the flag, which is set exactly when an interface is current. |
| JavaFacade.Blackhole.EnsureInitialized | src/main/java/com/soda4fries/blackhole/Blackhole.java:75-81 | Throws IllegalStateException exactly when the facade is not initialized. |
| JavaFacade.Blackhole.ExtractBpfPrograms | src/main/java/com/soda4fries/blackhole/Blackhole.java:99-110 | Once both paths are set, a call returns at once and changes nothing. Otherwise each copy that succeeds sets its path, and an IOException leaves the rest as it was. |
| JavaFacade.Blackhole.Init | src/main/java/com/soda4fries/blackhole/Blackhole.java:36-59 | Corrected (over the corrected native init): throws IllegalStateException while initialized, with nothing changed. The programs are extracted at most once: paths already set are kept, and otherwise each successful copy sets its path. An extraction failure becomes RuntimeException. Otherwise it returns the native result, and the facade is initialized on `ifname` iff that result is 0. The whitelist map is never touched, and neither are other programs' filters. |
| JavaFacade.Blackhole.AddWhitelistIp | src/main/java/com/soda4fries/blackhole/Blackhole.java:135-143 | Throws IllegalStateException through `EnsureInitialized` when uninitialized, without reaching native code. Otherwise it returns the native result with its effect on the map. |
| JavaFacade.Blackhole.ClearWhitelist | src/main/java/com/soda4fries/blackhole/Blackhole.java:151-154 | Corrected (`clear_map` started from a NULL key): throws IllegalStateException through `EnsureInitialized` when uninitialized. Otherwise it returns 0 with the map and the list empty. |
| JavaFacade.Blackhole.Cleanup | src/main/java/com/soda4fries/blackhole/Blackhole.java:163-170 | Corrected (`clear_map` started from a NULL key): throws IllegalStateException through `EnsureInitialized` when uninitialized, with nothing changed. Otherwise the native cleanup empties the map, detaches, closes and resets, and the facade ends uninitialized with no interface. |
| JavaFacade.Blackhole.ClearWhitelistAsWritten | src/main/java/com/soda4fries/blackhole/Blackhole.java:151-154 | Over the native code as written: guarded the same way; when initialized it returns 0 with the list empty and the map as `clear_map` from key 0 leaves it. |
| JavaFacade.Blackhole.CleanupAsWritten | src/main/java/com/soda4fries/blackhole/Blackhole.java:163-170 | Over the native code as written: guarded the same way; when initialized the native globals end reset, the facade uninitialized, and the map as `clear_map` from key 0 leaves it. |
| JavaFacade.Blackhole.Reinitialize | src/main/java/com/soda4fries/blackhole/Blackhole.java:156-170 | After cleanup, init on an existing interface, with no call failing, initializes the facade again. |

The facade's invariant `JavaFacade.Blackhole.Valid` holds across every
operation. It says that the flag and the interface name move together, that
an initialized facade holds a map descriptor, that an uninitialized one
leaves the native globals reset, and that no object is ever closed twice.

## Left out

- Logging is not modelled: `bpf_printk` and `std::cerr`, including the byte shifts used only for printing.
- `signal_handler` and `cleanup_internal(true)` are not modelled, because they end the process with `exit(0)`.
- `native/src/main.cpp` is not part of this model. It is the command-line front end.
- `build.gradle.kts` is not part of this model. It is build tooling.
- Java FFM `Arena` marshalling, temporary-file creation and `deleteOnExit` are I/O. Each extraction is an input outcome instead.
- `synchronized`, `volatile` and concurrent access to the map from several CPUs are left out. Every component is modelled sequentially.
- The kernel behind libbpf is abstract: object loading, the eBPF verifier, qdisc creation and map pinning. Each call succeeds or fails as `fault` says. `bpf_object__load` and the program and map lookups change no tracked state.
- Of `tc_opts` only whether `prog_id` is set is modelled (`IpBlocker.ControlPlane.tcProgId`). The program descriptor, handle and priority are folded into the abstract TC attach and detach calls, so `bpf_tc_detach` always finds the filter this library attached.
- Libbpf.Kernel.TcHookCreate: a failure returns -EPERM. The code only distinguishes 0, -EEXIST and "other".
- Inet.InetPton4: it accepts octets written with leading zeros, as in "01.2.3.4". Parsers differ on that case, and only the plain four-octet 0..255 form is modelled.
- A NULL `ip_str` passed to `blackhole_add_whitelist_ip` is not modelled: it returns -1 before init (map_fd < 0, native/src/ip_blocker.cpp:258-259) and crashes in `inet_pton` once map_fd >= 0. A null `ifname` passed to the Java `init` is not modelled either; it crashes rather than returns.
- BpfMap.HashMap.Update: the only failure modelled is a full map (-E2BIG). Memory exhaustion is not modelled.
- XdpIngress.Verdict and TcEgress.Learned assume the IPv4 header is the fixed 20 bytes. So does the code, which does not read IHL.
- A clsact qdisc this library created is never removed. `tc_hook` is egress-only (native/src/ip_blocker.cpp:165), and `bpf_tc_hook_destroy` on an egress-only hook only flushes its filters; the qdisc goes only when ingress and egress are destroyed together. `Libbpf.Kernel.hooks` therefore only grows.
- Libbpf.Kernel.TcHookDestroy: a missing qdisc gives only "a negative error"; the code ignores the value.
- IpBlocker.ControlPlane.InitAsWritten: its error exits at lines 240-251 run `blackhole_cleanup` through the shared `FindWhitelistMap`, which uses the corrected `clear_map`, so the contract leaves the map contents there unspecified when a map descriptor was already held. `CleanupAsWritten` models the cleanup with the `clear_map` as written.
- The members without the `AsWritten` suffix (`ClearWhitelist`, `Cleanup` and the Java facade over them) use the corrected `clear_map`; `ClearWhitelistAsWritten` and `CleanupAsWritten` follow the code.
- JavaFacade.Blackhole.Init: it is built on the corrected `IpBlocker.ControlPlane.Init`. With `InitAsWritten`, a failed native init can leave the globals not reset while the facade is uninitialized; it can also flush an adopted egress hook, removing other programs' filters (native/src/ip_blocker.cpp:183-235), and leave closed objects still referenced (native/src/ip_blocker.cpp:144, 152, 159). After an exit that follows a successful `bpf_tc_attach`, `tc_opts.prog_id` stays set, so every later init is refused at line 202; since `cleanup` throws while the facade is uninitialized, the facade could then never be initialized again.

## Findings

| source | as written | input that shows it | evidently intended | confidence | as-written member | corrected member |
|---|---|---|---|---|---|---|
| native/src/ip_blocker.cpp:30-35 | `clear_map` starts iterating from key 0, not from a NULL key. When 0.0.0.0 is whitelisted and comes last in the kernel's iteration order, the first `bpf_map_get_next_key` reports the end. Only key 0 is then deleted. | whitelist "10.0.0.1" and "0.0.0.0", iteration order [10.0.0.1, 0.0.0.0], then `blackhole_clear_whitelist`. 10.0.0.1 stays whitelisted (`IpBlocker.ClearAsWrittenKeepsAddress`). | The map is empty after `clear_map`, as the header promises for clear and cleanup. | not executed; needs that iteration order | IpBlocker.ClearMapAsWritten | IpBlocker.ClearMap |
| native/src/ip_blocker.cpp:183-186 | The error exits of lines 181-236 call `bpf_tc_hook_destroy` even when `created_qdisc` is false, that is, on a hook adopted after -EEXIST. With the egress-only attach point of line 165 this flushes every egress filter on the interface, other programs' included. | An interface whose egress hook already carries another program's filter, and `tc_egress_func` not found in the object. That filter is gone afterwards (`IpBlocker.ControlPlane.ForeignHookAsWritten`). | Touch the hook only if this library created it, as `cleanup_internal` does at lines 65-71. | not executed | IpBlocker.ControlPlane.ForeignHookAsWritten | IpBlocker.ControlPlane.ForeignHook |
| native/src/ip_blocker.cpp:142-146 | The error exits at lines 144, 152, 159 and 174-234 close `tc_obj` and `xdp_obj` without setting them to NULL. A later `blackhole_cleanup` closes them again. | `blackhole_init` where `bpf_object__load` fails for the TC object, then `blackhole_cleanup`. | Each closed object's reference is cleared, so no object is closed twice. | not executed | IpBlocker.ControlPlane.FailedLoadThenCleanupAsWritten | IpBlocker.ControlPlane.FailedLoadThenCleanup |
| native/src/ip_blocker.cpp:199-235 | A successful `bpf_tc_attach` at line 202 writes the filter's `prog_id` into the global `tc_opts`. The error exits at lines 211-235 do not clear it, and lines 199-200 set only `sz` and `prog_fd`. libbpf refuses options with a non-zero `prog_id` (-EINVAL), so every later `blackhole_init` fails at line 202 until `blackhole_cleanup` resets `tc_opts` (line 87). | `blackhole_init` where `bpf_xdp_attach` fails, then `blackhole_init` again with nothing failing; it returns -1 (`IpBlocker.ControlPlane.RetryAfterFailedAttachAsWritten`). From Java, `cleanup` throws while uninitialized, so init never succeeds again. | A failed init leaves `tc_opts` as cleanup does, and each init sets it afresh, so a retry can succeed. | not executed | IpBlocker.ControlPlane.RetryAfterFailedAttachAsWritten | IpBlocker.ControlPlane.RetryAfterFailedAttach |

The corrected `IpBlocker.ControlPlane.Init` also detaches the TC filter when
the XDP steps fail. The code does not do this at lines 211-236. In the
model the omission has no visible effect, because the egress-only
`bpf_tc_hook_destroy` flushes the hook's filters, and the code calls it on
those paths. The corrected init flushes the hook only when it created it, so
it must detach its own filter itself.
