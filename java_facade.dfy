/** The Java facade: a process-wide singleton (its static fields become the
    fields of one Blackhole object) that guards every native call with the
    initialized flag. */
module JavaFacade {
  import opened Wrappers
  import opened Libbpf
  import opened IpBlocker
  import Inet

  datatype JavaException = IllegalStateException | RuntimeException | IOException

  /** How a Java call ends: it returns a value or throws. */
  datatype Outcome<+T> = Normal(value: T) | Threw(exception: JavaException)

  /** The outcome of copying each bundled object file to a temporary file:
      its path, or None when the copy throws IOException. */
  datatype ExtractIo = ExtractIo(tcFile: Option<string>, xdpFile: Option<string>)

  class Blackhole {
    var tcProgPath: Option<string>
    var xdpProgPath: Option<string>
    var initialized: bool
    var currentInterface: Option<string>
    /** The native library's globals. */
    const native: ControlPlane

    /** The facade's invariant: the flag and the interface name move together,
        an initialized facade holds a map descriptor, an uninitialized one
        leaves the native globals reset, and no object is ever closed twice. */
    ghost predicate Valid()
      reads this, native, native.k, native.k.whitelist
    {
      && native.Valid() && native.NoDangling() && !native.k.doubleClosed
      && (initialized <==> currentInterface.Some?)
      && (initialized ==> native.mapFd >= 0)
      && (!initialized ==> native.IsReset())
    }

    constructor (native: ControlPlane)
      requires native.Valid() && native.NoDangling() && native.IsReset() && !native.k.doubleClosed
      ensures Valid() && this.native == native
      ensures !initialized && currentInterface.None? && tcProgPath.None? && xdpProgPath.None?
    {
      this.native := native;
      tcProgPath := None;
      xdpProgPath := None;
      initialized := false;
      currentInterface := None;
    }

    /** isInitialized. */
    method IsInitialized() returns (b: bool)
      requires Valid()
      ensures b == initialized
      ensures b <==> currentInterface.Some?
    {
      return initialized;
    }

    /** ensureInitialized: throws exactly when the facade is not initialized. */
    function EnsureInitialized(): (r: Outcome<()>)
      reads this
      ensures r.Threw? <==> !initialized
      ensures r.Threw? ==> r.exception == IllegalStateException
    {
      if !initialized then Threw(IllegalStateException) else Normal(())
    }

    /** extractBpfPrograms: both paths are assigned at most once; once both are
        set a call returns at once. A copy that throws leaves its path as it was. */
    method ExtractBpfPrograms(io: ExtractIo) returns (threw: bool)
      modifies this`tcProgPath, this`xdpProgPath
      ensures old(tcProgPath).Some? && old(xdpProgPath).Some? ==>
        !threw && tcProgPath == old(tcProgPath) && xdpProgPath == old(xdpProgPath)
      ensures !(old(tcProgPath).Some? && old(xdpProgPath).Some?) ==>
        && threw == (io.tcFile.None? || io.xdpFile.None?)
        && tcProgPath == (if io.tcFile.Some? then io.tcFile else old(tcProgPath))
        && xdpProgPath == (if io.tcFile.Some? && io.xdpFile.Some? then io.xdpFile else old(xdpProgPath))
      ensures !threw ==> tcProgPath.Some? && xdpProgPath.Some?
    {
      if tcProgPath.Some? && xdpProgPath.Some? {
        return false;
      }
      if io.tcFile.None? {
        return true;
      }
      tcProgPath := io.tcFile;
      if io.xdpFile.None? {
        return true;
      }
      xdpProgPath := io.xdpFile;
      return false;
    }

    /** init: refused while initialized; an extraction failure becomes a
        RuntimeException; otherwise the native result is returned, and only
        0 marks the facade initialized on that interface. */
    method Init(ifname: string, io: ExtractIo, fault: Option<Step>) returns (out: Outcome<int>)
      requires Valid()
      modifies this, native, native.k, native.k.whitelist
      ensures Valid()
      ensures old(initialized) ==>
        && out == Threw(IllegalStateException)
        && unchanged(this)
        && unchanged(native, native.k, native.k.whitelist)
      ensures !old(initialized) ==> out != Threw(IllegalStateException)
      ensures out == Threw(RuntimeException) ==> !initialized && unchanged(native, native.k, native.k.whitelist)
      ensures out.Normal? ==> out.value == 0 || out.value == -1
      ensures out.Normal? ==> (initialized <==> out.value == 0)
      ensures out == Normal(0) ==>
        && currentInterface == Some(ifname) && ifname in native.k.interfaces
        && native.k.interfaces[ifname] in native.k.tcAttached
        && native.k.interfaces[ifname] in native.k.xdpAttached
      ensures out == Normal(0) <==>
        && !old(initialized)
        && ((old(tcProgPath).Some? && old(xdpProgPath).Some?) || (io.tcFile.Some? && io.xdpFile.Some?))
        && ifname in native.k.interfaces && fault.None?
      ensures native.k.foreignFilters == old(native.k.foreignFilters)
      ensures native.k.whitelist.entries == old(native.k.whitelist.entries)
      ensures out == Normal(-1) ==> old(native.k.hooks) <= native.k.hooks && native.k.live == old(native.k.live)
      // extractBpfPrograms runs at most once: paths already set are kept.
      ensures old(tcProgPath).Some? && old(xdpProgPath).Some? ==>
        tcProgPath == old(tcProgPath) && xdpProgPath == old(xdpProgPath)
      ensures !old(initialized) && !(old(tcProgPath).Some? && old(xdpProgPath).Some?) ==>
        && tcProgPath == (if io.tcFile.Some? then io.tcFile else old(tcProgPath))
        && xdpProgPath == (if io.tcFile.Some? && io.xdpFile.Some? then io.xdpFile else old(xdpProgPath))
    {
      if initialized {
        return Threw(IllegalStateException);
      }
      var threw := ExtractBpfPrograms(io);
      if threw {
        return Threw(RuntimeException);
      }
      var result := native.Init(Some(ifname), tcProgPath, xdpProgPath, fault);
      if result == 0 {
        initialized := true;
        currentInterface := Some(ifname);
      }
      return Normal(result);
    }

    /** addWhitelistIp: guarded, then blackhole_add_whitelist_ip. */
    method AddWhitelistIp(ip: string) returns (out: Outcome<int>)
      requires Valid()
      modifies native`whitelistIps, native.k.whitelist
      ensures Valid()
      ensures !initialized ==> out == Threw(IllegalStateException) && unchanged(native, native.k.whitelist)
      ensures initialized ==> out.Normal? && (out.value == 0 || out.value == -1)
      ensures initialized ==> (out.value == 0 <==> (Inet.InetPton4(ip).Some? &&
        (Inet.InetPton4(ip).value in old(native.k.whitelist.entries) || |old(native.k.whitelist.entries)| < native.k.whitelist.maxEntries)))
      ensures out == Normal(0) ==> native.k.whitelist.entries == old(native.k.whitelist.entries)[Inet.InetPton4(ip).value := 1]
      ensures out == Normal(-1) ==> native.k.whitelist.entries == old(native.k.whitelist.entries)
    {
      var guard := EnsureInitialized();
      if guard.Threw? {
        return Threw(guard.exception);
      }
      var ret := native.AddWhitelistIp(ip);
      return Normal(ret);
    }

    /** clearWhitelist: guarded, then blackhole_clear_whitelist (with the
        corrected clear_map), which cannot fail once the facade is initialized. */
    method ClearWhitelist() returns (out: Outcome<int>)
      requires Valid()
      modifies native`whitelistIps, native.k.whitelist
      ensures Valid()
      ensures !initialized ==> out == Threw(IllegalStateException) && unchanged(native, native.k.whitelist)
      ensures initialized ==> out == Normal(0) && native.k.whitelist.entries == map[] && native.whitelistIps == []
    {
      var guard := EnsureInitialized();
      if guard.Threw? {
        return Threw(guard.exception);
      }
      var ret := native.ClearWhitelist();
      return Normal(ret);
    }

    /** cleanup: guarded, then blackhole_cleanup (with the corrected
        clear_map); afterwards init is accepted again. */
    method Cleanup() returns (out: Outcome<()>)
      requires Valid()
      modifies this, native, native.k, native.k.whitelist
      ensures Valid()
      ensures !old(initialized) ==> out == Threw(IllegalStateException) && unchanged(this, native, native.k, native.k.whitelist)
      ensures old(initialized) ==> out == Normal(()) && !initialized && currentInterface.None?
      ensures old(initialized) ==> native.k.whitelist.entries == map[] && native.IsReset()
      ensures old(initialized) && old(native.ifindex) > 0 ==> native.k.xdpAttached == old(native.k.xdpAttached) - {old(native.ifindex)}
      ensures old(initialized) && old(native.tcHookIfindex) > 0 ==> native.k.tcAttached == old(native.k.tcAttached) - {old(native.tcHookIfindex)}
      ensures old(initialized) ==> native.k.live == old(native.k.live) - Handles(old(native.tcObj)) - Handles(old(native.xdpObj))
      ensures tcProgPath == old(tcProgPath) && xdpProgPath == old(xdpProgPath)
    {
      var guard := EnsureInitialized();
      if guard.Threw? {
        return Threw(guard.exception);
      }
      native.Cleanup();
      initialized := false;
      currentInterface := None;
      return Normal(());
    }

    /** clearWhitelist over blackhole_clear_whitelist as written. */
    method ClearWhitelistAsWritten() returns (out: Outcome<int>)
      requires Valid()
      modifies native`whitelistIps, native.k.whitelist
      ensures Valid()
      ensures !initialized ==> out == Threw(IllegalStateException) && unchanged(native, native.k.whitelist)
      ensures initialized ==> out == Normal(0) && native.whitelistIps == []
      ensures initialized ==>
        native.k.whitelist.entries == ClearedAsWritten(old(native.k.whitelist.entries), old(native.k.whitelist.order))
    {
      var guard := EnsureInitialized();
      if guard.Threw? {
        return Threw(guard.exception);
      }
      var ret := native.ClearWhitelistAsWritten();
      return Normal(ret);
    }

    /** cleanup over blackhole_cleanup as written. */
    method CleanupAsWritten() returns (out: Outcome<()>)
      requires Valid()
      modifies this, native, native.k, native.k.whitelist
      ensures Valid()
      ensures !old(initialized) ==> out == Threw(IllegalStateException) && unchanged(this, native, native.k, native.k.whitelist)
      ensures old(initialized) ==> out == Normal(()) && !initialized && currentInterface.None? && native.IsReset()
      ensures old(initialized) ==>
        native.k.whitelist.entries == ClearedAsWritten(old(native.k.whitelist.entries), old(native.k.whitelist.order))
      ensures old(initialized) ==> native.k.live == old(native.k.live) - Handles(old(native.tcObj)) - Handles(old(native.xdpObj))
      ensures tcProgPath == old(tcProgPath) && xdpProgPath == old(xdpProgPath)
    {
      var guard := EnsureInitialized();
      if guard.Threw? {
        return Threw(guard.exception);
      }
      native.CleanupAsWritten();
      initialized := false;
      currentInterface := None;
      return Normal(());
    }

    /** The lifecycle the facade documents: cleanup of an initialized facade,
        then init on an interface that exists, with the objects already
        extracted and every library call succeeding, initializes it again. */
    method Reinitialize(ifname: string) returns (out: Outcome<int>)
      requires Valid() && initialized && tcProgPath.Some? && xdpProgPath.Some?
      requires ifname in native.k.interfaces
      modifies this, native, native.k, native.k.whitelist
      ensures Valid()
      ensures out == Normal(0) && initialized && currentInterface == Some(ifname)
    {
      var done := Cleanup();
      out := Init(ifname, ExtractIo(None, None), None);
    }
  }
}
