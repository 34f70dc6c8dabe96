// perform_sync of controller/vpnhub-controller.py and the steps it is made of, run against a
// kernel whose checked commands may fail at any point.

module Sync {
  import opened Seqs
  import opened Ipv4
  import opened Records
  import opened Registry
  import opened Payload
  import opened Validation
  import opened ValidationFacts
  import opened Nftables
  import opened Host
  import opened SyncSpec

  // ----- checks before anything changes

  /** check_route_conflicts */
  method CheckRouteConflicts(s: State, k: Kernel) returns (ok: bool)
    ensures ok <==> NoConflict(s, k.net)
  {
    var rows := k.HostRoutes();
    var protectedRows: seq<Row> := [];
    for i := 0 to |rows|
      invariant forall row :: row in protectedRows <==> row in rows[..i] && Protected(s, row)
    {
      if Protected(s, rows[i]) {
        protectedRows := protectedRows + [rows[i]];
      }
    }
    assert rows[..|rows|] == rows;
    ok := true;
    for i := 0 to |s|
      invariant ok <==> forall dst :: Wanted(s[..i], dst) ==> ClearOf(dst, protectedRows)
    {
      var clear := true;
      if s[i].enabled {
        clear := AllClear(s[i].routes, protectedRows);
      }
      WantedOneMore(s, i);
      ok := ok && clear;
    }
    assert s[..|s|] == s;
    assert ok <==> NoConflict(s, k.net) by {
      if ok {
        forall dst, row | Wanted(s, dst) && Listed(k.net, row) && Protected(s, row)
          ensures !Overlaps(dst, row.dst)
        {
          assert ClearOf(dst, protectedRows);
        }
      }
    }
  }

  lemma WantedOneMore(s: State, i: nat)
    requires i < |s|
    ensures forall dst :: Wanted(s[..i + 1], dst) <==> Wanted(s[..i], dst) || (s[i].enabled && dst in s[i].routes)
  {
    TakeOneMore(s, i);
    forall dst
      ensures Wanted(s[..i + 1], dst) <==> Wanted(s[..i], dst) || (s[i].enabled && dst in s[i].routes)
    {
      if Wanted(s[..i], dst) {
        var x :| x in s[..i] && x.enabled && dst in x.routes;
        assert x in s[..i + 1];
      }
      if s[i].enabled && dst in s[i].routes {
        assert s[i] in s[..i + 1];
      }
    }
  }

  predicate ClearOf(dst: Network, rows: seq<Row>) {
    forall row :: row in rows ==> !Overlaps(dst, row.dst)
  }

  method AllClear(dsts: seq<Network>, rows: seq<Row>) returns (clear: bool)
    ensures clear <==> forall dst :: dst in dsts ==> ClearOf(dst, rows)
  {
    clear := true;
    for i := 0 to |dsts|
      invariant clear <==> forall dst :: dst in dsts[..i] ==> ClearOf(dst, rows)
    {
      var one := true;
      for j := 0 to |rows|
        invariant one <==> ClearOf(dsts[i], rows[..j])
      {
        assert rows[..j + 1] == rows[..j] + [rows[j]];
        one := one && !Overlaps(dsts[i], rows[j].dst);
      }
      assert rows[..|rows|] == rows;
      assert dsts[..i + 1] == dsts[..i] + [dsts[i]];
      clear := clear && one;
    }
    assert dsts[..|dsts|] == dsts;
  }

  predicate KeysPresent(s: State, keys: KeyFiles) {
    forall x :: x in s && x.enabled ==> x.record.keyPath in keys
  }

  type WgFiles = map<Device, WgConfig>

  predicate FilesFor(s: State, keys: KeyFiles, files: WgFiles) {
    forall x :: x in s && x.enabled ==> x.Dev() in files && files[x.Dev()] == ConfigOf(x, keys)
  }

  /** prepare_files: one WireGuard configuration per enabled trunk, and the nft file, which is
      checked with `nft -c`. */
  method PrepareFiles(s: State, keys: KeyFiles, k: Kernel)
    returns (ok: bool, files: WgFiles, nftFile: NftFile)
    requires NetOk(k.net) && DistinctDevices(s)
    modifies k
    ensures k.net == old(k.net)
    ensures ok ==> KeysPresent(s, keys) && FilesFor(s, keys, files) && Loadable(Compile(s))
    ensures ok ==> nftFile == NftFile(k.net.nft.Some?, Compile(s)) && k.count == old(k.count) + 1
    ensures k.Benign() && KeysPresent(s, keys) && Loadable(Compile(s)) ==> ok
  {
    files := map[];
    nftFile := NftFile(false, Ruleset([], [], []));
    for i := 0 to |s|
      invariant forall j :: 0 <= j < i && s[j].enabled ==>
        && s[j].record.keyPath in keys
        && s[j].Dev() in files && files[s[j].Dev()] == ConfigOf(s[j], keys)
    {
      if s[i].enabled {
        if s[i].record.keyPath !in keys {
          return false, files, nftFile;
        }
        files := files[s[i].Dev() := ConfigOf(s[i], keys)];
      }
    }
    nftFile := RenderNftables(s, k.net.nft.Some?);
    ok := k.Run(NftCheck(nftFile), true, Frame({}, {}));
  }

  // ----- activation

  /** ensure_kernel_state */
  method EnsureKernelState(x: Instance, k: Kernel, ghost f: Frame) returns (ok: bool)
    requires NetOk(k.net) && x.Dev() in f.devs && RouteOf(x) in f.managed
    modifies k
    ensures NetOk(k.net) && Contained(f, old(k.net), k.net) && k.net.ipForward == old(k.net.ipForward)
    ensures ok ==> k.net == old(k.net).(links := old(k.net).links[x.Dev() :=
      Link(true, AddAddress(LinkOr(old(k.net).links, x.Dev()).addresses, x.record.serverAddress),
           LinkOr(old(k.net).links, x.Dev()).wg)])
    ensures k.Benign() ==> ok
  {
    var d := x.Dev();
    if d !in k.net.links {
      ok := k.Run(LinkAdd(d), true, f);
      if !ok {
        return;
      }
    }
    ok := k.Run(AddressReplace(x.record.serverAddress, d), true, f);
    if !ok {
      return;
    }
    ok := k.Run(LinkUp(d), true, f);
  }

  /** apply_routes */
  method ApplyRoutes(x: Instance, k: Kernel, ghost f: Frame) returns (ok: bool)
    requires NetOk(k.net) && x.Dev() in f.devs && RouteOf(x) in f.managed
    requires x.Dev() in k.net.links && k.net.links[x.Dev()].up
    requires forall dst :: dst in x.routes ==> Free(f.devs, k.net, dst)
    modifies k
    ensures NetOk(k.net) && Contained(f, old(k.net), k.net) && k.net.ipForward == old(k.net.ipForward)
    ensures ok ==> k.net == old(k.net).(routes :=
      Replaced(RoutesExcept(old(k.net).routes, RouteOf(x)), x.routes, RouteOf(x)))
    ensures k.Benign() ==> ok
  {
    var protocol := x.record.routeProtocol;
    ghost var flushed := RoutesExcept(k.net.routes, RouteOf(x));
    ok := k.Run(RouteFlush(protocol, x.Dev()), false, f);
    for i := 0 to |x.routes|
      invariant NetOk(k.net) && Contained(f, old(k.net), k.net)
      invariant k.net == old(k.net).(routes := Replaced(flushed, x.routes[..i], RouteOf(x)))
    {
      assert x.routes[i] in x.routes;
      ok := k.Run(RouteReplace(x.routes[i], x.Dev(), protocol), true, f);
      if !ok {
        return;
      }
      ReplacedOneMore(flushed, x.routes, i, RouteOf(x));
    }
    assert x.routes[..|x.routes|] == x.routes;
    ok := true;
  }

  lemma ReplacedOneMore(routes: map<Network, Route>, dsts: seq<Network>, i: nat, r: Route)
    requires i < |dsts|
    ensures Replaced(routes, dsts[..i], r)[dsts[i] := r] == Replaced(routes, dsts[..i + 1], r)
  {
    assert dsts[..i + 1] == dsts[..i] + [dsts[i]];
  }

  /** deactivate_instance */
  method DeactivateInstance(x: Instance, k: Kernel, ghost f: Frame)
    requires NetOk(k.net) && x.Dev() in f.devs && RouteOf(x) in f.managed
    modifies k
    ensures NetOk(k.net) && Contained(f, old(k.net), k.net)
    ensures k.net == old(k.net).(links := old(k.net).links - {x.Dev()},
                                 routes := RoutesOff(old(k.net).routes, x.Dev()))
  {
    var _ := k.Run(RouteFlush(x.record.routeProtocol, x.Dev()), false, f);
    if x.Dev() in k.net.links {
      var _ := k.Run(LinkDelete(x.Dev()), false, f);
    }
    assert k.net.routes == RoutesOff(old(k.net).routes, x.Dev());
    assert k.net.links == old(k.net).links - {x.Dev()};
  }

  /** The body of the apply loop for one trunk. */
  method ActivateOrNot(x: Instance, keys: KeyFiles, files: WgFiles, k: Kernel, ghost f: Frame)
    returns (ok: bool)
    requires NetOk(k.net) && x.Dev() in f.devs && RouteOf(x) in f.managed
    requires x.enabled ==> x.Dev() in files && files[x.Dev()] == ConfigOf(x, keys)
    requires x.enabled ==> forall dst :: dst in x.routes ==> Free(f.devs, k.net, dst)
    modifies k
    ensures NetOk(k.net) && Contained(f, old(k.net), k.net) && k.net.ipForward == old(k.net.ipForward)
    ensures ok ==> k.net == Stepped(x, keys, old(k.net))
    ensures k.Benign() ==> ok
  {
    if !x.enabled {
      DeactivateInstance(x, k, f);
      return true;
    }
    ok := EnsureKernelState(x, k, f);
    if !ok {
      return;
    }
    ok := k.Run(WgSyncconf(x.Dev(), files[x.Dev()]), true, f);
    if !ok {
      return;
    }
    assert k.net.links[x.Dev()] == Configured(x, keys, old(k.net.links));
    ok := ApplyRoutes(x, k, f);
  }

  /** One turn of the apply loop. */
  method ActivateNext(reg: Instances, s: State, i: nat, keys: KeyFiles, files: WgFiles, k: Kernel, ghost start: Net)
    returns (ok: bool)
    requires NetOk(k.net) && ValidRegistry(reg) && Validated(reg, s) && NoConflict(s, start)
    requires FilesFor(s, keys, files) && i < |s|
    requires Contained(FrameOf(s), start, k.net) && Synced(s[..i], keys, start, k.net)
    modifies k
    ensures NetOk(k.net) && Contained(FrameOf(s), start, k.net) && k.net.ipForward == old(k.net.ipForward)
    ensures ok ==> Synced(s[..i + 1], keys, start, k.net) && k.net.nft == old(k.net.nft)
    ensures k.Benign() ==> ok
  {
    ghost var before := k.net;
    StepAllowed(reg, s, i, start, k.net);
    SyncedOneMore(s, i, keys, start, k.net);
    ok := ActivateOrNot(s[i], keys, files, k, FrameOf(s));
    LeavesTwice(ManagedRoutes(s), start, before, k.net);
  }

  /** The apply loop, from a host that differs from `start` in the forwarding switch only. */
  method ActivateAll(reg: Instances, s: State, keys: KeyFiles, files: WgFiles, k: Kernel, ghost start: Net)
    returns (ok: bool)
    requires NetOk(k.net) && ValidRegistry(reg) && Validated(reg, s) && NoConflict(s, start)
    requires FilesFor(s, keys, files) && SameHost(start, k.net)
    modifies k
    ensures NetOk(k.net) && Contained(FrameOf(s), start, k.net) && k.net.ipForward == old(k.net.ipForward)
    ensures ok ==> Synced(s, keys, start, k.net) && k.net.nft == start.nft
    ensures k.Benign() ==> ok
  {
    SyncedNone(keys, start, k.net);
    for i := 0 to |s|
      invariant NetOk(k.net) && Contained(FrameOf(s), start, k.net)
      invariant Synced(s[..i], keys, start, k.net)
      invariant k.net.nft == start.nft && k.net.ipForward == old(k.net.ipForward)
    {
      ok := ActivateNext(reg, s, i, keys, files, k, start);
      if !ok {
        return;
      }
    }
    assert s[..|s|] == s;
    ok := true;
  }

  /** Everything inside the try block: forwarding, all trunks, the nft file. */
  method Apply(reg: Instances, s: State, keys: KeyFiles, files: WgFiles, nftFile: NftFile, k: Kernel)
    returns (ok: bool)
    requires NetOk(k.net) && ValidRegistry(reg) && Validated(reg, s) && NoConflict(s, k.net)
    requires FilesFor(s, keys, files)
    requires nftFile == NftFile(k.net.nft.Some?, Compile(s)) && Loadable(Compile(s))
    modifies k
    ensures NetOk(k.net) && Contained(FrameOf(s), old(k.net), k.net)
    ensures ok ==> Applied(s, keys, old(k.net), k.net)
    ensures k.net.ipForward == (old(k.net.ipForward) || !k.replies(old(k.count)).Failure?)
    ensures k.Benign() ==> ok
  {
    ghost var start := k.net;
    ok := k.Run(EnableForwarding, true, FrameOf(s));
    if !ok {
      return;
    }
    ok := ActivateAll(reg, s, keys, files, k, start);
    if !ok {
      return;
    }
    ghost var synced := k.net;
    ok := k.Run(NftLoad(nftFile), true, FrameOf(s));
    LeavesTwice(ManagedRoutes(s), start, synced, k.net);
    if ok {
      SyncedSame(s, keys, start, synced, k.net);
    }
  }

  lemma StepAllowed(reg: Instances, s: State, i: nat, start: Net, n: Net)
    requires i < |s| && ValidRegistry(reg) && Validated(reg, s) && NoConflict(s, start)
    requires SameOutside(Interfaces(s), start, n)
    ensures s[i] in s && s[i].Dev() in Interfaces(s)
    ensures s[i].enabled ==> forall dst :: dst in s[i].routes ==> Free(Interfaces(s), n, dst)
  {
    assert s[i] in s;
    forall dst | s[i].enabled && dst in s[i].routes ensures Free(Interfaces(s), n, dst) {
      assert Wanted(s, dst);
      WantedIsFree(reg, s, start, dst);
    }
  }

  lemma DevNotBefore(s: State, i: nat)
    requires i < |s| && DistinctDevices(s)
    ensures s[i].Dev() !in Interfaces(s[..i])
  {
  }

  lemma SyncedOneMore(s: State, i: nat, keys: KeyFiles, start: Net, n: Net)
    requires i < |s| && DistinctDevices(s) && PairwiseDisjoint(AllRoutes(s))
    requires Synced(s[..i], keys, start, n)
    ensures Synced(s[..i + 1], keys, start, Stepped(s[i], keys, n))
  {
    TakeOneMore(s, i);
    forall dst | s[i].enabled && dst in s[i].routes ensures !Wanted(s[..i], dst) {
      RoutesApart(s, i, dst);
    }
    DevNotBefore(s, i);
    SyncedStep(s[..i], s[i], keys, start, n);
  }

  /** From every host there is a state in which the trunks are synchronized. */
  lemma SyncExists(s: State, keys: KeyFiles, a: Net) returns (b: Net)
    requires DistinctDevices(s) && PairwiseDisjoint(AllRoutes(s))
    ensures Applied(s, keys, a, b)
  {
    var n := a;
    SyncedNone(keys, a, n);
    for i := 0 to |s|
      invariant Synced(s[..i], keys, a, n)
    {
      SyncedOneMore(s, i, keys, a, n);
      n := Stepped(s[i], keys, n);
    }
    assert s[..|s|] == s;
    b := n.(nft := Some(Compile(s)), ipForward := true);
    SyncedSame(s, keys, a, n, b);
  }

  // ----- snapshot and rollback

  datatype IfaceSnapshot = IfaceSnapshot(
    existed: bool, wg: Option<WgConfig>, addresses: seq<Interface>, routes: seq<Network>)

  datatype Snapshot = Snapshot(interfaces: map<Device, IfaceSnapshot>, nft: Option<Ruleset>)

  /** The snapshot of one interface holds what `n` has of it. */
  ghost predicate Captures(x: Instance, n: Net, snap: IfaceSnapshot) {
    var d := x.Dev();
    && snap.existed == (d in n.links)
    && (snap.existed ==> snap.wg == Some(n.links[d].wg) && snap.addresses == n.links[d].addresses)
    && (forall dst :: dst in snap.routes <==> OwnRoute(x, n, dst))
  }

  /** capture_interface */
  method CaptureInterface(x: Instance, k: Kernel) returns (snap: IfaceSnapshot)
    ensures Captures(x, k.net, snap)
  {
    var d := x.Dev();
    var wg, addresses := None, [];
    if d in k.net.links {
      wg := Some(k.net.links[d].wg);
      addresses := k.net.links[d].addresses;
    }
    var own := set dst | dst in k.net.routes && k.net.routes[dst] == RouteOf(x);
    var routes := Listing(own);
    snap := IfaceSnapshot(d in k.net.links, wg, addresses, routes);
  }

  /** capture_runtime_state */
  method CaptureRuntimeState(s: State, k: Kernel) returns (snap: Snapshot)
    requires DistinctDevices(s)
    ensures forall x :: x in s ==> x.Dev() in snap.interfaces && Captures(x, k.net, snap.interfaces[x.Dev()])
    ensures snap.nft == k.net.nft
  {
    var interfaces: map<Device, IfaceSnapshot> := map[];
    for i := 0 to |s|
      invariant forall j :: 0 <= j < i ==>
        s[j].Dev() in interfaces && Captures(s[j], k.net, interfaces[s[j].Dev()])
    {
      var one := CaptureInterface(s[i], k);
      interfaces := interfaces[s[i].Dev() := one];
    }
    snap := Snapshot(interfaces, k.net.nft);
  }

  /** The route table after the IPv4 addresses of a link are flushed. */
  function AfterFlush(n: Net, d: Device): map<Network, Route> {
    if HasAddress(n, d) then RoutesOff(n.routes, d) else n.routes
  }

  /** The address loop of restore_interface. */
  method RestoreAddresses(d: Device, addresses: seq<Interface>, k: Kernel, ghost f: Frame)
    requires NetOk(k.net) && d in f.devs && d in k.net.links && Distinct(addresses)
    modifies k
    ensures NetOk(k.net) && Contained(f, old(k.net), k.net)
    ensures k.net == old(k.net).(links := old(k.net).links[d := old(k.net).links[d].(addresses := addresses)],
                                 routes := AfterFlush(old(k.net), d))
  {
    var _ := k.Run(AddressFlush(d), false, f);
    for i := 0 to |addresses|
      invariant NetOk(k.net) && Contained(f, old(k.net), k.net)
      invariant k.net == old(k.net).(
        links := old(k.net).links[d := old(k.net).links[d].(addresses := addresses[..i])],
        routes := AfterFlush(old(k.net), d))
    {
      TakeOneMore(addresses, i);
      var _ := k.Run(AddressAdd(addresses[i], d), false, f);
    }
    assert addresses[..|addresses|] == addresses;
  }

  /** The route loop of restore_interface. */
  method RestoreRoutes(x: Instance, dsts: seq<Network>, k: Kernel, ghost f: Frame)
    requires NetOk(k.net) && x.Dev() in f.devs && RouteOf(x) in f.managed
    requires x.Dev() in k.net.links && k.net.links[x.Dev()].up
    requires forall dst :: dst in dsts ==> Free(f.devs, k.net, dst)
    modifies k
    ensures NetOk(k.net) && Contained(f, old(k.net), k.net)
    ensures k.net == old(k.net).(routes := Replaced(RoutesExcept(old(k.net).routes, RouteOf(x)), dsts, RouteOf(x)))
  {
    ghost var flushed := RoutesExcept(k.net.routes, RouteOf(x));
    var _ := k.Run(RouteFlush(x.record.routeProtocol, x.Dev()), false, f);
    for i := 0 to |dsts|
      invariant NetOk(k.net) && Contained(f, old(k.net), k.net)
      invariant k.net == old(k.net).(routes := Replaced(flushed, dsts[..i], RouteOf(x)))
    {
      assert dsts[i] in dsts;
      var _ := k.Run(RouteReplace(dsts[i], x.Dev(), x.record.routeProtocol), false, f);
      ReplacedOneMore(flushed, dsts, i, RouteOf(x));
    }
    assert dsts[..|dsts|] == dsts;
  }

  /** The link is there, with these addresses. */
  method RestoreDevice(d: Device, addresses: seq<Interface>, k: Kernel, ghost f: Frame)
    requires NetOk(k.net) && d in f.devs && Distinct(addresses)
    modifies k
    ensures NetOk(k.net) && Contained(f, old(k.net), k.net)
    ensures k.net == old(k.net).(
      links := old(k.net).links[d := LinkOr(old(k.net).links, d).(addresses := addresses)],
      routes := AfterFlush(old(k.net), d))
  {
    ghost var start := k.net;
    if d !in k.net.links {
      var _ := k.Run(LinkAdd(d), false, f);
    }
    ghost var added := k.net;
    RestoreAddresses(d, addresses, k, f);
    LeavesTwice(f.managed, start, added, k.net);
  }

  /** The commands of restore_interface before those that concern routes. */
  method RestoreLink(x: Instance, snap: IfaceSnapshot, k: Kernel, ghost orig: Net, ghost f: Frame)
    requires NetOk(orig) && NetOk(k.net) && Captures(x, orig, snap) && snap.existed && x.Dev() in f.devs
    modifies k
    ensures NetOk(k.net) && Contained(f, old(k.net), k.net)
    ensures k.net == old(k.net).(links := old(k.net).links[x.Dev() := orig.links[x.Dev()].(up := true)],
                                 routes := AfterFlush(old(k.net), x.Dev()))
  {
    var d := x.Dev();
    ghost var start := k.net;
    RestoreDevice(d, snap.addresses, k, f);
    ghost var there := k.net;
    if snap.wg.Some? {
      var _ := k.Run(WgSyncconf(d, snap.wg.value), false, f);
    }
    var _ := k.Run(LinkUp(d), false, f);
    LeavesTwice(f.managed, start, there, k.net);
    assert k.net.links[d] == orig.links[d].(up := true);
  }

  /** restore_interface */
  method RestoreInterface(x: Instance, snap: IfaceSnapshot, k: Kernel, ghost orig: Net, ghost f: Frame)
    requires NetOk(orig) && NetOk(k.net) && Captures(x, orig, snap)
    requires x.Dev() in f.devs && RouteOf(x) in f.managed && Contained(f, orig, k.net)
    modifies k
    ensures NetOk(k.net) && Contained(f, orig, k.net)
    ensures k.net == RestoredStep(x, orig, old(k.net))
  {
    var d := x.Dev();
    ghost var start := k.net;
    if !snap.existed {
      if d in k.net.links {
        var _ := k.Run(LinkDelete(d), false, f);
      }
      assert k.net.routes == RoutesOff(start.routes, d);
      assert k.net.links == start.links - {d};
      return;
    }
    RestoreLink(x, snap, k, orig, f);
    ghost var linked := k.net;
    LeavesTwice(f.managed, orig, start, linked);
    OwnRoutesFree(x, orig, linked, f.devs);
    RestoreRoutes(x, snap.routes, k, f);
    LeavesTwice(f.managed, orig, linked, k.net);
    RestoredRoutesStep(x, orig, start, snap.routes);
  }

  lemma OwnRoutesFree(x: Instance, orig: Net, n: Net, devs: set<Device>)
    requires x.Dev() in devs && SameOutside(devs, orig, n)
    ensures forall dst :: OwnRoute(x, orig, dst) ==> Free(devs, n, dst)
  {
    forall dst | OwnRoute(x, orig, dst) ensures Free(devs, n, dst) {
      assert dst !in RoutesOutside(devs, orig);
    }
  }

  lemma RestoredRoutesStep(x: Instance, orig: Net, start: Net, dsts: seq<Network>)
    requires x.Dev() in orig.links && forall dst :: dst in dsts <==> OwnRoute(x, orig, dst)
    ensures Replaced(RoutesExcept(AfterFlush(start, x.Dev()), RouteOf(x)), dsts, RouteOf(x))
            == RestoredStep(x, orig, start).routes
  {
  }

  lemma ManagedOfTrunk(s: State, x: Instance)
    requires DistinctDevices(s) && x in s
    ensures RouteOf(x) in ManagedRoutes(s)
    ensures forall r :: r in ManagedRoutes(s) && r.dev == x.Dev() ==> r == RouteOf(x)
  {
    forall r | r in ManagedRoutes(s) && r.dev == x.Dev() ensures r == RouteOf(x) {
      var y :| y in s && RouteOf(y) == r;
      DeviceUnique(s, x, y);
    }
  }

  /** restore_runtime_state: whatever the partial apply did inside the registered devices, the
      result is the restored state; only the forwarding switch is not put back. */
  method RestoreRuntimeState(s: State, snap: Snapshot, k: Kernel, ghost orig: Net)
    requires NetOk(orig) && NetOk(k.net) && DistinctDevices(s)
    requires Contained(FrameOf(s), orig, k.net)
    requires snap.nft == orig.nft && (snap.nft.Some? ==> Loadable(snap.nft.value))
    requires forall x :: x in s ==> x.Dev() in snap.interfaces && Captures(x, orig, snap.interfaces[x.Dev()])
    modifies k
    ensures NetOk(k.net) && SameOutside(Interfaces(s), orig, k.net)
    ensures RolledBackTo(s, orig, k.net) && k.net.ipForward == old(k.net.ipForward)
  {
    ghost var f := FrameOf(s);
    var _ := k.Run(NftDelete, false, f);
    if snap.nft.Some? {
      var _ := k.Run(NftLoad(NftFile(false, snap.nft.value)), false, f);
    }
    assert k.net.nft == orig.nft;
    for i := 0 to |s|
      invariant NetOk(k.net) && Contained(f, orig, k.net)
      invariant Restored(s[..i], orig, k.net)
      invariant k.net.nft == orig.nft && k.net.ipForward == old(k.net.ipForward)
    {
      TakeOneMore(s, i);
      DevNotBefore(s, i);
      assert s[i] in s;
      ManagedOfTrunk(s, s[i]);
      RestoredAppend(s[..i], s[i], orig, k.net, f.managed);
      RestoreInterface(s[i], snap.interfaces[s[i].Dev()], k, orig, f);
    }
    assert s[..|s|] == s;
    RestoredIsRolledBack(s, orig, k.net);
  }

  // ----- links of the trunks

  lemma SyncedLinksUp(s: State, keys: KeyFiles, a: Net, b: Net)
    requires LinksSynced(s, keys, a.links, b.links)
    ensures LinksUp(Interfaces(s), b)
  {
    forall d | d in Interfaces(s) && d in b.links ensures b.links[d].up {
      var x :| x in s && x.Dev() == d;
      assert x.enabled;
    }
  }

  // ----- perform_sync

  datatype Outcome = Invalid | Conflict | Unprepared | DryRun | Synchronized | RolledBack

  /** The validated state of a payload whose trunks are in order. */
  function StateOf(reg: Instances, raws: seq<RawInstance>): State {
    if TrunksOk(reg, raws) then SortById(ToInstances(reg, raws)) else []
  }

  /** A payload against which nothing speaks: it is valid, its Networks are free, the private keys
      are there and the sets load. */
  ghost predicate Passes(reg: Instances, keys: KeyFiles, raws: seq<RawInstance>, n: Net) {
    && Acceptable(reg, raws)
    && NoConflict(StateOf(reg, raws), n)
    && KeysPresent(StateOf(reg, raws), keys)
    && Loadable(Compile(StateOf(reg, raws)))
  }

  /** The snapshot, the try block and its except clause. */
  method ApplyOrRollBack(reg: Instances, s: State, keys: KeyFiles, files: WgFiles, nftFile: NftFile, k: Kernel)
    returns (ok: bool)
    requires NetOk(k.net) && ValidRegistry(reg) && Validated(reg, s) && NoConflict(s, k.net)
    requires FilesFor(s, keys, files)
    requires nftFile == NftFile(k.net.nft.Some?, Compile(s)) && Loadable(Compile(s))
    requires k.net.nft.Some? ==> Loadable(k.net.nft.value)
    modifies k
    ensures NetOk(k.net) && SameOutside(Interfaces(s), old(k.net), k.net)
    ensures ok ==> Applied(s, keys, old(k.net), k.net)
    ensures !ok ==> RolledBackTo(s, old(k.net), k.net)
    ensures k.net.ipForward == (old(k.net.ipForward) || !k.replies(old(k.count)).Failure?)
    ensures k.Benign() ==> ok
  {
    var snap := CaptureRuntimeState(s, k);
    ghost var orig := k.net;
    ok := Apply(reg, s, keys, files, nftFile, k);
    if !ok {
      RestoreRuntimeState(s, snap, k, orig);
    }
  }

  /** The rest of perform_sync, for a validated state. */
  method SyncState(reg: Instances, s: State, keys: KeyFiles, k: Kernel, dryRun: bool) returns (r: Outcome)
    requires NetOk(k.net) && ValidRegistry(reg) && Validated(reg, s)
    requires k.net.nft.Some? ==> Loadable(k.net.nft.value)
    modifies k
    ensures NetOk(k.net) && (k.net.nft.Some? ==> Loadable(k.net.nft.value))
    ensures SameOutside(Interfaces(s), old(k.net), k.net)
    ensures !r.Invalid? && (r.Conflict? <==> !NoConflict(s, old(k.net)))
    ensures r.Unprepared? || r.Conflict? || r.DryRun? ==> k.net == old(k.net)
    ensures r.Synchronized? ==> Applied(s, keys, old(k.net), k.net)
    ensures r.RolledBack? ==> RolledBackTo(s, old(k.net), k.net)
    ensures r.RolledBack? ==> k.net.ipForward == (old(k.net.ipForward) || !k.replies(old(k.count) + 1).Failure?)
    ensures dryRun ==> !r.Synchronized? && !r.RolledBack?
    ensures r.DryRun? ==> dryRun
    ensures r.Synchronized? || r.DryRun? || r.RolledBack? ==> KeysPresent(s, keys) && Loadable(Compile(s))
    ensures k.Benign() && NoConflict(s, old(k.net)) && KeysPresent(s, keys) && Loadable(Compile(s)) ==>
      r == if dryRun then DryRun else Synchronized
    ensures k.Benign() ==> !r.RolledBack?
  {
    var clear := CheckRouteConflicts(s, k);
    if !clear {
      return Conflict;
    }
    var prepared, files, nftFile := PrepareFiles(s, keys, k);
    if !prepared {
      return Unprepared;
    }
    if dryRun {
      return DryRun;
    }
    var ok := ApplyOrRollBack(reg, s, keys, files, nftFile, k);
    return if ok then Synchronized else RolledBack;
  }

  /** perform_sync.  A run either changes nothing, or synchronizes the host completely, or fails
      inside the apply block and rolls back; in no case does it touch a link or a route outside
      the registered devices. */
  method PerformSync(k: Kernel, reg: Instances, keys: KeyFiles, raws: seq<RawInstance>, dryRun: bool)
    returns (r: Outcome)
    requires NetOk(k.net) && ValidRegistry(reg)
    requires k.net.nft.Some? ==> Loadable(k.net.nft.value)
    modifies k
    ensures NetOk(k.net) && (k.net.nft.Some? ==> Loadable(k.net.nft.value))
    ensures r.Invalid? <==> !Acceptable(reg, raws)
    ensures SameOutside(reg.Keys, old(k.net), k.net)
    ensures !r.Synchronized? && !r.RolledBack? ==> k.net == old(k.net)
    ensures !r.Invalid? ==>
      (r.Conflict? <==> !NoConflict(StateOf(reg, raws), old(k.net)))
    ensures r.Synchronized? ==> Applied(StateOf(reg, raws), keys, old(k.net), k.net)
    ensures r.RolledBack? ==> RolledBackTo(StateOf(reg, raws), old(k.net), k.net)
    // the forwarding switch is not put back: it stays on once the first command has had its effect
    ensures r.RolledBack? ==> k.net.ipForward == (old(k.net.ipForward) || !k.replies(old(k.count) + 1).Failure?)
    ensures dryRun ==> k.net == old(k.net) && !r.Synchronized? && !r.RolledBack?
    ensures r.DryRun? ==> dryRun
    // nothing but a missing key, an unloadable set or a failing command stands in the way
    ensures r.Synchronized? || r.DryRun? || r.RolledBack? ==> Passes(reg, keys, raws, old(k.net))
    ensures k.Benign() && Passes(reg, keys, raws, old(k.net)) ==> r == if dryRun then DryRun else Synchronized
    ensures k.Benign() ==> !r.RolledBack?
  {
    var validated := ValidateState(reg, raws);
    if validated.Err? {
      return Invalid;
    }
    AcceptedMatchesRegistry(reg, raws);
    r := SyncState(reg, validated.value, keys, k, dryRun);
  }
}
