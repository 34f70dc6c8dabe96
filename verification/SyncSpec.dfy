// What a synchronization is meant to do to the host, stated on values: the state after success,
// the state after a rollback, and the facts that relate them.

module SyncSpec {
  import opened Seqs
  import opened Ipv4
  import opened Records
  import opened Registry
  import opened Payload
  import opened Validation
  import opened ValidationFacts
  import opened Nftables
  import opened Host
  import Decimal

  type KeyFiles = map<KeyPath, nat>

  function WgPeers(peers: seq<Peer>): seq<WgPeer> {
    seq(|peers|, i requires 0 <= i < |peers| => WgPeer(peers[i].publicKey, peers[i].psk, peers[i].allowedIps))
  }

  /** render_wg_config, as the configuration it denotes. */
  function ConfigOf(x: Instance, keys: KeyFiles): WgConfig {
    WgConfig(if x.record.keyPath in keys then Some(keys[x.record.keyPath]) else None,
             x.record.listenPort, WgPeers(x.peers))
  }

  function RouteOf(x: Instance): Route {
    Route(x.Dev(), x.record.routeProtocol)
  }

  function LinkOr(links: map<Device, Link>, d: Device): Link {
    if d in links then links[d] else FRESH_LINK
  }

  /** The link of an enabled trunk after activation. */
  function Configured(x: Instance, keys: KeyFiles, links: map<Device, Link>): Link {
    Link(true, AddAddress(LinkOr(links, x.Dev()).addresses, x.record.serverAddress), ConfigOf(x, keys))
  }

  /** Route table after `replace` of every destination. */
  function Replaced(routes: map<Network, Route>, dsts: seq<Network>, r: Route): (m: map<Network, Route>)
    ensures forall dst :: dst in m <==> dst in routes || dst in dsts
    ensures forall dst :: dst in m ==> m[dst] == if dst in dsts then r else routes[dst]
  {
    var all := routes.Keys + set dst | dst in dsts;
    map dst | dst in all :: if dst in dsts then r else routes[dst]
  }

  /** One trunk activated or deactivated. */
  function Stepped(x: Instance, keys: KeyFiles, n: Net): Net {
    if x.enabled then
      n.(links := n.links[x.Dev() := Configured(x, keys, n.links)],
         routes := Replaced(RoutesExcept(n.routes, RouteOf(x)), x.routes, RouteOf(x)))
    else
      n.(links := n.links - {x.Dev()}, routes := RoutesOff(n.routes, x.Dev()))
  }

  // ----- success

  predicate Wanted(s: State, dst: Network) {
    exists x :: x in s && x.enabled && dst in x.routes
  }

  /** Routes that the synchronization of these trunks discards unless they are wanted. */
  predicate Flushed(s: State, r: Route) {
    exists x :: x in s && x.Dev() == r.dev && (x.enabled ==> r == RouteOf(x))
  }

  ghost predicate LinksSynced(s: State, keys: KeyFiles, a: map<Device, Link>, b: map<Device, Link>) {
    && (forall x :: x in s && x.enabled ==> x.Dev() in b && b[x.Dev()] == Configured(x, keys, a))
    && (forall x :: x in s && !x.enabled ==> x.Dev() !in b)
    && (forall d :: d !in Interfaces(s) ==> (d in a <==> d in b))
    && (forall d :: d !in Interfaces(s) && d in a ==> b[d] == a[d])
  }

  predicate RoutesSynced(s: State, a: map<Network, Route>, b: map<Network, Route>) {
    && (forall x, dst :: x in s && x.enabled && dst in x.routes ==> dst in b && b[dst] == RouteOf(x))
    && (forall dst :: dst in b && !Wanted(s, dst) ==> dst in a && b[dst] == a[dst] && !Flushed(s, a[dst]))
    && (forall dst :: dst in a && !Wanted(s, dst) && !Flushed(s, a[dst]) ==> dst in b)
  }

  /** Host state `b` is `a` with these trunks synchronized. */
  ghost predicate Synced(s: State, keys: KeyFiles, a: Net, b: Net) {
    && LinksSynced(s, keys, a.links, b.links)
    && RoutesSynced(s, a.routes, b.routes)
    && a.protocolNames == b.protocolNames
  }

  lemma SyncedNone(keys: KeyFiles, a: Net, b: Net)
    requires a.links == b.links && a.routes == b.routes && a.protocolNames == b.protocolNames
    ensures Synced([], keys, a, b)
  {
  }

  lemma SyncedSame(s: State, keys: KeyFiles, a: Net, b: Net, c: Net)
    requires Synced(s, keys, a, b) && b.(nft := c.nft, ipForward := c.ipForward) == c
    ensures Synced(s, keys, a, c)
  {
  }

  lemma LinksStep(s: State, y: Instance, keys: KeyFiles, a: Net, b: Net)
    requires LinksSynced(s, keys, a.links, b.links) && y.Dev() !in Interfaces(s)
    ensures LinksSynced(s + [y], keys, a.links, Stepped(y, keys, b).links)
  {
    var c := Stepped(y, keys, b).links;
    var t := s + [y];
    assert Interfaces(t) == Interfaces(s) + {y.Dev()} by {
      assert forall x :: x in t <==> x in s || x == y;
    }
    assert LinkOr(b.links, y.Dev()) == LinkOr(a.links, y.Dev());
    forall x | x in s ensures x.Dev() != y.Dev() {
      assert x.Dev() in Interfaces(s);
    }
  }

  lemma RoutesStep(s: State, y: Instance, keys: KeyFiles, a: Net, b: Net)
    requires RoutesSynced(s, a.routes, b.routes) && y.Dev() !in Interfaces(s)
    requires y.enabled ==> forall dst :: dst in y.routes ==> !Wanted(s, dst)
    ensures RoutesSynced(s + [y], a.routes, Stepped(y, keys, b).routes)
  {
    var c := Stepped(y, keys, b).routes;
    var t := s + [y];
    assert forall x :: x in t <==> x in s || x == y;
    forall x | x in s ensures x.Dev() != y.Dev() {
      assert x.Dev() in Interfaces(s);
    }
    forall dst ensures Wanted(t, dst) <==> Wanted(s, dst) || (y.enabled && dst in y.routes) {
      if Wanted(s, dst) {
        var x :| x in s && x.enabled && dst in x.routes;
        assert x in t;
      }
      if y.enabled && dst in y.routes {
        assert y in t;
      }
    }
    forall r ensures Flushed(t, r) <==> Flushed(s, r) || (y.Dev() == r.dev && (y.enabled ==> r == RouteOf(y))) {
      if Flushed(s, r) {
        var x :| x in s && x.Dev() == r.dev && (x.enabled ==> r == RouteOf(x));
        assert x in t;
      }
      if y.Dev() == r.dev && (y.enabled ==> r == RouteOf(y)) {
        assert y in t;
      }
    }
    forall x, dst | x in t && x.enabled && dst in x.routes ensures dst in c && c[dst] == RouteOf(x) {
      if x in s {
        assert Wanted(s, dst);
      }
    }
  }

  lemma SyncedStep(s: State, y: Instance, keys: KeyFiles, a: Net, b: Net)
    requires Synced(s, keys, a, b) && y.Dev() !in Interfaces(s)
    requires y.enabled ==> forall dst :: dst in y.routes ==> !Wanted(s, dst)
    ensures Synced(s + [y], keys, a, Stepped(y, keys, b))
  {
    LinksStep(s, y, keys, a, b);
    RoutesStep(s, y, keys, a, b);
  }

  lemma RoutesSplit(s: State, i: nat) returns (rest: seq<Network>)
    requires i < |s|
    ensures AllRoutes(s) == AllRoutes(s[..i]) + s[i].routes + rest
  {
    rest := AllRoutes(s[i + 1..]);
    AllRoutesAround(s, i);
  }

  lemma NoCommonElement(front: seq<Network>, own: seq<Network>, rest: seq<Network>, dst: Network)
    requires PairwiseDisjoint(front + own + rest) && dst in own
    ensures dst !in front
  {
    var all := front + own + rest;
    var k :| 0 <= k < |own| && own[k] == dst;
    assert all[|front| + k] == dst;
    forall j | 0 <= j < |front| ensures front[j] != dst {
      assert all[j] == front[j] && !Overlaps(all[j], all[|front| + k]);
    }
  }

  /** In a validated state the trunk at position i takes no destination wanted before it. */
  lemma RoutesApart(s: State, i: nat, dst: Network)
    requires i < |s| && PairwiseDisjoint(AllRoutes(s)) && dst in s[i].routes
    ensures !Wanted(s[..i], dst)
  {
    var rest := RoutesSplit(s, i);
    NoCommonElement(AllRoutes(s[..i]), s[i].routes, rest, dst);
  }

  // ----- route conflicts

  /** The route protocols of the trunks, as text. */
  function Protocols(s: State): set<string> {
    set x | x in s :: Decimal.Str(x.record.routeProtocol)
  }

  /** Rows that check_route_conflicts protects. */
  predicate Protected(s: State, row: Row) {
    && row.dst != DEFAULT_ROUTE
    && !(row.dev in Interfaces(s) && row.protocol in Protocols(s))
  }

  ghost predicate NoConflict(s: State, n: Net) {
    forall dst, row :: Wanted(s, dst) && Listed(n, row) && Protected(s, row) ==> !Overlaps(dst, row.dst)
  }

  lemma WantedIsRouted(s: State, dst: Network)
    requires Wanted(s, dst)
    ensures dst in AllRoutes(s)
  {
  }

  /** Wanted destinations are not the default route, because that meets every pool. */
  lemma WantedIsNotDefault(reg: Instances, s: State, dst: Network)
    requires ValidRegistry(reg) && Validated(reg, s) && Wanted(s, dst)
    ensures dst != DEFAULT_ROUTE
  {
    WantedIsRouted(s, dst);
    var x :| x in s && x.enabled && dst in x.routes;
    var i :| 0 <= i < |s| && s[i] == x;
    assert Pools(s)[i] == x.record.vpnPool && Pools(s)[i] in Pools(s);
    assert RecordOk(reg[x.Dev()]);
    DefaultMeetsAll(x.record.vpnPool);
  }

  lemma StoredIsUnprotected(s: State, n: Net, row: Row)
    requires NoConflict(s, n) && Stored(n, row) && Wanted(s, row.dst)
    ensures !Protected(s, row)
  {
    assert Listed(n, row) && Overlaps(row.dst, row.dst);
  }

  /** A wanted destination is never that of a route outside the registered devices, because
      such a route is protected. */
  lemma WantedIsFree(reg: Instances, s: State, n: Net, dst: Network)
    requires ValidRegistry(reg) && Validated(reg, s) && NoConflict(s, n) && Wanted(s, dst)
    ensures Free(Interfaces(s), n, dst)
  {
    WantedIsNotDefault(reg, s, dst);
    if dst in n.routes {
      StoredIsUnprotected(s, n, Row(dst, n.routes[dst].dev, Printed(n.protocolNames, n.routes[dst].protocol)));
    }
  }

  // ----- rollback

  predicate Managed(s: State, r: Route) {
    exists x :: x in s && RouteOf(x) == r
  }

  function ManagedRoutes(s: State): set<Route> {
    set x | x in s :: RouteOf(x)
  }

  /** What a synchronization of these trunks may touch. */
  function FrameOf(s: State): Frame {
    Frame(Interfaces(s), ManagedRoutes(s))
  }

  /** Routes that a rollback gives back: managed ones, and those of other devices. */
  predicate GivenBack(s: State, r: Route) {
    r.dev in Interfaces(s) ==> Managed(s, r)
  }

  function RestoredLinks(s: State, orig: Net): map<Device, Link> {
    map d | d in orig.links :: if d in Interfaces(s) then orig.links[d].(up := true) else orig.links[d]
  }

  /** What restore_runtime_state leaves: registered links as they were but up, their managed
      routes, everything outside the registry, and the nft table.  A foreign route on a trunk's
      device is gone, unless its link had no address that the rollback could flush; then it may
      have stayed. */
  ghost predicate RolledBackTo(s: State, orig: Net, b: Net) {
    && b.links == RestoredLinks(s, orig) && b.nft == orig.nft && b.protocolNames == orig.protocolNames
    && (forall dst :: dst in b.routes ==> dst in orig.routes && b.routes[dst] == orig.routes[dst])
    && (forall dst :: dst in orig.routes && GivenBack(s, orig.routes[dst]) ==> dst in b.routes)
    && (forall dst :: dst in b.routes && HasAddress(orig, b.routes[dst].dev) ==> GivenBack(s, b.routes[dst]))
  }

  /** One interface restored from the original state. */
  function RestoredStep(x: Instance, orig: Net, n: Net): Net {
    var d := x.Dev();
    if d !in orig.links then n.(links := n.links - {d}, routes := RoutesOff(n.routes, d))
    else
      n.(links := n.links[d := orig.links[d].(up := true)],
         routes := map dst | dst in n.routes.Keys + orig.routes.Keys &&
                     (OwnRoute(x, orig, dst) || StaysPut(x, n, dst)) ::
                     if OwnRoute(x, orig, dst) then RouteOf(x) else n.routes[dst])
  }

  predicate OwnRoute(x: Instance, orig: Net, dst: Network) {
    dst in orig.routes && orig.routes[dst] == RouteOf(x)
  }

  /** A route that the flushes of restore_interface do not remove. */
  predicate StaysPut(x: Instance, n: Net, dst: Network) {
    && dst in n.routes
    && (n.routes[dst].dev == x.Dev() ==> !HasAddress(n, x.Dev()) && n.routes[dst] != RouteOf(x))
  }

  /** A foreign route on a link without an address, as it was. */
  predicate Spared(x: Instance, orig: Net, n: Net, dst: Network) {
    && dst in n.routes && dst in orig.routes && n.routes[dst] == orig.routes[dst]
    && n.routes[dst] != RouteOf(x) && !HasAddress(orig, x.Dev())
  }

  /** The interfaces of the trunks of `s` are restored. */
  ghost predicate Restored(s: State, orig: Net, n: Net) {
    && (forall x :: x in s ==> (x.Dev() in orig.links <==> x.Dev() in n.links))
    && (forall x :: x in s && x.Dev() in orig.links ==> n.links[x.Dev()] == orig.links[x.Dev()].(up := true))
    && (forall x, dst :: x in s && OwnRoute(x, orig, dst) ==> dst in n.routes && n.routes[dst] == RouteOf(x))
    && (forall x, dst :: x in s && dst in n.routes && n.routes[dst].dev == x.Dev() ==>
          OwnRoute(x, orig, dst) || Spared(x, orig, n, dst))
  }

  lemma RestoredKept(s: State, y: Instance, orig: Net, n: Net)
    requires NetOk(orig) && Restored(s, orig, n) && y.Dev() !in Interfaces(s)
    ensures Restored(s, orig, RestoredStep(y, orig, n))
  {
    forall x | x in s ensures x.Dev() != y.Dev() {
      assert x.Dev() in Interfaces(s);
    }
  }

  lemma RestoredNew(y: Instance, orig: Net, n: Net, managed: set<Route>)
    requires NetOk(orig) && Leaves(managed, orig, n)
    requires forall r :: r in managed && r.dev == y.Dev() ==> r == RouteOf(y)
    ensures Restored([y], orig, RestoredStep(y, orig, n))
  {
    var m := RestoredStep(y, orig, n);
    forall dst | dst in m.routes && m.routes[dst].dev == y.Dev()
      ensures OwnRoute(y, orig, dst) || Spared(y, orig, m, dst)
    {
      if !OwnRoute(y, orig, dst) {
        assert StaysPut(y, n, dst) && n.routes[dst] !in managed;
      }
    }
  }

  lemma RestoredAppend(s: State, y: Instance, orig: Net, n: Net, managed: set<Route>)
    requires NetOk(orig) && Restored(s, orig, n) && y.Dev() !in Interfaces(s) && Leaves(managed, orig, n)
    requires forall r :: r in managed && r.dev == y.Dev() ==> r == RouteOf(y)
    ensures Restored(s + [y], orig, RestoredStep(y, orig, n))
  {
    RestoredKept(s, y, orig, n);
    RestoredNew(y, orig, n, managed);
    assert y in [y];
    assert forall x :: x in s + [y] <==> x in s || x in [y];
  }

  /** When every registered interface is restored and nothing outside has changed, the host is
      rolled back. */
  lemma RestoredIsRolledBack(s: State, orig: Net, n: Net)
    requires NetOk(orig) && Restored(s, orig, n) && SameOutside(Interfaces(s), orig, n) && n.nft == orig.nft
    ensures RolledBackTo(s, orig, n)
  {
    RestoredLinksExact(s, orig, n);
    forall dst | dst in n.routes
      ensures dst in orig.routes && n.routes[dst] == orig.routes[dst]
      ensures HasAddress(orig, n.routes[dst].dev) ==> GivenBack(s, n.routes[dst])
    {
      RestoredRoute(s, orig, n, dst);
    }
    forall dst | dst in orig.routes && GivenBack(s, orig.routes[dst]) ensures dst in n.routes {
      GivenRoute(s, orig, n, dst);
    }
  }

  lemma RestoredLinksExact(s: State, orig: Net, n: Net)
    requires Restored(s, orig, n) && SameOutside(Interfaces(s), orig, n)
    ensures n.links == RestoredLinks(s, orig)
  {
    var target := RestoredLinks(s, orig);
    forall d ensures d in n.links <==> d in target
    {
      if d in Interfaces(s) {
        var x :| x in s && x.Dev() == d;
      } else {
        assert d in n.links <==> d in LinksOutside(Interfaces(s), n);
        assert d in orig.links <==> d in LinksOutside(Interfaces(s), orig);
      }
    }
    forall d | d in n.links ensures n.links[d] == target[d] {
      if d in Interfaces(s) {
        var x :| x in s && x.Dev() == d;
      } else {
        assert n.links[d] == LinksOutside(Interfaces(s), n)[d];
      }
    }
  }

  lemma RestoredRoute(s: State, orig: Net, n: Net, dst: Network)
    requires Restored(s, orig, n) && SameOutside(Interfaces(s), orig, n) && dst in n.routes
    ensures dst in orig.routes && n.routes[dst] == orig.routes[dst]
    ensures HasAddress(orig, n.routes[dst].dev) ==> GivenBack(s, n.routes[dst])
  {
    if n.routes[dst].dev in Interfaces(s) {
      var x :| x in s && x.Dev() == n.routes[dst].dev;
      assert OwnRoute(x, orig, dst) || Spared(x, orig, n, dst);
    } else {
      assert dst in RoutesOutside(Interfaces(s), n);
      assert dst in RoutesOutside(Interfaces(s), orig);
      assert RoutesOutside(Interfaces(s), orig)[dst] == n.routes[dst];
    }
  }

  lemma GivenRoute(s: State, orig: Net, n: Net, dst: Network)
    requires Restored(s, orig, n) && SameOutside(Interfaces(s), orig, n)
    requires dst in orig.routes && GivenBack(s, orig.routes[dst])
    ensures dst in n.routes
  {
    if orig.routes[dst].dev in Interfaces(s) {
      var x :| x in s && RouteOf(x) == orig.routes[dst];
      assert OwnRoute(x, orig, dst);
    } else {
      assert dst in RoutesOutside(Interfaces(s), orig);
      assert dst in RoutesOutside(Interfaces(s), n);
    }
  }

  // ----- when a rollback gives everything back

  predicate SameHost(a: Net, b: Net) {
    a.(ipForward := b.ipForward) == b
  }

  /** Every link of these devices is up. */
  predicate LinksUp(devs: set<Device>, n: Net) {
    forall d :: d in devs && d in n.links ==> n.links[d].up
  }

  /** The devices of the trunks carry managed routes only. */
  predicate NoForeignRoute(s: State, n: Net) {
    forall dst :: dst in n.routes ==> GivenBack(s, n.routes[dst])
  }

  /** A rolled-back host is as it was exactly when every registered interface that existed was up
      and every foreign route on one of them stayed; on a link with an address none stays. */
  lemma RollbackExactness(s: State, orig: Net, b: Net)
    requires RolledBackTo(s, orig, b)
    ensures SameHost(b, orig) <==>
            && LinksUp(Interfaces(s), orig)
            && forall dst :: dst in orig.routes && !GivenBack(s, orig.routes[dst]) ==> dst in b.routes
    ensures forall dst :: dst in orig.routes && HasAddress(orig, orig.routes[dst].dev) ==>
              !GivenBack(s, orig.routes[dst]) ==> dst !in b.routes
  {
    if SameHost(b, orig) {
      forall d | d in Interfaces(s) && d in orig.links ensures orig.links[d].up {
        assert b.links[d] == orig.links[d];
      }
    }
    if && LinksUp(Interfaces(s), orig)
       && forall dst :: dst in orig.routes && !GivenBack(s, orig.routes[dst]) ==> dst in b.routes
    {
      assert b.links == orig.links;
      assert forall dst :: dst in orig.routes <==> dst in b.routes;
      assert b.routes == orig.routes;
    }
  }

  /** The host after the least that a rollback gives back. */
  function LeastRestored(s: State, orig: Net): Net {
    orig.(links := RestoredLinks(s, orig),
          routes := map dst | dst in orig.routes && GivenBack(s, orig.routes[dst]) :: orig.routes[dst])
  }

  /** So whatever command failed, the rollback gives back the host exactly when every registered
      interface that existed was up and carried managed routes only. */
  lemma RollbackGuaranteed(s: State, orig: Net)
    ensures (forall b :: RolledBackTo(s, orig, b) ==> SameHost(b, orig)) <==>
            LinksUp(Interfaces(s), orig) && NoForeignRoute(s, orig)
  {
    var least := LeastRestored(s, orig);
    assert RolledBackTo(s, orig, least);
    RollbackExactness(s, orig, least);
    if LinksUp(Interfaces(s), orig) && NoForeignRoute(s, orig) {
      forall b | RolledBackTo(s, orig, b) ensures SameHost(b, orig) {
        RollbackExactness(s, orig, b);
      }
    }
  }

  // ----- agreement between the host and a state

  predicate RealizesTrunk(x: Instance, keys: KeyFiles, n: Net) {
    var d := x.Dev();
    if x.enabled then
      && d in n.links && n.links[d].up && n.links[d].wg == ConfigOf(x, keys)
      && x.record.serverAddress in n.links[d].addresses
      && (forall dst :: dst in x.routes ==> dst in n.routes && n.routes[dst] == RouteOf(x))
      && (forall dst :: dst in n.routes && n.routes[dst] == RouteOf(x) ==> dst in x.routes)
    else
      d !in n.links && forall dst :: dst in n.routes ==> n.routes[dst].dev != d
  }

  /** The host carries exactly this state: every enabled trunk is up with its configuration,
      its address and precisely its routes, no disabled trunk is left, and the table is the
      compiled one. */
  predicate Realizes(s: State, keys: KeyFiles, n: Net) {
    (forall x :: x in s ==> RealizesTrunk(x, keys, n)) && n.nft == Some(Compile(s))
  }

  /** Success, including the table and the forwarding switch. */
  ghost predicate Applied(s: State, keys: KeyFiles, a: Net, b: Net) {
    Synced(s, keys, a, b) && b.nft == Some(Compile(s)) && b.ipForward
  }

  lemma SyncedOwnRoutes(s: State, a: Net, b: Net, x: Instance, dst: Network)
    requires RoutesSynced(s, a.routes, b.routes) && DistinctDevices(s) && x in s && x.enabled
    requires dst in b.routes && b.routes[dst] == RouteOf(x)
    ensures dst in x.routes
  {
    assert Flushed(s, RouteOf(x));
    assert Wanted(s, dst);
    var y :| y in s && y.enabled && dst in y.routes;
    DeviceUnique(s, x, y);
  }

  lemma SyncedLink(s: State, keys: KeyFiles, a: Net, b: Net, x: Instance)
    requires LinksSynced(s, keys, a.links, b.links) && x in s && x.enabled
    ensures x.Dev() in b.links && b.links[x.Dev()] == Configured(x, keys, a.links)
  {
  }

  lemma SyncedRoutes(s: State, a: Net, b: Net, x: Instance)
    requires RoutesSynced(s, a.routes, b.routes) && x in s && x.enabled
    ensures forall dst :: dst in x.routes ==> dst in b.routes && b.routes[dst] == RouteOf(x)
  {
  }

  lemma AppliedRealizesTrunk(s: State, keys: KeyFiles, a: Net, b: Net, x: Instance)
    requires Synced(s, keys, a, b) && DistinctDevices(s) && x in s && NetOk(b)
    ensures RealizesTrunk(x, keys, b)
  {
    if x.enabled {
      SyncedLink(s, keys, a, b, x);
      SyncedRoutes(s, a, b, x);
      forall dst | dst in b.routes && b.routes[dst] == RouteOf(x) ensures dst in x.routes {
        SyncedOwnRoutes(s, a, b, x, dst);
      }
    }
  }

  /** After success each instance flushed only its own device, yet the managed routes are
      exactly the desired ones. */
  lemma AppliedRealizes(s: State, keys: KeyFiles, a: Net, b: Net)
    requires Applied(s, keys, a, b) && DistinctDevices(s) && NetOk(b)
    ensures Realizes(s, keys, b)
  {
    forall x | x in s ensures RealizesTrunk(x, keys, b) {
      AppliedRealizesTrunk(s, keys, a, b, x);
    }
  }

  lemma RealizesRestored(reg: Instances, s: State, t: State, keys: KeyFiles, n: Net, r: Net)
    requires Validated(reg, s) && Registered(reg, t) && Realizes(t, keys, n) && RolledBackTo(s, n, r)
    ensures Realizes(t, keys, r)
  {
    forall x | x in t ensures RealizesTrunk(x, keys, r) {
      assert x.Dev() in Interfaces(s);
      var y :| y in s && y.Dev() == x.Dev();
      assert y.record == x.record && RouteOf(y) == RouteOf(x);
      assert Managed(s, RouteOf(x));
    }
  }
}
