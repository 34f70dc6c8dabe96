// Synchronizing a host that has been synchronized before: what check_route_conflicts then finds,
// when the same payload passes a second time, and what a second run leaves behind.

module Rerun {
  import opened Ipv4
  import opened Records
  import opened Registry
  import opened Payload
  import opened Validation
  import opened ValidationFacts
  import opened Host
  import opened SyncSpec
  import opened Sync
  import Decimal

  // ----- connected networks after a run

  /** A network that a run connects this trunk to: that of its server address, or that of an
      address its link had while it was down. */
  predicate NewlyConnected(x: Instance, a: Net, net: Network) {
    || Joins(x.record.serverAddress, net)
    || (&& x.Dev() in a.links && !a.links[x.Dev()].up
        && exists addr :: addr in a.links[x.Dev()].addresses && Joins(addr, net))
  }

  lemma ConnectedAfter(s: State, keys: KeyFiles, a: Net, b: Net, x: Instance, net: Network)
    requires LinksSynced(s, keys, a.links, b.links) && x in s && x.enabled
    ensures x.Dev() in b.links
    ensures Connected(b.links[x.Dev()], net) <==>
            NewlyConnected(x, a, net) || (x.Dev() in a.links && Connected(a.links[x.Dev()], net))
  {
    var before := LinkOr(a.links, x.Dev()).addresses;
    var after := b.links[x.Dev()].addresses;
    assert forall addr :: addr in after <==> addr in before || addr == x.record.serverAddress;
  }

  /** No destination wanted by `t` meets a network that a run of `s` from host `a` connects. */
  ghost predicate ConnectsApart(t: State, s: State, a: Net) {
    forall dst, x, net ::
      Wanted(t, dst) && x in s && x.enabled && NewlyConnected(x, a, net) && net != DEFAULT_ROUTE ==>
        !Overlaps(dst, net)
  }

  // ----- the conflict check after a run

  predicate SameTrunks(s: State, t: State) {
    Interfaces(s) == Interfaces(t) && Protocols(s) == Protocols(t)
  }

  /** The listing names the protocol of this trunk's routes so that `t` knows it. */
  predicate Readable(t: State, x: Instance, names: map<int, string>) {
    Printed(names, x.record.routeProtocol) in Protocols(t)
  }

  /** A destination wanted by `t` meets no route of `s` that the listing shows under a protocol
      that `t` does not know. */
  ghost predicate RoutesReadable(t: State, s: State, names: map<int, string>) {
    forall x, own, dst ::
      x in s && x.enabled && own in x.routes && own != DEFAULT_ROUTE && Wanted(t, dst) && Overlaps(dst, own) ==>
        Readable(t, x, names)
  }

  /** A protected row after the run was there before, is a network newly connected, or is a route
      of the run shown under an unknown protocol. */
  lemma ListedAfter(s: State, t: State, keys: KeyFiles, a: Net, b: Net, row: Row)
    requires Synced(s, keys, a, b) && SameTrunks(s, t) && Listed(b, row) && Protected(t, row)
    ensures || Listed(a, row)
            || (exists x :: x in s && x.enabled && NewlyConnected(x, a, row.dst))
            || (exists x :: x in s && x.enabled && row.dst in x.routes && !Readable(t, x, a.protocolNames))
  {
    if Stored(b, row) {
      if !Stored(a, row) {
        assert Wanted(s, row.dst);
        var x :| x in s && x.enabled && row.dst in x.routes;
        assert b.routes[row.dst] == RouteOf(x) && x.Dev() in Interfaces(s);
      }
    } else if row.dev in Interfaces(s) {
      var x :| x in s && x.Dev() == row.dev;
      ConnectedAfter(s, keys, a, b, x, row.dst);
    } else {
      assert a.links[row.dev] == b.links[row.dev];
    }
  }

  lemma NewRowMeets(s: State, t: State, keys: KeyFiles, a: Net, b: Net, x: Instance, net: Network, dst: Network)
    requires Synced(s, keys, a, b) && SameTrunks(s, t) && NoConflict(t, b)
    requires Wanted(t, dst) && x in s && x.enabled && NewlyConnected(x, a, net) && net != DEFAULT_ROUTE
    ensures !Overlaps(dst, net)
  {
    ConnectedAfter(s, keys, a, b, x, net);
    var row := Row(net, x.Dev(), CONNECTED);
    assert CONNECTED[0] == 'k' && CONNECTED !in Protocols(t);
    assert Listed(b, row) && Protected(t, row);
  }

  lemma OwnRowMeets(s: State, t: State, keys: KeyFiles, a: Net, b: Net, x: Instance, own: Network, dst: Network)
    requires Synced(s, keys, a, b) && SameTrunks(s, t) && NoConflict(t, b)
    requires Wanted(t, dst) && x in s && x.enabled && own in x.routes && own != DEFAULT_ROUTE && Overlaps(dst, own)
    ensures Readable(t, x, a.protocolNames)
  {
    var row := Row(own, x.Dev(), Printed(b.protocolNames, x.record.routeProtocol));
    assert b.routes[own] == RouteOf(x) && Listed(b, row);
    assert !Protected(t, row);
  }

  /** A payload that met no route conflict before the run of another one meets none after it,
      exactly when none of its destinations meets a newly connected network, or a route of that
      run that the listing shows under a protocol name it does not know. */
  lemma AcceptedAfter(s: State, t: State, keys: KeyFiles, a: Net, b: Net)
    requires Synced(s, keys, a, b) && SameTrunks(s, t) && NoConflict(t, a)
    ensures NoConflict(t, b) <==> ConnectsApart(t, s, a) && RoutesReadable(t, s, a.protocolNames)
  {
    if NoConflict(t, b) {
      forall dst, x, net | Wanted(t, dst) && x in s && x.enabled && NewlyConnected(x, a, net) && net != DEFAULT_ROUTE
        ensures !Overlaps(dst, net)
      {
        NewRowMeets(s, t, keys, a, b, x, net, dst);
      }
      forall x, own, dst
        | x in s && x.enabled && own in x.routes && own != DEFAULT_ROUTE && Wanted(t, dst) && Overlaps(dst, own)
        ensures Readable(t, x, a.protocolNames)
      {
        OwnRowMeets(s, t, keys, a, b, x, own, dst);
      }
    }
    if ConnectsApart(t, s, a) && RoutesReadable(t, s, a.protocolNames) {
      forall dst, row | Wanted(t, dst) && Listed(b, row) && Protected(t, row) ensures !Overlaps(dst, row.dst) {
        ListedAfter(s, t, keys, a, b, row);
      }
    }
  }

  /** The listing shows the routes of these trunks under a protocol that they know. */
  predicate OwnRoutesReadable(s: State, names: map<int, string>) {
    forall x, own :: x in s && x.enabled && own in x.routes && own != DEFAULT_ROUTE ==> Readable(s, x, names)
  }

  lemma OwnRoutesMeetThemselves(s: State, names: map<int, string>)
    ensures RoutesReadable(s, s, names) <==> OwnRoutesReadable(s, names)
  {
    if RoutesReadable(s, s, names) {
      forall x, own | x in s && x.enabled && own in x.routes && own != DEFAULT_ROUTE ensures Readable(s, x, names) {
        assert Wanted(s, own) && Overlaps(own, own);
      }
    }
  }

  /** After a success the same payload is refused for a route conflict exactly when one of its
      destinations meets the network of a trunk's server address, or of an address that a
      trunk's link had while it was down, or when `ip` prints a name for the protocol of its
      routes. */
  lemma SecondRunAccepted(s: State, keys: KeyFiles, a: Net, b: Net)
    requires Synced(s, keys, a, b) && NoConflict(s, a)
    ensures NoConflict(s, b) <==> ConnectsApart(s, s, a) && OwnRoutesReadable(s, a.protocolNames)
  {
    AcceptedAfter(s, s, keys, a, b);
    OwnRoutesMeetThemselves(s, a.protocolNames);
  }

  // ----- server addresses inside their pools

  /** The network of the server address lies in the pool. */
  predicate ServerInPool(r: Record) {
    && r.serverAddress.Valid()
    && r.vpnPool.base <= r.serverAddress.Net().base && r.serverAddress.Net().Last() <= r.vpnPool.Last()
  }

  predicate ServersInPools(reg: Instances) {
    forall d :: d in reg ==> ServerInPool(reg[d])
  }

  /** The host prints the numbers of the registered route protocols. */
  predicate NumbersPrinted(reg: Instances, n: Net) {
    forall d :: d in reg ==>
      Printed(n.protocolNames, reg[d].routeProtocol) == Decimal.Str(reg[d].routeProtocol)
  }

  /** What a second run needs of registry and host. */
  predicate Repeatable(reg: Instances, n: Net) {
    ServersInPools(reg) && NumbersPrinted(reg, n)
  }

  lemma InsideStaysApart(p: Network, outer: Network, inner: Network)
    requires !Overlaps(p, outer) && outer.base <= inner.base && inner.Last() <= outer.Last()
    ensures !Overlaps(p, inner)
  {
  }

  lemma WantedOffPool(reg: Instances, t: State, dst: Network, d: Device)
    requires Validated(reg, t) && Wanted(t, dst) && d in reg
    ensures !Overlaps(dst, reg[d].vpnPool)
  {
    WantedIsRouted(t, dst);
    assert d in Interfaces(t);
    var y :| y in t && y.Dev() == d;
    var i :| 0 <= i < |t| && t[i] == y;
    assert Pools(t)[i] == reg[d].vpnPool && Pools(t)[i] in Pools(t);
  }

  lemma ServersConnectApart(reg: Instances, t: State, s: State, a: Net)
    requires Validated(reg, t) && Validated(reg, s) && ServersInPools(reg) && LinksUp(reg.Keys, a)
    ensures ConnectsApart(t, s, a)
  {
    forall dst, x, net | Wanted(t, dst) && x in s && x.enabled && NewlyConnected(x, a, net) && net != DEFAULT_ROUTE
      ensures !Overlaps(dst, net)
    {
      assert ServerInPool(reg[x.Dev()]);
      WantedOffPool(reg, t, dst, x.Dev());
      InsideStaysApart(dst, x.record.vpnPool, net);
    }
  }

  lemma ValidatedSameTrunks(reg: Instances, s: State, t: State)
    requires Validated(reg, s) && Validated(reg, t)
    ensures SameTrunks(s, t)
  {
    forall p ensures p in Protocols(s) <==> p in Protocols(t) {
      if p in Protocols(s) {
        SharedProtocol(reg, s, t, p);
      }
      if p in Protocols(t) {
        SharedProtocol(reg, t, s, p);
      }
    }
  }

  lemma SharedProtocol(reg: Instances, s: State, t: State, p: string)
    requires Validated(reg, s) && Validated(reg, t) && p in Protocols(s)
    ensures p in Protocols(t)
  {
    var x :| x in s && Decimal.Str(x.record.routeProtocol) == p;
    assert x.Dev() in Interfaces(t);
    var y :| y in t && y.Dev() == x.Dev();
  }

  lemma NumbersReadable(reg: Instances, t: State, s: State, n: Net)
    requires Validated(reg, s) && SameTrunks(s, t) && NumbersPrinted(reg, n)
    ensures RoutesReadable(t, s, n.protocolNames)
  {
    forall x | x in s ensures Readable(t, x, n.protocolNames) {
      assert Printed(n.protocolNames, reg[x.Dev()].routeProtocol) == Decimal.Str(x.record.routeProtocol);
    }
  }

  /** When every server network lies inside its pool, the host prints protocol numbers and no
      trunk's link was down, whatever met no conflict before a run meets none after it. */
  lemma StillAccepted(reg: Instances, s: State, t: State, keys: KeyFiles, a: Net, b: Net)
    requires Validated(reg, s) && Validated(reg, t) && Synced(s, keys, a, b) && NoConflict(t, a)
    requires Repeatable(reg, a) && LinksUp(reg.Keys, a)
    ensures NoConflict(t, b)
  {
    ValidatedSameTrunks(reg, s, t);
    ServersConnectApart(reg, t, s, a);
    NumbersReadable(reg, t, s, a);
    AcceptedAfter(s, t, keys, a, b);
  }

  /** In particular the same payload is never refused the second time, not even on the connected
      routes that the first run created, whatever other addresses the links have. */
  lemma RepeatedRunAccepted(reg: Instances, s: State, keys: KeyFiles, a: Net, b: Net)
    requires Validated(reg, s) && Synced(s, keys, a, b) && NoConflict(s, a)
    requires Repeatable(reg, a) && LinksUp(reg.Keys, a)
    ensures NoConflict(s, b)
  {
    StillAccepted(reg, s, s, keys, a, b);
  }

  // ----- what a second run leaves

  lemma SyncedLinksAgain(s: State, keys: KeyFiles, a: Net, b: Net, c: Net)
    requires Synced(s, keys, a, b) && Synced(s, keys, b, c)
    ensures c.links == b.links
  {
    forall d ensures d in c.links <==> d in b.links {
      if d in Interfaces(s) {
        var x :| x in s && x.Dev() == d;
      }
    }
    forall d | d in c.links ensures c.links[d] == b.links[d] {
      if d in Interfaces(s) {
        var x :| x in s && x.Dev() == d;
      }
    }
  }

  lemma SyncedRouteAgain(s: State, a: Net, b: Net, c: Net, dst: Network)
    requires RoutesSynced(s, a.routes, b.routes) && RoutesSynced(s, b.routes, c.routes)
    ensures dst in c.routes <==> dst in b.routes
    ensures dst in c.routes ==> c.routes[dst] == b.routes[dst]
  {
    if Wanted(s, dst) {
      var x :| x in s && x.enabled && dst in x.routes;
      assert b.routes[dst] == RouteOf(x) && c.routes[dst] == RouteOf(x);
    }
  }

  lemma SyncedRoutesAgain(s: State, keys: KeyFiles, a: Net, b: Net, c: Net)
    requires Synced(s, keys, a, b) && Synced(s, keys, b, c)
    ensures c.routes == b.routes
  {
    forall dst
      ensures dst in c.routes <==> dst in b.routes
      ensures dst in c.routes ==> c.routes[dst] == b.routes[dst]
    {
      SyncedRouteAgain(s, a, b, c, dst);
    }
  }

  /** A second run of the same payload that succeeds leaves the host as the first run left it. */
  lemma SecondRunChangesNothing(s: State, keys: KeyFiles, a: Net, b: Net, c: Net)
    requires Applied(s, keys, a, b) && Applied(s, keys, b, c)
    ensures c == b
  {
    SyncedLinksAgain(s, keys, a, b, c);
    SyncedRoutesAgain(s, keys, a, b, c);
  }

  /** Every route through a trunk's device is one that a run flushes or takes over. */
  predicate OnlyManagedRoutes(s: State, a: Net) {
    forall dst :: dst in a.routes && a.routes[dst].dev in Interfaces(s) ==>
      Wanted(s, dst) || Flushed(s, a.routes[dst])
  }

  lemma ManagedAfter(s: State, keys: KeyFiles, a: Net, b: Net, dst: Network)
    requires Synced(s, keys, a, b) && DistinctDevices(s)
    requires dst in b.routes && b.routes[dst].dev in Interfaces(s)
    ensures Managed(s, b.routes[dst]) <==> Wanted(s, dst)
  {
    if Wanted(s, dst) {
      var x :| x in s && x.enabled && dst in x.routes;
      assert RouteOf(x) == b.routes[dst];
    } else if Managed(s, b.routes[dst]) {
      var x :| x in s && RouteOf(x) == b.routes[dst];
      assert Flushed(s, b.routes[dst]);
    }
  }

  lemma SyncedHasAddress(s: State, keys: KeyFiles, a: Net, b: Net, d: Device)
    requires LinksSynced(s, keys, a.links, b.links) && d in Interfaces(s) && d in b.links
    ensures HasAddress(b, d)
  {
    var x :| x in s && x.Dev() == d;
    assert x.enabled && x.record.serverAddress in b.links[d].addresses;
  }

  /** A second run that fails and rolls back leaves the host as the first run left it, exactly when
      the first run found no route of somebody else on a trunk's device. */
  lemma FailedRerunKeeps(s: State, keys: KeyFiles, a: Net, b: Net, c: Net)
    requires Synced(s, keys, a, b) && DistinctDevices(s) && RolledBackTo(s, b, c)
    ensures SameHost(c, b) <==> OnlyManagedRoutes(s, a)
  {
    RollbackExactness(s, b, c);
    SyncedLinksUp(s, keys, a, b);
    if OnlyManagedRoutes(s, a) {
      forall dst | dst in b.routes ensures GivenBack(s, b.routes[dst]) {
        if b.routes[dst].dev in Interfaces(s) {
          ManagedAfter(s, keys, a, b, dst);
        }
      }
    }
    if SameHost(c, b) {
      forall dst | dst in a.routes && a.routes[dst].dev in Interfaces(s)
        ensures Wanted(s, dst) || Flushed(s, a.routes[dst])
      {
        if dst in b.routes && !Wanted(s, dst) {
          SyncedHasAddress(s, keys, a, b, b.routes[dst].dev);
          ManagedAfter(s, keys, a, b, dst);
        }
      }
    }
  }

  /** Two runs of the same payload.  After a first success the second run is refused exactly for
      the reasons named above; when it succeeds it changes nothing, and when it fails it rolls
      back to what the first run left. */
  method SyncTwice(k: Kernel, reg: Instances, keys: KeyFiles, raws: seq<RawInstance>)
    returns (first: Outcome, second: Outcome, ghost between: Net)
    requires NetOk(k.net) && ValidRegistry(reg)
    requires k.net.nft.Some? ==> Loadable(k.net.nft.value)
    modifies k
    ensures NetOk(k.net)
    ensures first.Synchronized? ==> Applied(StateOf(reg, raws), keys, old(k.net), between)
    ensures first.Synchronized? ==> !second.Invalid? && !second.DryRun?
    ensures first.Synchronized? ==>
      (second.Conflict? <==> !(&& ConnectsApart(StateOf(reg, raws), StateOf(reg, raws), old(k.net))
                               && OwnRoutesReadable(StateOf(reg, raws), old(k.net.protocolNames))))
    ensures first.Synchronized? && Repeatable(reg, old(k.net)) && LinksUp(reg.Keys, old(k.net)) ==> !second.Conflict?
    ensures first.Synchronized? && !second.RolledBack? ==> k.net == between
    ensures first.Synchronized? && second.RolledBack? ==>
      (SameHost(k.net, between) <==> OnlyManagedRoutes(StateOf(reg, raws), old(k.net)))
    ensures first.Synchronized? && !second.Conflict? && k.Benign() ==> second.Synchronized?
  {
    ghost var start := k.net;
    ghost var s := StateOf(reg, raws);
    first := PerformSync(k, reg, keys, raws, false);
    between := k.net;
    second := PerformSync(k, reg, keys, raws, false);
    if first.Synchronized? {
      AcceptedMatchesRegistry(reg, raws);
      SecondRunAccepted(s, keys, start, between);
      if Repeatable(reg, start) && LinksUp(reg.Keys, start) {
        RepeatedRunAccepted(reg, s, keys, start, between);
      }
      if second.Synchronized? {
        SecondRunChangesNothing(s, keys, start, between, k.net);
      }
      if second.RolledBack? {
        FailedRerunKeeps(s, keys, start, between, k.net);
      }
    }
  }
}
