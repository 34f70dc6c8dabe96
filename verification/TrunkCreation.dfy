// Creating a trunk on a live host: instance_new of vpnhub/routes.py asks the controller to
// provision the trunk, and the controller compares its pool with the routes of the host.

module TrunkCreation {
  import opened Seqs
  import opened Ipv4
  import opened Records
  import opened Registry
  import opened Provisioning
  import opened Payload
  import opened Validation
  import opened Host
  import opened SyncSpec
  import opened Database
  import opened PortalInvariant
  import opened Acceptance
  import opened Portal
  import opened PortalRuns
  import opened Confinement

  /** No route of the host except the default meets the pool. */
  ghost predicate PoolUnlisted(n: Net, pool: Network) {
    forall row :: Listed(n, row) && row.dst != DEFAULT_ROUTE ==> !Overlaps(pool, row.dst)
  }

  /** A request for which a trunk is created on this host. */
  ghost predicate CreatableOn(file: File, q: Request, n: Net, protocol: int) {
    Registrable(file, q, protocol) && PoolUnlisted(n, ParseNetwork(q.vpnPool))
  }

  function Destinations(rows: seq<Row>): (r: seq<Network>)
    ensures forall dst :: dst in r <==> exists row :: row in rows && row.dst == dst
  {
    var r := seq(|rows|, i requires 0 <= i < |rows| => rows[i].dst);
    assert forall i :: 0 <= i < |r| ==> r[i] == rows[i].dst;
    r
  }

  /** provision_instance, which reads the routes of the host itself. */
  method ProvisionOn(store: Store, k: Kernel, q: Request, generated: nat)
    returns (r: Result<(bool, Record), RegistryError>)
    modifies store
    ensures r.Ok? && r.value.0 <==> CreatableOn(old(store.file), q, k.net, store.routeProtocol)
    ensures r.Ok? && r.value.0 ==>
      && RequestOk(q)
      && r.value.1 == NewRecord(Contents(old(store.file)), q, r.value.1.publicKey, Effective(store.routeProtocol))
      && Contents(store.file) == After(Contents(old(store.file)),
           Action.Provision(q, r.value.1.publicKey, Effective(store.routeProtocol)))
    ensures !(r.Ok? && r.value.0) ==> store.file == old(store.file)
  {
    var rows := k.HostRoutes();
    r := store.Provision(q, Destinations(rows), generated);
    if RequestOk(q) {
      ListedDestinations(k.net, rows, ParseNetwork(q.vpnPool));
    }
  }

  lemma ListedDestinations(n: Net, rows: seq<Row>, pool: Network)
    requires forall row :: row in rows <==> Listed(n, row)
    ensures PoolUnrouted(Destinations(rows), pool) <==> PoolUnlisted(n, pool)
  {
    if PoolUnrouted(Destinations(rows), pool) {
      forall row | Listed(n, row) && row.dst != DEFAULT_ROUTE ensures !Overlaps(pool, row.dst) {
        assert row in rows && row.dst in Destinations(rows);
      }
    }
    if PoolUnlisted(n, pool) {
      forall dst | dst in Destinations(rows) && dst != DEFAULT_ROUTE ensures !Overlaps(pool, dst) {
        var row :| row in rows && row.dst == dst;
        assert Listed(n, row);
      }
    }
  }

  /** A host that carries the database has a route to every Network. */
  lemma NetworkIsStored(db: Db, s: State, keys: KeyFiles, n: Net, row: NetworkRow)
    requires Inv(db) && Represents(s, db) && Realizes(s, keys, n) && row in db.networks
    ensures row.cidr in n.routes && row.cidr != DEFAULT_ROUTE
  {
    var site :| site in db.sites && site.id == row.siteId;
    var i := TrunkOf(db, site);
    TrunkInState(db, s, i);
    NetworkIsTarget(db, i, site, row);
    assert RealizesTrunk(TrunkState(db, i), keys, n);
    assert !Overlaps(row.cidr, i.record.vpnPool) && RecordOk(i.record);
    DefaultMeetsAll(i.record.vpnPool);
  }

  lemma NetworkIsTarget(db: Db, i: InstanceRow, site: SiteRow, row: NetworkRow)
    requires i.enabled && site in db.sites && site.instanceId == i.id && row in db.networks && row.siteId == site.id
    ensures row.cidr in TrunkState(db, i).routes
  {
    assert site in SitesOf(db, i.id) && row in NetworksOf(db, site.id);
    assert row.cidr in Cidrs(NetworksOf(db, site.id));
    assert row.cidr in Targets(db, SitesOf(db, i.id));
  }

  /** So on such a host a pool that meets no route meets no Network: the check that instance_new
      leaves out is made by the controller when it provisions the trunk. */
  lemma UnlistedPoolIsClear(db: Db, s: State, keys: KeyFiles, n: Net, pool: Network)
    requires Inv(db) && Represents(s, db) && Realizes(s, keys, n) && PoolUnlisted(n, pool)
    ensures PoolClear(db, pool)
  {
    forall row | row in db.networks ensures !Overlaps(row.cidr, pool) {
      NetworkIsStored(db, s, keys, n, row);
      var r := n.routes[row.cidr];
      assert Listed(n, Row(row.cidr, r.dev, Printed(n.protocolNames, r.protocol)));
      OverlapsSymmetric(pool, row.cidr);
    }
  }

  /** A trunk that is created on a host that carries the database passes the portal's checks, and
      the controller accepts the database that has it. */
  lemma CreatedTrunkAccepted(db: Db, s: State, keys: KeyFiles, n: Net, file: File, q: Request, key: Key, protocol: int)
    requires Inv(db) && Represents(s, db) && Realizes(s, keys, n)
    requires MatchesRegistry(db, Contents(file)) && CreatableOn(file, q, n, protocol) && ValidKey(key)
    requires var pool := ParseNetwork(q.vpnPool);
             ParseInterface(q.serverAddress) == Interface(pool.base + 1, pool.len)
    ensures var r := NewRecord(Contents(file), q, key, Effective(protocol));
            && AddTrunk(db, r).Some?
            && Acceptable(Contents(file)[r.interface := r], DesiredState(AddTrunk(db, r).value))
  {
    var reg := Contents(file);
    var a := Action.Provision(q, key, Effective(protocol));
    var r := NewRecord(reg, q, key, Effective(protocol));
    ProvisionedTrunkFits(db, reg, a);
    UnlistedPoolIsClear(db, s, keys, n, r.vpnPool);
    PortalChecksSuffice(db, InstanceNew(r), reg[r.interface := r]);
  }
}
