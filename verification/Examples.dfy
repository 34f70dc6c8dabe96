// Inputs on which the code does less than it seems: a Network that the portal lets through and
// the controller refuses, a pool that instance_new lets through, and a payload that the
// controller accepts once and refuses the second time.

module Examples {
  import opened Seqs
  import opened Ipv4
  import opened Records
  import opened Registry
  import opened Provisioning
  import opened Payload
  import opened Validation
  import opened ValidationFacts
  import opened Host
  import opened SyncSpec
  import opened Sync
  import opened Rerun
  import opened Ipam
  import opened Database
  import opened PortalInvariant
  import opened Acceptance
  import opened Portal
  import opened PortalRuns
  import opened Confinement
  import opened Hub
  import opened TrunkCreation

  const POOL := Network(0x0AFA_0000, 16)
  const NETWORK := Network(0x0A01_0000, 16)

  /** The default trunk, 10.250.0.0/16. */
  const DEFAULT_TRUNK := Record(DEFAULT_INTERFACE, 51820, POOL, Interface(0x0AFA_0001, 16),
    InKeyRoot(ServerKey), PublicKeyOf(0), 186)

  /** The same with server address 10.250.0.1/8. */
  const WIDE_TRUNK := Record(DEFAULT_INTERFACE, 51820, POOL, Interface(0x0AFA_0001, 8),
    InKeyRoot(ServerKey), PublicKeyOf(0), 186)

  /** One trunk with one Site, 10.250.1.0/24, that has the Network 10.1.0.0/16. */
  function Small(r: Record): Db {
    Db([InstanceRow(1, true, r)], [SiteRow(2, 1, "A", Network(0x0AFA_0100, 24))],
       [NetworkRow(3, 2, NETWORK)], [], [], 4)
  }

  lemma TrunkIsOk(r: Record)
    requires r == DEFAULT_TRUNK || r == WIDE_TRUNK
    ensures RecordOk(r)
  {
    SlashSixteen(0x0AFA_0000);
    assert InterfaceIndex(DEFAULT_INTERFACE) == 0;
  }

  lemma SiteBlockOne()
    ensures IsSiteBlock(POOL, Network(0x0AFA_0100, 24))
  {
    Pow2Values();
    assert Network(0x0AFA_0100, 24) == Subnet(POOL, 1) && SubnetCount(POOL) == Pow2(8);
  }

  lemma NetworkOffPool()
    ensures NETWORK.Valid() && !Overlaps(NETWORK, POOL)
  {
    SlashSixteen(0x0AFA_0000);
    SlashSixteen(0x0A01_0000);
  }

  lemma SmallIsPlanned(r: Record)
    requires RecordOk(r) && r.vpnPool == POOL
    ensures Inv(Small(r))
  {
    var db := Small(r);
    SiteBlockOne();
    NetworkOffPool();
    assert db.instances[0] in db.instances && db.sites[0] in db.sites;
    assert SitesPlanned(db.instances, db.sites) && NetworksOwned(db.sites, db.networks);
  }

  // ----- a Network inside another of its Site

  /** 10.1.1.0/24 */
  const INNER := Text.Ipv4(0x0A01_0100, 24)

  lemma InnerNetwork()
    ensures Parses(INNER) && ParseNetwork(INNER) == Network(0x0A01_0100, 24)
    ensures Overlaps(Network(0x0A01_0100, 24), NETWORK) && !Overlaps(Network(0x0A01_0100, 24), POOL)
  {
    Pow2Values();
    MaskBase(0x0A01_0100, 24);
    SlashSixteen(0x0AFA_0000);
    SlashSixteen(0x0A01_0000);
  }

  /** The portal has a candidate, and the controller refuses it whatever its registry is. */
  lemma CrowdedSiteExample()
    ensures var db := Small(DEFAULT_TRUNK);
            && Inv(db) && AddNetwork(db, 2, INNER).Some?
            && forall reg :: !Acceptable(reg, DesiredState(AddNetwork(db, 2, INNER).value))
  {
    var db := Small(DEFAULT_TRUNK);
    TrunkIsOk(DEFAULT_TRUNK);
    SmallIsPlanned(DEFAULT_TRUNK);
    InnerNetwork();
    assert db.sites[0] in db.sites && db.networks[0] in db.networks;
    assert NetworkPasses(db, 2, Network(0x0A01_0100, 24));
    forall reg ensures !Acceptable(reg, DesiredState(AddNetwork(db, 2, INNER).value)) {
      CrowdedSiteIsRefused(db, reg, 2, INNER);
    }
  }

  // ----- a pool that is somebody's Network

  /** A second trunk, 10.1.0.0/16. */
  const SECOND_TRUNK := Record(InterfaceName(1), 51821, NETWORK, Interface(0x0A01_0001, 16),
    KeyPathFor(InterfaceName(1)), PublicKeyOf(1), 186)

  lemma SecondTrunkFits()
    ensures TrunkFits(Small(DEFAULT_TRUNK), SECOND_TRUNK)
  {
    NetworkOffPool();
    SlashSixteen(0x0A01_0000);
    assert InterfaceIndex(DEFAULT_INTERFACE) == 0;
  }

  lemma ClashingPoolExample()
    ensures var db := Small(DEFAULT_TRUNK);
            && Inv(db) && AddTrunk(db, SECOND_TRUNK).Some?
            && forall reg :: !Acceptable(reg, DesiredState(AddTrunk(db, SECOND_TRUNK).value))
  {
    var db := Small(DEFAULT_TRUNK);
    TrunkIsOk(DEFAULT_TRUNK);
    SmallIsPlanned(DEFAULT_TRUNK);
    SecondTrunkFits();
    SlashSixteen(0x0A01_0000);
    assert db.networks[0] in db.networks && !PoolClear(db, NETWORK);
    forall reg ensures !Acceptable(reg, DesiredState(AddTrunk(db, SECOND_TRUNK).value)) {
      ClashingPoolIsRefused(db, reg, SECOND_TRUNK);
    }
  }

  // ----- rollbacks that do not give everything back

  const SERVER_KEY: KeyFiles := map[InKeyRoot(ServerKey) := 0]
  const REGISTRY: Instances := map[DEFAULT_INTERFACE := DEFAULT_TRUNK]
  const NO_NAMES: map<int, string> := map[]

  lemma SmallMatches(r: Record, reg: Instances)
    requires r == DEFAULT_TRUNK || r == WIDE_TRUNK
    requires reg == map[DEFAULT_INTERFACE := r]
    ensures Inv(Small(r)) && ValidRegistry(reg) && MatchesRegistry(Small(r), reg)
  {
    TrunkIsOk(r);
    SmallIsPlanned(r);
    assert Small(r).instances[0] in Small(r).instances;
  }

  lemma SmallPasses(r: Record, reg: Instances, n: Net)
    requires r == DEFAULT_TRUNK || r == WIDE_TRUNK
    requires reg == map[DEFAULT_INTERFACE := r] && NoConflict(StateOf(reg, DesiredState(Small(r))), n)
    ensures Passes(reg, SERVER_KEY, DesiredState(Small(r)), n)
  {
    SmallMatches(r, reg);
    PlannedPasses(Small(r), reg, SERVER_KEY, n);
  }

  lemma DatabaseState(db: Db, reg: Instances)
    requires Inv(db) && ValidRegistry(reg) && MatchesRegistry(db, reg)
    ensures var s := StateOf(reg, DesiredState(db));
            Validated(reg, s) && Interfaces(s) == reg.Keys && Represents(s, db)
  {
    StateOfDesired(db, reg);
    AcceptedMatchesRegistry(reg, DesiredState(db));
  }

  /** The validated state of the small database is its one trunk, on wg0, with one route. */
  predicate IsSmall(s: State, r: Record) {
    && Interfaces(s) == {DEFAULT_INTERFACE}
    && (forall x :: x in s ==> x.enabled && x.record == r)
    && (forall x, dst :: x in s && dst in x.routes ==> dst == NETWORK)
  }

  lemma SmallState(r: Record, reg: Instances)
    requires r == DEFAULT_TRUNK || r == WIDE_TRUNK
    requires reg == map[DEFAULT_INTERFACE := r]
    ensures var s := StateOf(reg, DesiredState(Small(r)));
            Validated(reg, s) && Represents(s, Small(r)) && IsSmall(s, r)
  {
    SmallMatches(r, reg);
    DatabaseState(Small(r), reg);
    RepresentsSmall(StateOf(reg, DesiredState(Small(r))), r);
  }

  lemma RepresentsSmall(s: State, r: Record)
    requires Represents(s, Small(r)) && Interfaces(s) == {DEFAULT_INTERFACE}
    ensures IsSmall(s, r)
  {
    forall x | x in s ensures x.enabled && x.record == r && forall dst :: dst in x.routes ==> dst == NETWORK {
      SmallTrunk(Small(r), s, x);
    }
  }

  lemma SmallTrunk(db: Db, s: State, x: Instance)
    requires |db.instances| > 0 && db == Small(db.instances[0].record) && Represents(s, db) && x in s
    ensures x.enabled && x.record == db.instances[0].record && forall dst :: dst in x.routes ==> dst == NETWORK
  {
    var i := StateTrunk(db, s, x);
    assert i == db.instances[0];
    forall dst | dst in x.routes ensures dst == NETWORK {
      RouteIsNetwork(db, i, dst);
    }
  }

  /** A host on which wg0 exists but is down. */
  const DOWN_HOST := Net(map[DEFAULT_INTERFACE := FRESH_LINK], map[], None, false, NO_NAMES)

  lemma DownHostHasNoConflict(s: State)
    ensures NoConflict(s, DOWN_HOST)
  {
  }

  lemma DownHostOk()
    ensures NetOk(DOWN_HOST)
  {
  }

  lemma DownHostPasses()
    ensures Passes(REGISTRY, SERVER_KEY, DesiredState(Small(DEFAULT_TRUNK)), DOWN_HOST)
  {
    DownHostHasNoConflict(StateOf(REGISTRY, DesiredState(Small(DEFAULT_TRUNK))));
    SmallPasses(DEFAULT_TRUNK, REGISTRY, DOWN_HOST);
  }

  /** Nothing speaks against the payload there; but no rollback of it gives the host back, because
      every rollback leaves wg0 up. */
  lemma DownLinkComesUp(b: Net)
    ensures NetOk(DOWN_HOST) && Passes(REGISTRY, SERVER_KEY, DesiredState(Small(DEFAULT_TRUNK)), DOWN_HOST)
    ensures RolledBackTo(StateOf(REGISTRY, DesiredState(Small(DEFAULT_TRUNK))), DOWN_HOST, b) ==>
              !SameHost(b, DOWN_HOST)
  {
    DownHostOk();
    DownHostPasses();
    SmallState(DEFAULT_TRUNK, REGISTRY);
    var s := StateOf(REGISTRY, DesiredState(Small(DEFAULT_TRUNK)));
    if RolledBackTo(s, DOWN_HOST, b) {
      RollbackExactness(s, DOWN_HOST, b);
      assert DEFAULT_INTERFACE in Interfaces(s) && !DOWN_HOST.links[DEFAULT_INTERFACE].up;
    }
  }

  /** 10.2.0.0/16 */
  const FOREIGN := Network(0x0A02_0000, 16)

  /** A host on which wg0 is up, with its address, and somebody routes 10.2.0.0/16 through it. */
  const SHARED_HOST := Net(
    map[DEFAULT_INTERFACE := Link(true, [DEFAULT_TRUNK.serverAddress], UNCONFIGURED)],
    map[FOREIGN := Route(DEFAULT_INTERFACE, 4)], None, false, NO_NAMES)

  lemma SharedHostRows(row: Row)
    requires Listed(SHARED_HOST, row)
    ensures !Overlaps(NETWORK, row.dst)
  {
    SlashSixteen(0x0A01_0000);
    SlashSixteen(0x0A02_0000);
    SlashSixteen(0x0AFA_0000);
    Pow2Values();
    MaskBase(0x0AFA_0001, 16);
    assert DEFAULT_TRUNK.serverAddress.Net() == POOL;
    if Stored(SHARED_HOST, row) {
      assert row.dst == FOREIGN;
    } else {
      assert row.dst == POOL;
    }
  }

  lemma SharedHostHasNoConflict(s: State)
    requires IsSmall(s, DEFAULT_TRUNK)
    ensures NoConflict(s, SHARED_HOST)
  {
    forall dst, row | Wanted(s, dst) && Listed(SHARED_HOST, row) && Protected(s, row)
      ensures !Overlaps(dst, row.dst)
    {
      SharedHostRows(row);
    }
  }

  lemma SharedHostOk()
    ensures NetOk(SHARED_HOST)
  {
  }

  lemma SharedHostPasses()
    ensures Passes(REGISTRY, SERVER_KEY, DesiredState(Small(DEFAULT_TRUNK)), SHARED_HOST)
  {
    SmallState(DEFAULT_TRUNK, REGISTRY);
    SharedHostHasNoConflict(StateOf(REGISTRY, DesiredState(Small(DEFAULT_TRUNK))));
    SmallPasses(DEFAULT_TRUNK, REGISTRY, SHARED_HOST);
  }

  lemma ForeignIsForeign(s: State)
    requires IsSmall(s, DEFAULT_TRUNK)
    ensures !GivenBack(s, SHARED_HOST.routes[FOREIGN]) && !OnlyManagedRoutes(s, SHARED_HOST)
  {
    var r := SHARED_HOST.routes[FOREIGN];
    assert r.dev in Interfaces(s) && forall x :: x in s ==> RouteOf(x) != r;
    assert !Wanted(s, FOREIGN) && !Flushed(s, r);
  }

  /** Nothing speaks against the payload on this host either; no rollback of it gives the host
      back, because the route of somebody else goes with the address. */
  lemma ForeignRouteIsLost(b: Net)
    ensures NetOk(SHARED_HOST) && Passes(REGISTRY, SERVER_KEY, DesiredState(Small(DEFAULT_TRUNK)), SHARED_HOST)
    ensures RolledBackTo(StateOf(REGISTRY, DesiredState(Small(DEFAULT_TRUNK))), SHARED_HOST, b) ==>
              FOREIGN !in b.routes
  {
    var s := StateOf(REGISTRY, DesiredState(Small(DEFAULT_TRUNK)));
    SharedHostOk();
    SharedHostPasses();
    SmallState(DEFAULT_TRUNK, REGISTRY);
    ForeignIsForeign(s);
    if RolledBackTo(s, SHARED_HOST, b) {
      RollbackExactness(s, SHARED_HOST, b);
      assert HasAddress(SHARED_HOST, DEFAULT_INTERFACE) && FOREIGN in SHARED_HOST.routes;
    }
  }

  /** Nor does the rollback of a second run that fails after a first success there. */
  lemma ForeignRouteIsLostAgain() returns (b: Net)
    ensures Applied(StateOf(REGISTRY, DesiredState(Small(DEFAULT_TRUNK))), SERVER_KEY, SHARED_HOST, b)
    ensures forall c :: RolledBackTo(StateOf(REGISTRY, DesiredState(Small(DEFAULT_TRUNK))), b, c) ==> !SameHost(c, b)
  {
    var s := StateOf(REGISTRY, DesiredState(Small(DEFAULT_TRUNK)));
    SmallState(DEFAULT_TRUNK, REGISTRY);
    ForeignIsForeign(s);
    b := FirstRunExists(DEFAULT_TRUNK, REGISTRY, SHARED_HOST);
    forall c | RolledBackTo(s, b, c) ensures !SameHost(c, b) {
      FailedRerunKeeps(s, SERVER_KEY, SHARED_HOST, b, c);
    }
  }

  // ----- a payload that is refused the second time

  const WIDE_REGISTRY: Instances := map[DEFAULT_INTERFACE := WIDE_TRUNK]
  const EMPTY_HOST := Net(map[], map[], None, false, NO_NAMES)

  /** An empty host whose `ip` calls protocol 186 "bgp". */
  const NAMING_HOST := EMPTY_HOST.(protocolNames := map[186 := "bgp"])

  lemma EmptyHostHasNoConflict(s: State, names: map<int, string>)
    ensures NoConflict(s, EMPTY_HOST.(protocolNames := names))
  {
  }

  lemma EmptyPasses(r: Record, reg: Instances, names: map<int, string>)
    requires r == DEFAULT_TRUNK || r == WIDE_TRUNK
    requires reg == map[DEFAULT_INTERFACE := r]
    ensures Passes(reg, SERVER_KEY, DesiredState(Small(r)), EMPTY_HOST.(protocolNames := names))
  {
    EmptyHostHasNoConflict(StateOf(reg, DesiredState(Small(r))), names);
    SmallPasses(r, reg, EMPTY_HOST.(protocolNames := names));
  }

  lemma FirstRunExists(r: Record, reg: Instances, a: Net) returns (b: Net)
    requires r == DEFAULT_TRUNK || r == WIDE_TRUNK
    requires reg == map[DEFAULT_INTERFACE := r]
    ensures Applied(StateOf(reg, DesiredState(Small(r))), SERVER_KEY, a, b)
  {
    SmallState(r, reg);
    b := SyncExists(StateOf(reg, DesiredState(Small(r))), SERVER_KEY, a);
  }

  /** The one trunk wants the Network. */
  lemma SmallWants(r: Record, reg: Instances) returns (x: Instance)
    requires r == DEFAULT_TRUNK || r == WIDE_TRUNK
    requires reg == map[DEFAULT_INTERFACE := r]
    ensures x in StateOf(reg, DesiredState(Small(r))) && x.enabled && x.record == r && NETWORK in x.routes
  {
    var db := Small(r);
    SmallState(r, reg);
    x := TrunkState(db, db.instances[0]);
    TrunkInState(db, StateOf(reg, DesiredState(db)), db.instances[0]);
    assert db.sites[0] in db.sites && db.networks[0] in db.networks;
    NetworkIsTarget(db, db.instances[0], db.sites[0], db.networks[0]);
  }

  lemma WideNet()
    ensures Joins(WIDE_TRUNK.serverAddress, Network(0x0A00_0000, 8))
    ensures Overlaps(NETWORK, Network(0x0A00_0000, 8))
  {
    Pow2Values();
    assert BlockSize(16) == 0x1_0000 && BlockSize(8) == 0x100_0000;
    MaskBase(0x0AFA_0001, 8);
  }

  lemma WideConnects()
    ensures var s := StateOf(WIDE_REGISTRY, DesiredState(Small(WIDE_TRUNK))); !ConnectsApart(s, s, EMPTY_HOST)
  {
    var x := SmallWants(WIDE_TRUNK, WIDE_REGISTRY);
    assert Wanted(StateOf(WIDE_REGISTRY, DesiredState(Small(WIDE_TRUNK))), NETWORK);
    WideNet();
    assert NewlyConnected(x, EMPTY_HOST, Network(0x0A00_0000, 8));
  }

  /** Nothing speaks against this payload on an empty host; after its first success it is refused,
      because its own Network lies in the connected network of its own trunk. */
  lemma WideServerNetworkBlocksRerun() returns (b: Net)
    ensures Passes(WIDE_REGISTRY, SERVER_KEY, DesiredState(Small(WIDE_TRUNK)), EMPTY_HOST)
    ensures Applied(StateOf(WIDE_REGISTRY, DesiredState(Small(WIDE_TRUNK))), SERVER_KEY, EMPTY_HOST, b)
    ensures !Passes(WIDE_REGISTRY, SERVER_KEY, DesiredState(Small(WIDE_TRUNK)), b)
  {
    EmptyPasses(WIDE_TRUNK, WIDE_REGISTRY, NO_NAMES);
    b := FirstRunExists(WIDE_TRUNK, WIDE_REGISTRY, EMPTY_HOST);
    WideConnects();
    SecondRunAccepted(StateOf(WIDE_REGISTRY, DesiredState(Small(WIDE_TRUNK))), SERVER_KEY, EMPTY_HOST, b);
  }

  lemma BgpIsNoNumber(s: State)
    requires forall x :: x in s ==> x.record == DEFAULT_TRUNK
    ensures forall x :: x in s ==> !Readable(s, x, NAMING_HOST.protocolNames)
  {
    assert "bgp"[0] == 'b' && "bgp" !in Protocols(s);
  }

  lemma NamesUnreadable()
    ensures !OwnRoutesReadable(StateOf(REGISTRY, DesiredState(Small(DEFAULT_TRUNK))), NAMING_HOST.protocolNames)
  {
    var s := StateOf(REGISTRY, DesiredState(Small(DEFAULT_TRUNK)));
    SmallState(DEFAULT_TRUNK, REGISTRY);
    var x := SmallWants(DEFAULT_TRUNK, REGISTRY);
    BgpIsNoNumber(s);
    NetworkOffPool();
    assert NETWORK != DEFAULT_ROUTE;
  }

  /** The same for a harmless server address, where `ip` prints a name for the default route
      protocol: the trunk's own route then counts as somebody else's. */
  lemma ProtocolNameBlocksRerun() returns (b: Net)
    ensures Passes(REGISTRY, SERVER_KEY, DesiredState(Small(DEFAULT_TRUNK)), NAMING_HOST)
    ensures Applied(StateOf(REGISTRY, DesiredState(Small(DEFAULT_TRUNK))), SERVER_KEY, NAMING_HOST, b)
    ensures !Passes(REGISTRY, SERVER_KEY, DesiredState(Small(DEFAULT_TRUNK)), b)
  {
    EmptyPasses(DEFAULT_TRUNK, REGISTRY, NAMING_HOST.protocolNames);
    b := FirstRunExists(DEFAULT_TRUNK, REGISTRY, NAMING_HOST);
    NamesUnreadable();
    SecondRunAccepted(StateOf(REGISTRY, DesiredState(Small(DEFAULT_TRUNK))), SERVER_KEY, NAMING_HOST, b);
  }
}
