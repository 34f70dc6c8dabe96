// Runs of the portal: which candidate states the controller accepts, and what holds in every
// database reached by any sequence of operations, whatever the controller and the commits do.

module PortalRuns {
  import opened Ipv4
  import opened Records
  import opened Registry
  import opened Provisioning
  import opened Payload
  import opened Validation
  import opened ValidationFacts
  import opened Database
  import opened PortalInvariant
  import opened Acceptance
  import opened Portal

  // ----- refused candidates

  lemma RoutesReadBack(reg: Instances, x: Instance, dst: Network)
    requires TrunkOk(reg, Wire(x)) && dst in x.routes && dst.Valid()
    ensures dst in ToInstance(reg, Wire(x)).routes
  {
    var texts := Wire(x).routes;
    var k :| 0 <= k < |x.routes| && x.routes[k] == dst;
    ShowRoundTrip(dst);
    assert texts[k] == Show(dst) && Networks(texts)[k] == dst;
  }

  /** Every Network of an enabled trunk reaches the controller as a route. */
  lemma NetworkIsRouted(db: Db, reg: Instances, i: InstanceRow, s: SiteRow, n: NetworkRow)
    requires TrunksOk(reg, DesiredState(db))
    requires i in db.instances && i.enabled && s in db.sites && s.instanceId == i.id
    requires n in db.networks && n.siteId == s.id && n.cidr.Valid()
    ensures n.cidr in AllRoutes(ToInstances(reg, DesiredState(db)))
  {
    var k :| 0 <= k < |db.instances| && db.instances[k] == i;
    var raws := DesiredState(db);
    var x := TrunkState(db, i);
    assert raws[k] == Wire(x) && raws[k] in raws;
    assert s in SitesOf(db, i.id) && n in NetworksOf(db, s.id);
    assert n.cidr in Cidrs(NetworksOf(db, s.id));
    assert n.cidr in Targets(db, SitesOf(db, i.id));
    RoutesReadBack(reg, x, n.cidr);
    assert ToInstances(reg, raws)[k] in ToInstances(reg, raws);
  }

  lemma OverlapIsRefused(db: Db, reg: Instances, i: InstanceRow, s: SiteRow, n: NetworkRow, m: NetworkRow)
    requires i in db.instances && i.enabled && s in db.sites && s.instanceId == i.id
    requires n in db.networks && n.siteId == s.id && n.cidr.Valid()
    requires m in db.networks && m.siteId == s.id && m.cidr.Valid()
    requires n.cidr != m.cidr && Overlaps(n.cidr, m.cidr)
    ensures !Acceptable(reg, DesiredState(db))
  {
    if TrunksOk(reg, DesiredState(db)) {
      NetworkIsRouted(db, reg, i, s, n);
      NetworkIsRouted(db, reg, i, s, m);
      DisjointByMembers(AllRoutes(ToInstances(reg, DesiredState(db))));
    }
  }

  lemma PoolIsListed(db: Db, reg: Instances, j: InstanceRow)
    requires TrunksOk(reg, DesiredState(db)) && j in db.instances && j.record.vpnPool.Valid()
    ensures j.record.vpnPool in Pools(ToInstances(reg, DesiredState(db)))
  {
    var k :| 0 <= k < |db.instances| && db.instances[k] == j;
    var raws := DesiredState(db);
    assert raws[k] == Wire(TrunkState(db, j)) && raws[k] in raws;
    assert TrunkOk(reg, raws[k]);
    ShowRoundTrip(j.record.vpnPool);
    assert Pools(ToInstances(reg, raws))[k] == j.record.vpnPool;
  }

  lemma PoolClashIsRefused(db: Db, reg: Instances, i: InstanceRow, j: InstanceRow, s: SiteRow, n: NetworkRow)
    requires i in db.instances && i.enabled && s in db.sites && s.instanceId == i.id
    requires n in db.networks && n.siteId == s.id && n.cidr.Valid()
    requires j in db.instances && j.record.vpnPool.Valid() && Overlaps(n.cidr, j.record.vpnPool)
    ensures !Acceptable(reg, DesiredState(db))
  {
    if TrunksOk(reg, DesiredState(db)) {
      NetworkIsRouted(db, reg, i, s, n);
      PoolIsListed(db, reg, j);
    }
  }

  lemma CrowdedSiteIsRefused(db: Db, reg: Instances, siteId: nat, cidr: Text)
    requires Inv(db) && AddNetwork(db, siteId, cidr).Some? && !SiteClear(db, siteId, ParseNetwork(cidr))
    ensures !Acceptable(reg, DesiredState(AddNetwork(db, siteId, cidr).value))
  {
    var next := AddNetwork(db, siteId, cidr).value;
    var s := FindSite(db, siteId).value;
    var i := TrunkOf(db, s);
    var row := NetworkRow(db.nextId, siteId, ParseNetwork(cidr));
    var m :| m in db.networks && m.siteId == siteId && Overlaps(ParseNetwork(cidr), m.cidr);
    assert row in next.networks && m in next.networks;
    OverlapIsRefused(next, reg, i, s, row, m);
  }

  lemma ClashingPoolIsRefused(db: Db, reg: Instances, r: Record)
    requires Inv(db) && AddTrunk(db, r).Some? && !PoolClear(db, r.vpnPool)
    ensures !Acceptable(reg, DesiredState(AddTrunk(db, r).value))
  {
    var next := AddTrunk(db, r).value;
    var n :| n in db.networks && Overlaps(n.cidr, r.vpnPool);
    var s :| s in db.sites && s.id == n.siteId;
    var i := TrunkOf(db, s);
    var row := InstanceRow(db.nextId, true, r);
    assert i in next.instances && row in next.instances;
    PoolClashIsRefused(next, reg, i, row, s, n);
  }

  // ----- the portal's checks against the controller's

  /** The one check that an operation leaves to the controller. */
  predicate LeftToController(db: Db, op: Op) {
    match op
    case NetworkNew(s, cidr) => Parses(cidr) ==> SiteClear(db, s, ParseNetwork(cidr))
    case InstanceNew(r) => PoolClear(db, r.vpnPool)
    case _ => true
  }

  lemma DropSiteKeepsInv(db: Db, id: nat)
    requires Inv(db)
    ensures Inv(DropSite(db, id))
  {
    DropSiteShrinks(db, id);
    ShrinkingKeepsInv(DropSite(db, id), db);
  }

  lemma DropNetworkKeepsInv(db: Db, id: nat)
    requires Inv(db)
    ensures Inv(DropNetwork(db, id))
  {
    DropRowShrinks(db, id);
    ShrinkingKeepsInv(DropNetwork(db, id), db);
  }

  lemma DropPeerKeepsInv(db: Db, id: nat)
    requires Inv(db)
    ensures Inv(DropPeer(db, id))
  {
    DropRowShrinks(db, id);
    ShrinkingKeepsInv(DropPeer(db, id), db);
  }

  lemma DropAdminKeepsInv(db: Db, id: nat)
    requires Inv(db)
    ensures Inv(DropAdmin(db, id))
  {
    DropRowShrinks(db, id);
    ShrinkingKeepsInv(DropAdmin(db, id), db);
  }

  lemma DeletedKeepsInv(db: Db, op: Op)
    requires Inv(db) && Candidate(db, op).Some?
    requires op.SiteDelete? || op.NetworkDelete? || op.PeerDelete? || op.AdminDelete?
    ensures Inv(Candidate(db, op).value)
  {
    match op
    case SiteDelete(s) => DropSiteKeepsInv(db, s);
    case NetworkDelete(n) => DropNetworkKeepsInv(db, n);
    case PeerDelete(p) => DropPeerKeepsInv(db, p);
    case AdminDelete(p) => DropAdminKeepsInv(db, p);
  }

  lemma RekeyedKeepsInv(db: Db, op: Op)
    requires Inv(db) && Candidate(db, op).Some? && (op.PeerRekey? || op.AdminRekey?)
    ensures Inv(Candidate(db, op).value)
  {
    match op
    case PeerRekey(p, key, psk) => RekeyPeerKeepsInv(db, p, key, psk);
    case AdminRekey(p, key, psk) => RekeyAdminKeepsInv(db, p, key, psk);
  }

  lemma CandidateKeepsInv(db: Db, op: Op)
    requires Inv(db) && Candidate(db, op).Some?
    ensures Inv(Candidate(db, op).value) <==> LeftToController(db, op)
  {
    match op
    case InstanceNew(r) => TrunkKeepsInv(db, r);
    case SiteNew(i, name) => SiteKeepsInv(db, i, name);
    case NetworkNew(s, cidr) => NetworkKeepsInv(db, s, cidr);
    case PeerNew(s, gateway, key, psk) => PeerKeepsInv(db, s, gateway, key, psk);
    case AdminNew(i, key, psk) => AdminKeepsInv(db, i, key, psk);
    case PeerRekey(_, _, _) => RekeyedKeepsInv(db, op);
    case AdminRekey(_, _, _) => RekeyedKeepsInv(db, op);
    case _ => DeletedKeepsInv(db, op);
  }

  lemma AcceptedWasClear(db: Db, op: Op, reg: Instances)
    requires Inv(db) && Candidate(db, op).Some? && Acceptable(reg, DesiredState(Candidate(db, op).value))
    ensures LeftToController(db, op)
  {
    match op
    case InstanceNew(r) =>
      if !PoolClear(db, r.vpnPool) {
        ClashingPoolIsRefused(db, reg, r);
      }
    case NetworkNew(s, cidr) =>
      if Parses(cidr) && !SiteClear(db, s, ParseNetwork(cidr)) {
        CrowdedSiteIsRefused(db, reg, s, cidr);
      }
    case _ =>
  }

  /** The portal's checks suffice, with two exact exceptions: from a planned database, when the
      registry has the trunks of the candidate, the controller accepts the candidate of any
      operation, except that a new Network must not meet another Network of its own Site, and a
      new trunk's pool must not meet a Network. */
  lemma PortalChecksSuffice(db: Db, op: Op, reg: Instances)
    requires Inv(db) && Candidate(db, op).Some? && MatchesRegistry(Candidate(db, op).value, reg)
    ensures Acceptable(reg, DesiredState(Candidate(db, op).value)) <==> LeftToController(db, op)
  {
    var next := Candidate(db, op).value;
    CandidateKeepsInv(db, op);
    if LeftToController(db, op) {
      PlannedIsAccepted(next, reg);
    } else if Acceptable(reg, DesiredState(next)) {
      AcceptedWasClear(db, op, reg);
    }
  }

  // ----- runs

  /** One operation, the registry that the controller has at that time, and whether the
      reconcile and the commit go through apart from validation. */
  datatype Event = Event(op: Op, reg: Instances, works: bool)

  /** The committed database after an operation: the candidate, or the previous one. */
  function Step(db: Db, e: Event): Db {
    var next := Candidate(db, e.op);
    if next.Some? && e.works && Acceptable(e.reg, DesiredState(next.value)) then next.value else db
  }

  function RunAll(db: Db, events: seq<Event>): Db {
    if events == [] then db else Step(RunAll(db, events[..|events| - 1]), events[|events| - 1])
  }

  /** After installation: the default trunk and nothing else. */
  predicate Initial(db: Db) {
    && |db.instances| == 1 && db.instances[0].enabled && RecordOk(db.instances[0].record)
    && db.instances[0].id < db.nextId
    && db.sites == [] && db.networks == [] && db.peers == [] && db.admins == []
  }

  lemma InitialIsPlanned(db: Db)
    requires Initial(db)
    ensures Inv(db)
  {
    assert forall i :: i in db.instances ==> i == db.instances[0];
  }

  lemma StepKeepsInv(db: Db, e: Event)
    requires Inv(db)
    ensures Inv(Step(db, e))
  {
    var next := Candidate(db, e.op);
    if next.Some? && e.works && Acceptable(e.reg, DesiredState(next.value)) {
      AcceptedWasClear(db, e.op, e.reg);
      CandidateKeepsInv(db, e.op);
    }
  }

  /** The address plan holds in every database reached from an installation. */
  lemma {:induction false} ReachableIsPlanned(db: Db, events: seq<Event>)
    requires Initial(db)
    ensures Inv(RunAll(db, events))
  {
    if events == [] {
      InitialIsPlanned(db);
    } else {
      ReachableIsPlanned(db, events[..|events| - 1]);
      StepKeepsInv(RunAll(db, events[..|events| - 1]), events[|events| - 1]);
    }
  }

  // ----- trunks and the registry

  /** A trunk provisioned for the first host of its pool fits a database that matches the
      registry, and the two match again afterwards. */
  lemma ProvisionedTrunkFits(db: Db, reg: Instances, a: Action)
    requires Inv(db) && ValidRegistry(reg) && MatchesRegistry(db, reg)
    requires a.Provision? && Admissible(reg, a)
    requires var pool := ParseNetwork(a.request.vpnPool);
             ParseInterface(a.request.serverAddress) == Interface(pool.base + 1, pool.len)
    ensures var r := NewRecord(reg, a.request, a.key, a.protocol);
            AddTrunk(db, r).Some? && MatchesRegistry(AddTrunk(db, r).value, After(reg, a))
  {
    var r := NewRecord(reg, a.request, a.key, a.protocol);
    NewRecordOk(reg, a.request, a.key, a.protocol);
    assert TrunkFits(db, r) by {
      forall i | i in db.instances
        ensures i.record.interface != r.interface && i.record.listenPort != r.listenPort
        ensures !Overlaps(r.vpnPool, i.record.vpnPool)
      {
        assert reg[i.record.interface] == i.record;
      }
    }
    TrunkMatchesAgain(db, reg, r);
  }

  lemma TrunkMatchesAgain(db: Db, reg: Instances, r: Record)
    requires MatchesRegistry(db, reg) && AddTrunk(db, r).Some? && r.interface !in reg
    ensures MatchesRegistry(AddTrunk(db, r).value, reg[r.interface := r])
  {
    var next := AddTrunk(db, r).value;
    var row := InstanceRow(db.nextId, true, r);
    assert forall i :: i in next.instances <==> i in db.instances || i == row;
    var after := reg[r.interface := r];
    forall d | d in after.Keys ensures exists i :: i in next.instances && i.record.interface == d {
      if d == r.interface {
        assert row in next.instances;
      } else {
        var i :| i in db.instances && i.record.interface == d;
        assert i in next.instances;
      }
    }
  }

  /** A trunk that stays behind in the registry blocks every synchronization. */
  lemma OrphanBlocksSync(db: Db, reg: Instances, d: Device)
    requires ValidRegistry(reg) && d in reg
    requires forall i :: i in db.instances ==> i.record.interface != d
    ensures !Acceptable(reg, DesiredState(db))
  {
    forall r | r in DesiredState(db) ensures r.interface != d {
      PayloadNames(db, r);
    }
    if Acceptable(reg, DesiredState(db)) {
      AcceptedNamesOnce(reg, DesiredState(db));
    }
  }
}
