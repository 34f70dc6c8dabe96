// Every database that satisfies the portal's invariant is accepted by the controller: the
// portal's own checks suffice.

module Acceptance {
  import opened Seqs
  import opened Ipv4
  import opened Records
  import opened Registry
  import opened Payload
  import opened Validation
  import opened ValidationFacts
  import opened Database
  import opened PortalInvariant

  // ----- Peers of one trunk

  /** A Peer owns its own address, and a gateway also exactly the Networks of its Site. */
  lemma AllowedIpIs(db: Db, p: PeerRow, a: Network)
    ensures a in AllowedIps(db, p) <==>
            a == HostNet(p.ip) || (p.gateway && exists n :: n in db.networks && n.siteId == p.siteId && n.cidr == a)
  {
    if a in AllowedIps(db, p) && a != HostNet(p.ip) {
      var n :| n in NetworksOf(db, p.siteId) && n.cidr == a;
      assert n in db.networks;
    }
    if p.gateway && exists n :: n in db.networks && n.siteId == p.siteId && n.cidr == a {
      var n :| n in db.networks && n.siteId == p.siteId && n.cidr == a;
      assert n in NetworksOf(db, p.siteId) && a in Cidrs(NetworksOf(db, p.siteId));
    }
  }

  lemma IpOffNetwork(db: Db, ip: int, i: InstanceRow, n: NetworkRow)
    requires Inv(db) && i in db.instances && n in db.networks
    requires i.record.vpnPool.base <= ip <= i.record.vpnPool.Last()
    ensures !Overlaps(HostNet(ip), n.cidr) && !Overlaps(n.cidr, HostNet(ip))
  {
    HostNetFacts(ip);
    assert !Overlaps(n.cidr, i.record.vpnPool);
    InsideApart(n.cidr, i.record.vpnPool, n.cidr, HostNet(ip));
  }

  lemma IpsApart(a: int, b: int)
    requires a != b
    ensures !Overlaps(HostNet(a), HostNet(b))
  {
    HostNetFacts(a);
    HostNetFacts(b);
  }

  lemma PeersDoNotShare(db: Db, p: PeerRow, q: PeerRow, a: Network, b: Network)
    requires Inv(db) && p in db.peers && q in db.peers && p != q
    requires a in AllowedIps(db, p) && b in AllowedIps(db, q)
    ensures !Overlaps(a, b)
  {
    var s, i := PeerInPool(db, p);
    var t, j := PeerInPool(db, q);
    AllowedIpIs(db, p, a);
    AllowedIpIs(db, q, b);
    if a == HostNet(p.ip) {
      if b == HostNet(q.ip) {
        PeerIpsDiffer(db, p, q);
        IpsApart(p.ip, q.ip);
      } else {
        var n :| n in db.networks && n.siteId == q.siteId && n.cidr == b;
        IpOffNetwork(db, p.ip, i, n);
      }
    } else {
      var m :| m in db.networks && m.siteId == p.siteId && m.cidr == a;
      if b == HostNet(q.ip) {
        IpOffNetwork(db, q.ip, j, m);
      } else {
        var n :| n in db.networks && n.siteId == q.siteId && n.cidr == b;
        assert p.siteId != q.siteId;
        assert m != n;
      }
    }
  }

  lemma AdminDoesNotShare(db: Db, p: PeerRow, q: AdminRow, a: Network)
    requires Inv(db) && p in db.peers && q in db.admins && a in AllowedIps(db, p)
    ensures !Overlaps(a, HostNet(q.ip))
  {
    AllowedIpIs(db, p, a);
    var j :| j in db.instances && j.id == q.instanceId;
    AdminIpFacts(db, q, j);
    if a == HostNet(p.ip) {
      PeerAdminDiffer(db, p, q);
      IpsApart(p.ip, q.ip);
    } else {
      var n :| n in db.networks && n.siteId == p.siteId && n.cidr == a;
      IpOffNetwork(db, q.ip, j, n);
    }
  }

  predicate Separate(p: Peer, q: Peer) {
    p.publicKey != q.publicKey && AllowedDisjoint(p, q)
  }

  lemma PeerEntriesSeparate(db: Db, p: PeerRow, q: PeerRow)
    requires Inv(db) && p in db.peers && q in db.peers && p != q
    ensures Separate(PeerEntry(db, p), PeerEntry(db, q))
  {
    forall a, b | a in AllowedIps(db, p) && b in AllowedIps(db, q) ensures !Overlaps(a, b) {
      PeersDoNotShare(db, p, q, a, b);
    }
  }

  lemma AdminEntriesSeparate(db: Db, p: AdminRow, q: AdminRow)
    requires Inv(db) && p in db.admins && q in db.admins && p != q
    ensures Separate(AdminEntry(p), AdminEntry(q))
  {
    AdminIpsDiffer(db, p, q);
    IpsApart(p.ip, q.ip);
  }

  lemma MixedEntriesSeparate(db: Db, p: PeerRow, q: AdminRow)
    requires Inv(db) && p in db.peers && q in db.admins
    ensures Separate(PeerEntry(db, p), AdminEntry(q))
  {
    forall a | a in AllowedIps(db, p) ensures !Overlaps(a, HostNet(q.ip)) {
      AdminDoesNotShare(db, p, q, a);
    }
  }

  lemma SeparateConcat(a: seq<Peer>, b: seq<Peer>)
    requires forall i, j :: 0 <= i < j < |a| ==> Separate(a[i], a[j])
    requires forall i, j :: 0 <= i < j < |b| ==> Separate(b[i], b[j])
    requires forall i, j :: 0 <= i < |a| && 0 <= j < |b| ==> Separate(a[i], b[j])
    ensures PeersSeparate(a + b)
  {
    var all := a + b;
    forall i, j | 0 <= i < j < |all|
      ensures all[i].publicKey != all[j].publicKey && AllowedDisjoint(all[i], all[j])
    {
      if i < |a| {
        if j < |a| {
          assert Separate(a[i], a[j]);
        } else {
          assert Separate(a[i], b[j - |a|]);
        }
      } else {
        assert Separate(b[i - |a|], b[j - |a|]);
      }
    }
  }

  lemma EntriesSeparate(db: Db, rows: seq<PeerRow>, admins: seq<AdminRow>)
    requires Inv(db) && Distinct(rows) && Distinct(admins)
    requires forall p :: p in rows ==> p in db.peers
    requires forall p :: p in admins ==> p in db.admins
    ensures PeersSeparate(PeerEntries(db, rows) + AdminEntries(admins))
  {
    var a, b := PeerEntries(db, rows), AdminEntries(admins);
    forall i, j | 0 <= i < j < |a| ensures Separate(a[i], a[j]) {
      assert rows[i] in rows && rows[j] in rows;
      PeerEntriesSeparate(db, rows[i], rows[j]);
    }
    forall i, j | 0 <= i < j < |b| ensures Separate(b[i], b[j]) {
      assert admins[i] in admins && admins[j] in admins;
      AdminEntriesSeparate(db, admins[i], admins[j]);
    }
    forall i, j | 0 <= i < |a| && 0 <= j < |b| ensures Separate(a[i], b[j]) {
      assert rows[i] in rows && admins[j] in admins;
      MixedEntriesSeparate(db, rows[i], admins[j]);
    }
    SeparateConcat(a, b);
  }

  lemma TrunkPeersSeparate(db: Db, i: InstanceRow)
    requires Inv(db)
    ensures PeersSeparate(TrunkState(db, i).peers)
  {
    DistinctPeersOf(db, i.id);
    DistinctAdminsOf(db, i.id);
    EntriesSeparate(db, PeersOf(db, i.id), AdminsOf(db, i.id));
  }

  lemma DistinctPeersOf(db: Db, instanceId: nat)
    requires Distinct(db.peers)
    ensures Distinct(PeersOf(db, instanceId))
  {
    var ids := SiteIds(db, instanceId);
    var keep := (p: PeerRow) => p.siteId in ids;
    FilterDistinct(keep, db.peers);
  }

  lemma DistinctAdminsOf(db: Db, instanceId: nat)
    requires Distinct(db.admins)
    ensures Distinct(AdminsOf(db, instanceId))
  {
    FilterDistinct((p: AdminRow) => p.instanceId == instanceId, db.admins);
  }

  // ----- a trunk state is clean

  lemma PeerEntryClean(db: Db, p: PeerRow)
    requires Inv(db) && p in db.peers
    ensures ValidKey(p.key) && (p.psk.Some? ==> ValidKey(p.psk.value)) && NetworksOk(AllowedIps(db, p))
  {
    var s, i := PeerInPool(db, p);
    PeerIpFacts(db, p, s);
    forall a | a in AllowedIps(db, p) ensures a.Valid() {
      AllowedIpIs(db, p, a);
    }
  }

  lemma AdminEntryClean(db: Db, p: AdminRow)
    requires Inv(db) && p in db.admins
    ensures ValidKey(p.key) && (p.psk.Some? ==> ValidKey(p.psk.value)) && HostNet(p.ip).Valid()
  {
    var i :| i in db.instances && i.id == p.instanceId;
    AdminIpFacts(db, p, i);
  }

  lemma SiteEntryClean(db: Db, s: SiteRow)
    requires Inv(db) && s in db.sites
    ensures NetworksOk(SiteEntry(db, s).ranges)
  {
    var i := TrunkOf(db, s);
    SiteInPool(db, s, i);
    forall a | a in SiteEntry(db, s).ranges ensures a.Valid() {
      if a != s.cidr {
        var n :| n in NetworksOf(db, s.id) && n.cidr == a;
      }
    }
  }

  lemma PeersClean(db: Db, i: InstanceRow)
    requires Inv(db)
    ensures forall p :: p in TrunkState(db, i).peers ==>
              ValidKey(p.publicKey) && (p.psk.Some? ==> ValidKey(p.psk.value)) && NetworksOk(p.allowedIps)
  {
    var rows, admins := PeersOf(db, i.id), AdminsOf(db, i.id);
    forall k | 0 <= k < |rows| ensures NetworksOk(PeerEntry(db, rows[k]).allowedIps) && rows[k] in db.peers {
      assert rows[k] in rows;
      PeerEntryClean(db, rows[k]);
    }
    forall k | 0 <= k < |admins| ensures NetworksOk(AdminEntry(admins[k]).allowedIps) && admins[k] in db.admins {
      assert admins[k] in admins;
      AdminEntryClean(db, admins[k]);
    }
  }

  lemma RouteIsNetwork(db: Db, i: InstanceRow, dst: Network)
    requires dst in TrunkState(db, i).routes
    ensures exists n, s :: && n in db.networks && s in db.sites && n.siteId == s.id
                           && s.instanceId == i.id && n.cidr == dst
  {
    var s :| s in SitesOf(db, i.id) && dst in Cidrs(NetworksOf(db, s.id));
    var n :| n in NetworksOf(db, s.id) && n.cidr == dst;
    assert n in db.networks && s in db.sites;
  }

  lemma TrunkClean(db: Db, i: InstanceRow)
    requires Inv(db)
    ensures Clean(TrunkState(db, i))
  {
    var x := TrunkState(db, i);
    PeersClean(db, i);
    forall s | s in x.sites ensures NetworksOk(s.ranges) {
      var rows := SitesOf(db, i.id);
      var k :| 0 <= k < |rows| && s == SiteEntry(db, rows[k]);
      assert rows[k] in rows;
      SiteEntryClean(db, rows[k]);
    }
    forall a | a in x.adminAddresses ensures a.Valid() {
      var admins := AdminsOf(db, i.id);
      var k :| 0 <= k < |admins| && a == HostNet(admins[k].ip);
      assert admins[k] in admins;
      AdminEntryClean(db, admins[k]);
    }
    forall dst | dst in x.routes ensures dst.Valid() {
      RouteIsNetwork(db, i, dst);
    }
  }

  // ----- the whole state

  /** The trunks of the database are those of the registry. */
  predicate MatchesRegistry(db: Db, reg: Instances) {
    && (forall i :: i in db.instances ==> i.record.interface in reg && reg[i.record.interface] == i.record)
    && (forall d :: d in reg ==> exists i :: i in db.instances && i.record.interface == d)
  }

  lemma PayloadNames(db: Db, r: RawInstance)
    requires r in DesiredState(db)
    ensures exists i :: i in db.instances && i.record.interface == r.interface
  {
    var raws := DesiredState(db);
    var k :| 0 <= k < |raws| && raws[k] == r;
    assert db.instances[k] in db.instances;
  }

  lemma PayloadRecord(db: Db, reg: Instances, i: InstanceRow)
    requires TrunksOk(reg, DesiredState(db)) && i in db.instances && RecordOk(i.record)
    ensures i.record.interface in reg && reg[i.record.interface] == i.record
  {
    var raws := DesiredState(db);
    var k :| 0 <= k < |db.instances| && db.instances[k] == i;
    assert raws[k] == Wire(TrunkState(db, i)) && raws[k] in raws;
    AuthorizedRecord(reg, TrunkState(db, i));
  }

  lemma PayloadDevice(db: Db, reg: Instances, d: Device)
    requires ValidRegistry(reg) && Acceptable(reg, DesiredState(db)) && d in reg
    ensures exists i :: i in db.instances && i.record.interface == d
  {
    AcceptedNamesOnce(reg, DesiredState(db));
    var r :| r in DesiredState(db) && r.interface == d;
    PayloadNames(db, r);
  }

  /** A registry that accepts the database's payload has exactly the trunks of the database. */
  lemma AcceptedMatches(db: Db, reg: Instances)
    requires Inv(db) && ValidRegistry(reg) && Acceptable(reg, DesiredState(db))
    ensures MatchesRegistry(db, reg)
  {
    forall i | i in db.instances ensures i.record.interface in reg && reg[i.record.interface] == i.record {
      PayloadRecord(db, reg, i);
    }
    forall d | d in reg ensures exists i :: i in db.instances && i.record.interface == d {
      PayloadDevice(db, reg, d);
    }
  }

  lemma AuthorizedRecord(reg: Instances, x: Instance)
    requires RecordOk(x.record) && Authorized(reg, Wire(x))
    ensures x.Dev() in reg && reg[x.Dev()] == x.record
  {
    ShowRoundTrip(x.record.vpnPool);
  }

  lemma TrunkAccepted(db: Db, reg: Instances, i: InstanceRow)
    requires Inv(db) && MatchesRegistry(db, reg) && i in db.instances
    ensures var x := TrunkState(db, i); TrunkOk(reg, Wire(x)) && ToInstance(reg, Wire(x)) == x
  {
    TrunkClean(db, i);
    TrunkPeersSeparate(db, i);
    assert RecordOk(i.record);
    WireRoundTrip(reg, TrunkState(db, i));
  }

  /** The payload reads back in the controller as the state it was made from. */
  lemma DesiredReadsBack(db: Db, reg: Instances)
    requires Inv(db) && MatchesRegistry(db, reg)
    ensures TrunksOk(reg, DesiredState(db)) && ToInstances(reg, DesiredState(db)) == TrunkStates(db)
  {
    var raws, s := DesiredState(db), TrunkStates(db);
    forall k | 0 <= k < |raws| ensures TrunkOk(reg, raws[k]) && ToInstance(reg, raws[k]) == s[k] {
      assert db.instances[k] in db.instances;
      TrunkAccepted(db, reg, db.instances[k]);
    }
    assert TrunksOk(reg, raws);
  }

  lemma RoutesOfTrunksApart(db: Db, i: InstanceRow, j: InstanceRow, a: Network, b: Network)
    requires Inv(db) && i in db.instances && j in db.instances
    requires a in TrunkState(db, i).routes && b in TrunkState(db, j).routes && (i != j || a != b)
    ensures !Overlaps(a, b)
  {
    RouteIsNetwork(db, i, a);
    RouteIsNetwork(db, j, b);
    var n, s :| && n in db.networks && s in db.sites && n.siteId == s.id && s.instanceId == i.id && n.cidr == a;
    var m, t :| && m in db.networks && t in db.sites && m.siteId == t.id && t.instanceId == j.id && m.cidr == b;
    assert n != m;
  }

  lemma {:induction false} AllRoutesDistinct(s: State)
    requires forall x :: x in s ==> Distinct(x.routes)
    requires forall i, j, a :: 0 <= i < j < |s| && a in s[i].routes ==> a !in s[j].routes
    ensures Distinct(AllRoutes(s))
  {
    if s == [] {
    } else {
      var front, x := s[..|s| - 1], s[|s| - 1];
      assert s == front + [x];
      AllRoutesDistinct(front);
      forall a | a in AllRoutes(front) ensures a !in x.routes {
        var y :| y in front && a in y.routes;
        var k :| 0 <= k < |front| && front[k] == y;
        assert s[k] == y;
      }
      DistinctConcat(AllRoutes(front), x.routes);
    }
  }

  lemma DistinctConcat<T>(a: seq<T>, b: seq<T>)
    requires Distinct(a) && Distinct(b) && forall x :: x in a ==> x !in b
    ensures Distinct(a + b)
  {
    var all := a + b;
    forall i, j | 0 <= i < j < |all| ensures all[i] != all[j] {
      if i < |a| && j >= |a| {
        assert a[i] in a && b[j - |a|] in b;
      }
    }
  }

  /** A routed destination belongs to a trunk of the database. */
  lemma RouteOwner(db: Db, dst: Network) returns (i: InstanceRow)
    requires dst in AllRoutes(TrunkStates(db))
    ensures i in db.instances && dst in TrunkState(db, i).routes
  {
    var s := TrunkStates(db);
    var x :| x in s && dst in x.routes;
    var k :| 0 <= k < |s| && s[k] == x;
    i := db.instances[k];
  }

  lemma StatesRoutesDistinct(db: Db)
    requires Inv(db)
    ensures Distinct(AllRoutes(TrunkStates(db)))
  {
    var s := TrunkStates(db);
    forall x | x in s ensures Distinct(x.routes) {
      var k :| 0 <= k < |s| && s[k] == x;
      TrunkClean(db, db.instances[k]);
    }
    forall i, j, a | 0 <= i < j < |s| && a in s[i].routes ensures a !in s[j].routes {
      StateRoutesDiffer(db, i, j, a);
    }
    AllRoutesDistinct(s);
  }

  lemma StatesRoutesDisjoint(db: Db)
    requires Inv(db)
    ensures PairwiseDisjoint(AllRoutes(TrunkStates(db)))
  {
    var all := AllRoutes(TrunkStates(db));
    StatesRoutesDistinct(db);
    forall a, b | a in all && b in all && a != b ensures !Overlaps(a, b) {
      var i := RouteOwner(db, a);
      var j := RouteOwner(db, b);
      RoutesOfTrunksApart(db, i, j, a, b);
    }
    DisjointByMembers(all);
  }

  lemma StateRoutesDiffer(db: Db, i: nat, j: nat, a: Network)
    requires Inv(db) && i < j < |db.instances| && a in TrunkStates(db)[i].routes
    ensures a !in TrunkStates(db)[j].routes
  {
    assert db.instances[i] in db.instances && db.instances[j] in db.instances;
    if a in TrunkStates(db)[j].routes {
      RoutesOfTrunksApart(db, db.instances[i], db.instances[j], a, a);
    }
  }

  lemma StatesPoolsDisjoint(db: Db)
    requires Inv(db)
    ensures PairwiseDisjoint(Pools(TrunkStates(db)))
  {
    var s := TrunkStates(db);
    forall i, j | 0 <= i < j < |s| ensures !Overlaps(Pools(s)[i], Pools(s)[j]) {
      assert db.instances[i] in db.instances && db.instances[j] in db.instances;
      assert Apart(db.instances[i], db.instances[j]);
    }
  }

  lemma PoolOwner(db: Db, q: Network) returns (j: InstanceRow)
    requires q in Pools(TrunkStates(db))
    ensures j in db.instances && j.record.vpnPool == q
  {
    var pools := Pools(TrunkStates(db));
    var l :| 0 <= l < |pools| && pools[l] == q;
    j := db.instances[l];
  }

  lemma RouteOffPools(db: Db, dst: Network)
    requires Inv(db) && dst in AllRoutes(TrunkStates(db))
    ensures MeetsNone(dst, Pools(TrunkStates(db)))
  {
    var i := RouteOwner(db, dst);
    RouteIsNetwork(db, i, dst);
    forall q | q in Pools(TrunkStates(db)) ensures !Overlaps(dst, q) {
      var j := PoolOwner(db, q);
    }
  }

  lemma StatesAddressesOk(db: Db)
    requires Inv(db)
    ensures AddressesOk(TrunkStates(db))
  {
    StatesPoolsDisjoint(db);
    StatesRoutesDisjoint(db);
    forall dst | dst in AllRoutes(TrunkStates(db)) ensures MeetsNone(dst, Pools(TrunkStates(db))) {
      RouteOffPools(db, dst);
    }
  }

  lemma StateDeviceKnown(db: Db, reg: Instances, x: Instance)
    requires MatchesRegistry(db, reg) && x in TrunkStates(db)
    ensures x.Dev() in reg
  {
    var k :| 0 <= k < |db.instances| && TrunkStates(db)[k] == x;
    assert db.instances[k] in db.instances;
  }

  lemma KnownDeviceInState(db: Db, i: InstanceRow)
    requires i in db.instances
    ensures i.record.interface in Interfaces(TrunkStates(db))
  {
    var k :| 0 <= k < |db.instances| && db.instances[k] == i;
    assert TrunkStates(db)[k] in TrunkStates(db);
  }

  lemma StatesInterfaces(db: Db, reg: Instances)
    requires MatchesRegistry(db, reg)
    ensures Interfaces(TrunkStates(db)) == reg.Keys
  {
    var devs := Interfaces(TrunkStates(db));
    forall d | d in reg.Keys ensures d in devs {
      var i :| i in db.instances && i.record.interface == d;
      KnownDeviceInState(db, i);
    }
    forall d | d in devs ensures d in reg.Keys {
      var x :| x in TrunkStates(db) && x.Dev() == d;
      StateDeviceKnown(db, reg, x);
    }
  }

  /** The controller accepts the desired state of every database that follows the plan and
      whose trunks are the registered ones. */
  lemma PlannedIsAccepted(db: Db, reg: Instances)
    requires Inv(db) && MatchesRegistry(db, reg)
    ensures Acceptable(reg, DesiredState(db))
    ensures ToInstances(reg, DesiredState(db)) == TrunkStates(db)
  {
    DesiredReadsBack(db, reg);
    StatesAddressesOk(db);
    StatesInterfaces(db, reg);
  }
}
