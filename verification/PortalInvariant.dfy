// The invariant of the portal's database, and what it implies: the desired state of every
// database that satisfies it is accepted by the controller.

module PortalInvariant {
  import opened Seqs
  import opened Ipv4
  import opened Records
  import opened Ipam
  import opened Database

  // ----- rows and their ids

  predicate TrunkIds(s: seq<InstanceRow>) {
    Distinct(s) && forall r, q :: r in s && q in s && r.id == q.id ==> r == q
  }

  predicate SiteIdsUnique(s: seq<SiteRow>) {
    Distinct(s) && forall r, q :: r in s && q in s && r.id == q.id ==> r == q
  }

  predicate NetworkIds(s: seq<NetworkRow>) {
    Distinct(s) && forall r, q :: r in s && q in s && r.id == q.id ==> r == q
  }

  predicate PeerIds(s: seq<PeerRow>) {
    Distinct(s) && forall r, q :: r in s && q in s && r.id == q.id ==> r == q
  }

  predicate AdminIds(s: seq<AdminRow>) {
    Distinct(s) && forall r, q :: r in s && q in s && r.id == q.id ==> r == q
  }

  predicate IdsBelow(db: Db) {
    && (forall r :: r in db.instances ==> r.id < db.nextId)
    && (forall r :: r in db.sites ==> r.id < db.nextId)
    && (forall r :: r in db.networks ==> r.id < db.nextId)
    && (forall r :: r in db.peers ==> r.id < db.nextId)
    && (forall r :: r in db.admins ==> r.id < db.nextId)
  }

  predicate IdsUnique(db: Db) {
    && TrunkIds(db.instances) && SiteIdsUnique(db.sites) && NetworkIds(db.networks)
    && PeerIds(db.peers) && AdminIds(db.admins)
  }

  // ----- the address plan

  predicate Apart(a: InstanceRow, b: InstanceRow) {
    && a.record.interface != b.record.interface
    && a.record.listenPort != b.record.listenPort
    && !Overlaps(a.record.vpnPool, b.record.vpnPool)
  }

  predicate TrunksPlanned(trunks: seq<InstanceRow>) {
    && (forall i :: i in trunks ==> i.enabled && RecordOk(i.record))
    && (forall i, j :: i in trunks && j in trunks && i != j ==> Apart(i, j))
  }

  /** Every Site has a /24 of its own in its trunk's pool, not the first one. */
  predicate SitesPlanned(trunks: seq<InstanceRow>, sites: seq<SiteRow>) {
    && (forall s :: s in sites ==> exists i :: i in trunks && i.id == s.instanceId)
    && (forall s, i :: s in sites && i in trunks && i.id == s.instanceId ==> IsSiteBlock(i.record.vpnPool, s.cidr))
    && (forall s, t :: s in sites && t in sites && s != t && s.instanceId == t.instanceId ==> s.cidr != t.cidr)
  }

  predicate NetworksOwned(sites: seq<SiteRow>, networks: seq<NetworkRow>) {
    forall n :: n in networks ==> n.cidr.Valid() && exists s :: s in sites && s.id == n.siteId
  }

  /** No Network meets a pool. */
  predicate NetworksOffPools(trunks: seq<InstanceRow>, networks: seq<NetworkRow>) {
    forall n, i :: n in networks && i in trunks ==> !Overlaps(n.cidr, i.record.vpnPool)
  }

  /** No Network meets another Network. */
  predicate NetworksApart(networks: seq<NetworkRow>) {
    forall n, m :: n in networks && m in networks && n != m ==> !Overlaps(n.cidr, m.cidr)
  }

  predicate PeersPlanned(sites: seq<SiteRow>, peers: seq<PeerRow>) {
    && (forall p :: p in peers ==> exists s :: s in sites && s.id == p.siteId)
    && (forall p, s :: p in peers && s in sites && s.id == p.siteId ==> IsHostOf(s.cidr, p.ip))
    && (forall p, q :: p in peers && q in peers && p != q && p.siteId == q.siteId ==>
          p.ip != q.ip && !(p.gateway && q.gateway))
  }

  predicate AdminsPlanned(trunks: seq<InstanceRow>, admins: seq<AdminRow>) {
    && (forall p :: p in admins ==> exists i :: i in trunks && i.id == p.instanceId)
    && (forall p, i :: p in admins && i in trunks && i.id == p.instanceId ==>
          IsHostOf(Subnet(i.record.vpnPool, 0), p.ip))
    && (forall p, q :: p in admins && q in admins && p != q && p.instanceId == q.instanceId ==> p.ip != q.ip)
  }

  predicate KeysPlanned(peers: seq<PeerRow>, admins: seq<AdminRow>) {
    && (forall p :: p in peers ==> ValidKey(p.key) && (p.psk.Some? ==> ValidKey(p.psk.value)))
    && (forall p :: p in admins ==> ValidKey(p.key) && (p.psk.Some? ==> ValidKey(p.psk.value)))
    && (forall p, q :: p in peers && q in peers && p != q ==> p.key != q.key)
    && (forall p, q :: p in admins && q in admins && p != q ==> p.key != q.key)
    && (forall p, q :: p in peers && q in admins ==> p.key != q.key)
  }

  predicate Inv(db: Db) {
    && IdsUnique(db) && IdsBelow(db)
    && TrunksPlanned(db.instances)
    && SitesPlanned(db.instances, db.sites)
    && NetworksOwned(db.sites, db.networks)
    && NetworksOffPools(db.instances, db.networks)
    && NetworksApart(db.networks)
    && PeersPlanned(db.sites, db.peers)
    && AdminsPlanned(db.instances, db.admins)
    && KeysPlanned(db.peers, db.admins)
  }

  // ----- what the plan says about addresses

  function TrunkOf(db: Db, s: SiteRow): (i: InstanceRow)
    requires IdsUnique(db) && SitesPlanned(db.instances, db.sites) && s in db.sites
    ensures i in db.instances && i.id == s.instanceId
  {
    var i :| i in db.instances && i.id == s.instanceId;
    i
  }

  lemma BlockFacts(pool: Network, n: Network)
    requires pool.Valid() && pool.len <= 24 && IsSiteBlock(pool, n)
    ensures n.Valid() && n.len == 24 && n.Last() == n.base + 255
    ensures pool.base + 256 <= n.base && n.Last() <= pool.Last()
  {
    var k :| 1 <= k < SubnetCount(pool) && n == Subnet(pool, k);
    SubnetInPool(pool, k);
  }

  lemma FirstBlockFacts(pool: Network)
    requires pool.Valid() && pool.len <= 24
    ensures var n := Subnet(pool, 0);
            n.Valid() && n.base == pool.base && n.Last() == pool.base + 255 && n.Last() <= pool.Last()
  {
    PoolSize(pool);
    SubnetInPool(pool, 0);
  }

  lemma BlocksDisjoint(pool: Network, m: Network, n: Network)
    requires IsSiteBlock(pool, m) && IsSiteBlock(pool, n) && m != n
    ensures !Overlaps(m, n)
  {
    var j :| 1 <= j < SubnetCount(pool) && m == Subnet(pool, j);
    var k :| 1 <= k < SubnetCount(pool) && n == Subnet(pool, k);
    SubnetsDisjoint(pool, j, k);
  }

  /** Where a Site's block lies. */
  lemma SiteInPool(db: Db, s: SiteRow, i: InstanceRow)
    requires Inv(db) && s in db.sites && i in db.instances && i.id == s.instanceId
    ensures s.cidr.Valid() && s.cidr.len == 24 && s.cidr.Last() == s.cidr.base + 255
    ensures i.record.vpnPool.base + 256 <= s.cidr.base && s.cidr.Last() <= i.record.vpnPool.Last()
  {
    assert RecordOk(i.record);
    BlockFacts(i.record.vpnPool, s.cidr);
  }

  lemma InsideApart(p: Network, q: Network, m: Network, n: Network)
    requires !Overlaps(p, q)
    requires p.base <= m.base && m.Last() <= p.Last() && q.base <= n.base && n.Last() <= q.Last()
    ensures !Overlaps(m, n)
  {
  }

  /** Site blocks of the whole database share no address. */
  lemma SitesDisjoint(db: Db, s: SiteRow, t: SiteRow)
    requires Inv(db) && s in db.sites && t in db.sites && s != t
    ensures !Overlaps(s.cidr, t.cidr)
  {
    var i, j := TrunkOf(db, s), TrunkOf(db, t);
    if i == j {
      BlocksDisjoint(i.record.vpnPool, s.cidr, t.cidr);
    } else {
      SiteInPool(db, s, i);
      SiteInPool(db, t, j);
      assert Apart(i, j);
      InsideApart(i.record.vpnPool, j.record.vpnPool, s.cidr, t.cidr);
    }
  }

  lemma NetworkOffSite(db: Db, n: NetworkRow, s: SiteRow)
    requires Inv(db) && n in db.networks && s in db.sites
    ensures !Overlaps(n.cidr, s.cidr)
  {
    var i := TrunkOf(db, s);
    SiteInPool(db, s, i);
    InsideApart(n.cidr, i.record.vpnPool, n.cidr, s.cidr);
  }

  lemma HostNetFacts(ip: int)
    ensures HostNet(ip).Last() == ip && (0 <= ip < ADDRESS_SPACE ==> HostNet(ip).Valid())
  {
    assert BlockSize(32) == 1;
  }

  lemma PeerIpFacts(db: Db, p: PeerRow, s: SiteRow)
    requires Inv(db) && p in db.peers && s in db.sites && s.id == p.siteId
    ensures HostNet(p.ip).Valid() && HostNet(p.ip).Last() == p.ip
    ensures s.cidr.base + 10 <= p.ip < s.cidr.Last()
  {
    var i := TrunkOf(db, s);
    SiteInPool(db, s, i);
    NetworkFits(s.cidr);
    assert IsHostOf(s.cidr, p.ip);
    HostNetFacts(p.ip);
  }

  lemma AdminIpFacts(db: Db, p: AdminRow, i: InstanceRow)
    requires Inv(db) && p in db.admins && i in db.instances && i.id == p.instanceId
    ensures HostNet(p.ip).Valid() && HostNet(p.ip).Last() == p.ip
    ensures i.record.vpnPool.base + 10 <= p.ip < i.record.vpnPool.base + 255 <= i.record.vpnPool.Last()
  {
    assert RecordOk(i.record);
    FirstBlockFacts(i.record.vpnPool);
    NetworkFits(i.record.vpnPool);
    assert IsHostOf(Subnet(i.record.vpnPool, 0), p.ip);
    HostNetFacts(p.ip);
  }

  /** Addresses handed out are pairwise different, and none is the first host of a pool, which
      is the server address of every trunk created through the portal. */
  lemma AddressesUnique(db: Db)
    requires Inv(db)
    ensures forall p, q :: p in db.peers && q in db.peers && p != q ==> p.ip != q.ip
    ensures forall p, q :: p in db.admins && q in db.admins && p != q ==> p.ip != q.ip
    ensures forall p, q :: p in db.peers && q in db.admins ==> p.ip != q.ip
    ensures forall p, i :: p in db.peers && i in db.instances ==> p.ip != i.record.vpnPool.base + 1
    ensures forall p, i :: p in db.admins && i in db.instances ==> p.ip != i.record.vpnPool.base + 1
  {
    forall p, q | p in db.peers && q in db.peers && p != q ensures p.ip != q.ip {
      PeerIpsDiffer(db, p, q);
    }
    forall p, q | p in db.admins && q in db.admins && p != q ensures p.ip != q.ip {
      AdminIpsDiffer(db, p, q);
    }
    forall p, q | p in db.peers && q in db.admins ensures p.ip != q.ip {
      PeerAdminDiffer(db, p, q);
    }
    forall p, i | p in db.peers && i in db.instances ensures p.ip != i.record.vpnPool.base + 1 {
      PeerNotServer(db, p, i);
    }
    forall p, i | p in db.admins && i in db.instances ensures p.ip != i.record.vpnPool.base + 1 {
      AdminNotServer(db, p, i);
    }
  }

  lemma PeerIpsDiffer(db: Db, p: PeerRow, q: PeerRow)
    requires Inv(db) && p in db.peers && q in db.peers && p != q
    ensures p.ip != q.ip
  {
    var s :| s in db.sites && s.id == p.siteId;
    var t :| t in db.sites && t.id == q.siteId;
    if s != t {
      SitesDisjoint(db, s, t);
      PeerIpFacts(db, p, s);
      PeerIpFacts(db, q, t);
    }
  }

  lemma AdminIpsDiffer(db: Db, p: AdminRow, q: AdminRow)
    requires Inv(db) && p in db.admins && q in db.admins && p != q
    ensures p.ip != q.ip
  {
    var i :| i in db.instances && i.id == p.instanceId;
    var j :| j in db.instances && j.id == q.instanceId;
    if i != j {
      assert Apart(i, j);
      AdminIpFacts(db, p, i);
      AdminIpFacts(db, q, j);
    }
  }

  lemma PeerInPool(db: Db, p: PeerRow) returns (s: SiteRow, i: InstanceRow)
    requires Inv(db) && p in db.peers
    ensures s in db.sites && s.id == p.siteId && i in db.instances && i.id == s.instanceId
    ensures i.record.vpnPool.base + 256 <= p.ip <= i.record.vpnPool.Last()
  {
    s :| s in db.sites && s.id == p.siteId;
    i := TrunkOf(db, s);
    PeerIpFacts(db, p, s);
    SiteInPool(db, s, i);
  }

  lemma PeerAdminDiffer(db: Db, p: PeerRow, q: AdminRow)
    requires Inv(db) && p in db.peers && q in db.admins
    ensures p.ip != q.ip
  {
    var s, i := PeerInPool(db, p);
    var j :| j in db.instances && j.id == q.instanceId;
    AdminIpFacts(db, q, j);
    if i != j {
      assert Apart(i, j);
    }
  }

  lemma PeerNotServer(db: Db, p: PeerRow, j: InstanceRow)
    requires Inv(db) && p in db.peers && j in db.instances
    ensures p.ip != j.record.vpnPool.base + 1
  {
    var s, i := PeerInPool(db, p);
    assert RecordOk(j.record);
    FirstBlockFacts(j.record.vpnPool);
    if i != j {
      assert Apart(i, j);
    }
  }

  lemma AdminNotServer(db: Db, p: AdminRow, j: InstanceRow)
    requires Inv(db) && p in db.admins && j in db.instances
    ensures p.ip != j.record.vpnPool.base + 1
  {
    var i :| i in db.instances && i.id == p.instanceId;
    AdminIpFacts(db, p, i);
    assert RecordOk(j.record);
    FirstBlockFacts(j.record.vpnPool);
    if i != j {
      assert Apart(i, j);
    }
  }
}
