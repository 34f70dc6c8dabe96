// The portal's operations as transitions of the database (the state-changing handlers of
// vpnhub/routes.py), and the invariant over every run of them.

module Portal {
  import opened Seqs
  import opened Ipv4
  import opened Records
  import opened Ipam
  import opened Database
  import opened PortalInvariant

  datatype Op =
    | InstanceNew(record: Record)
    | SiteNew(instanceId: nat, name: string)
    | SiteDelete(siteId: nat)
    | NetworkNew(siteId: nat, cidr: Text)
    | NetworkDelete(networkId: nat)
    | PeerNew(siteId: nat, gateway: bool, key: Key, psk: Key)
    | PeerRekey(peerId: nat, key: Key, psk: Key)
    | PeerDelete(peerId: nat)
    | AdminNew(instanceId: nat, key: Key, psk: Key)
    | AdminRekey(adminId: nat, key: Key, psk: Key)
    | AdminDelete(adminId: nat)

  /** Key generation yields well-formed keys that nobody has. */
  predicate Fresh(db: Db, key: Key, psk: Key) {
    && ValidKey(key) && ValidKey(psk)
    && (forall p :: p in db.peers ==> p.key != key)
    && (forall p :: p in db.admins ==> p.key != key)
  }

  // ----- candidate states: what a handler flushes before it reconciles

  /** The record of a trunk that instance_new asks the controller for: its server address is the
      first host of the pool; the checks compare it with the trunks of the database. */
  predicate TrunkFits(db: Db, r: Record) {
    && RecordOk(r)
    && r.serverAddress == Interface(r.vpnPool.base + 1, r.vpnPool.len)
    && forall i :: i in db.instances ==>
         && i.record.interface != r.interface
         && i.record.listenPort != r.listenPort
         && !Overlaps(r.vpnPool, i.record.vpnPool)
  }

  function AddTrunk(db: Db, r: Record): Option<Db> {
    if !TrunkFits(db, r) then None
    else Some(db.(instances := db.instances + [InstanceRow(db.nextId, true, r)], nextId := db.nextId + 1))
  }

  function FindInstance(db: Db, id: nat): (r: Option<InstanceRow>)
    ensures r.Some? ==> r.value in db.instances && r.value.id == id
    ensures r.None? ==> forall i :: i in db.instances ==> i.id != id
  {
    var rows := Filter((i: InstanceRow) => i.id == id, db.instances);
    if rows == [] then
      assert forall i :: i in db.instances && i.id == id ==> i in rows;
      None
    else
      assert rows[0] in rows;
      Some(rows[0])
  }

  function FindSite(db: Db, id: nat): (r: Option<SiteRow>)
    ensures r.Some? ==> r.value in db.sites && r.value.id == id
    ensures r.None? ==> forall s :: s in db.sites ==> s.id != id
  {
    var rows := Filter((s: SiteRow) => s.id == id, db.sites);
    if rows == [] then
      assert forall s :: s in db.sites && s.id == id ==> s in rows;
      None
    else
      assert rows[0] in rows;
      Some(rows[0])
  }

  function UsedBlocks(db: Db, instanceId: nat): set<Network> {
    set s | s in db.sites && s.instanceId == instanceId :: s.cidr
  }

  /** site_new */
  function AddSite(db: Db, instanceId: nat, name: string): Option<Db> {
    var found := FindInstance(db, instanceId);
    if name == "" || found.None? then None
    else if exists s :: s in db.sites && s.instanceId == instanceId && s.name == name then None
    else
      var block := SiteBlock(found.value.record.vpnPool, UsedBlocks(db, instanceId));
      if block.None? then None
      else Some(db.(sites := db.sites + [SiteRow(db.nextId, instanceId, name, block.value)],
                    nextId := db.nextId + 1))
  }

  /** A Site as `site_delete` leaves the tables, with its Networks and Peers gone. */
  function DropSite(db: Db, id: nat): Db {
    db.(sites := Filter((s: SiteRow) => s.id != id, db.sites),
        networks := Filter((n: NetworkRow) => n.siteId != id, db.networks),
        peers := Filter((p: PeerRow) => p.siteId != id, db.peers))
  }

  /** The checks of network_new.  They compare with the Networks of other Sites by overlap, but
      with those of the same Site only by equality. */
  predicate NetworkPasses(db: Db, siteId: nat, n: Network) {
    && (forall i :: i in db.instances ==> !Overlaps(n, i.record.vpnPool))
    && (forall m :: m in db.networks && m.siteId == siteId ==> n != m.cidr)
    && (forall m :: m in db.networks && m.siteId != siteId ==> !Overlaps(n, m.cidr))
  }

  /** network_new */
  function AddNetwork(db: Db, siteId: nat, cidr: Text): Option<Db> {
    if FindSite(db, siteId).None? || !Parses(cidr) then None
    else
      var n := ParseNetwork(cidr);
      if !NetworkPasses(db, siteId, n) then None
      else Some(db.(networks := db.networks + [NetworkRow(db.nextId, siteId, n)], nextId := db.nextId + 1))
  }

  predicate HasNetwork(db: Db, id: nat) {
    exists n :: n in db.networks && n.id == id
  }

  function DropNetwork(db: Db, id: nat): Db {
    db.(networks := Filter((n: NetworkRow) => n.id != id, db.networks))
  }

  function UsedIps(db: Db, siteId: nat): set<int> {
    set p | p in db.peers && p.siteId == siteId :: p.ip
  }

  /** peer_new */
  function AddPeer(db: Db, siteId: nat, gateway: bool, key: Key, psk: Key): Option<Db> {
    var site := FindSite(db, siteId);
    if site.None? || !Fresh(db, key, psk) then None
    else if gateway && exists p :: p in db.peers && p.siteId == siteId && p.gateway then None
    else
      var ip := HostIn(site.value.cidr, UsedIps(db, siteId));
      if ip.None? then None
      else Some(db.(peers := db.peers + [PeerRow(db.nextId, siteId, gateway, key, Some(psk), ip.value)],
                    nextId := db.nextId + 1))
  }

  predicate HasPeer(db: Db, id: nat) {
    exists p :: p in db.peers && p.id == id
  }

  function RekeyedPeer(p: PeerRow, id: nat, key: Key, psk: Key): PeerRow {
    if p.id == id then p.(key := key, psk := Some(psk)) else p
  }

  function RekeyedPeers(s: seq<PeerRow>, id: nat, key: Key, psk: Key): (r: seq<PeerRow>)
    ensures |r| == |s| && forall i :: 0 <= i < |s| ==> r[i] == RekeyedPeer(s[i], id, key, psk)
  {
    seq(|s|, i requires 0 <= i < |s| => RekeyedPeer(s[i], id, key, psk))
  }

  /** peer_rekey */
  function RekeyPeer(db: Db, id: nat, key: Key, psk: Key): Option<Db> {
    if !Fresh(db, key, psk) || !HasPeer(db, id) then None
    else Some(db.(peers := RekeyedPeers(db.peers, id, key, psk)))
  }

  function DropPeer(db: Db, id: nat): Db {
    db.(peers := Filter((p: PeerRow) => p.id != id, db.peers))
  }

  function UsedAdminIps(db: Db, instanceId: nat): set<int> {
    set p | p in db.admins && p.instanceId == instanceId :: p.ip
  }

  /** admin_peer_new */
  function AddAdmin(db: Db, instanceId: nat, key: Key, psk: Key): Option<Db> {
    var found := FindInstance(db, instanceId);
    if found.None? || !Fresh(db, key, psk) then None
    else
      var ip := HostIn(Subnet(found.value.record.vpnPool, 0), UsedAdminIps(db, instanceId));
      if ip.None? then None
      else Some(db.(admins := db.admins + [AdminRow(db.nextId, instanceId, key, Some(psk), ip.value)],
                    nextId := db.nextId + 1))
  }

  predicate HasAdmin(db: Db, id: nat) {
    exists p :: p in db.admins && p.id == id
  }

  function RekeyedAdmin(p: AdminRow, id: nat, key: Key, psk: Key): AdminRow {
    if p.id == id then p.(key := key, psk := Some(psk)) else p
  }

  function RekeyedAdmins(s: seq<AdminRow>, id: nat, key: Key, psk: Key): (r: seq<AdminRow>)
    ensures |r| == |s| && forall i :: 0 <= i < |s| ==> r[i] == RekeyedAdmin(s[i], id, key, psk)
  {
    seq(|s|, i requires 0 <= i < |s| => RekeyedAdmin(s[i], id, key, psk))
  }

  /** admin_peer_rekey */
  function RekeyAdmin(db: Db, id: nat, key: Key, psk: Key): Option<Db> {
    if !Fresh(db, key, psk) || !HasAdmin(db, id) then None
    else Some(db.(admins := RekeyedAdmins(db.admins, id, key, psk)))
  }

  function DropAdmin(db: Db, id: nat): Db {
    db.(admins := Filter((p: AdminRow) => p.id != id, db.admins))
  }

  /** A request that names a row that does not exist has no candidate. */
  function Candidate(db: Db, op: Op): Option<Db> {
    match op
    case InstanceNew(r) => AddTrunk(db, r)
    case SiteNew(i, name) => AddSite(db, i, name)
    case SiteDelete(s) => if FindSite(db, s).Some? then Some(DropSite(db, s)) else None
    case NetworkNew(s, cidr) => AddNetwork(db, s, cidr)
    case NetworkDelete(n) => if HasNetwork(db, n) then Some(DropNetwork(db, n)) else None
    case PeerNew(s, gateway, key, psk) => AddPeer(db, s, gateway, key, psk)
    case PeerRekey(p, key, psk) => RekeyPeer(db, p, key, psk)
    case PeerDelete(p) => if HasPeer(db, p) then Some(DropPeer(db, p)) else None
    case AdminNew(i, key, psk) => AddAdmin(db, i, key, psk)
    case AdminRekey(p, key, psk) => RekeyAdmin(db, p, key, psk)
    case AdminDelete(p) => if HasAdmin(db, p) then Some(DropAdmin(db, p)) else None
  }

  // ----- appending a row

  /** A pool that meets no Network; instance_new leaves this check to the controller. */
  predicate PoolClear(db: Db, pool: Network) {
    forall n :: n in db.networks ==> !Overlaps(n.cidr, pool)
  }

  lemma TrunkAppend(db: Db, row: InstanceRow)
    requires Inv(db) && TrunkFits(db, row.record) && row.enabled && row.id == db.nextId
    ensures var t := db.instances + [row];
            TrunkIds(t) && TrunksPlanned(t) && SitesPlanned(t, db.sites) && AdminsPlanned(t, db.admins)
  {
    var t := db.instances + [row];
    assert forall i :: i in t <==> i in db.instances || i == row;
    forall i | i in db.instances ensures Apart(i, row) && Apart(row, i) && i.id != row.id {
      OverlapsSymmetric(row.record.vpnPool, i.record.vpnPool);
    }
    assert TrunkIds(t) && TrunksPlanned(t);
    TrunkAppendSites(db, row);
    TrunkAppendAdmins(db, row);
  }

  lemma TrunkAppendSites(db: Db, row: InstanceRow)
    requires Inv(db) && row.id == db.nextId
    ensures SitesPlanned(db.instances + [row], db.sites)
  {
    var t := db.instances + [row];
    forall s | s in db.sites ensures s.instanceId != row.id && exists i :: i in t && i.id == s.instanceId {
      var i := TrunkOf(db, s);
      assert i in t;
    }
  }

  lemma TrunkAppendAdmins(db: Db, row: InstanceRow)
    requires Inv(db) && row.id == db.nextId
    ensures AdminsPlanned(db.instances + [row], db.admins)
  {
    var t := db.instances + [row];
    forall p | p in db.admins ensures p.instanceId != row.id && exists i :: i in t && i.id == p.instanceId {
      var i :| i in db.instances && i.id == p.instanceId;
      assert i in t;
    }
  }

  lemma TrunkOffNetworks(db: Db, row: InstanceRow)
    requires Inv(db)
    ensures NetworksOffPools(db.instances + [row], db.networks) <==> PoolClear(db, row.record.vpnPool)
  {
    assert row in db.instances + [row];
    assert forall i :: i in db.instances + [row] <==> i in db.instances || i == row;
  }

  /** A new trunk keeps the plan exactly when its pool meets no Network. */
  lemma TrunkKeepsInv(db: Db, r: Record)
    requires Inv(db) && AddTrunk(db, r).Some?
    ensures Inv(AddTrunk(db, r).value) <==> PoolClear(db, r.vpnPool)
  {
    var row := InstanceRow(db.nextId, true, r);
    TrunkAppend(db, row);
    TrunkOffNetworks(db, row);
  }

  lemma NewBlock(db: Db, i: InstanceRow)
    requires Inv(db) && i in db.instances
    ensures var block := SiteBlock(i.record.vpnPool, UsedBlocks(db, i.id));
            block.Some? ==> IsSiteBlock(i.record.vpnPool, block.value) && block.value !in UsedBlocks(db, i.id)
  {
    SiteBlockFromIsFirst(i.record.vpnPool, UsedBlocks(db, i.id), 1);
  }

  lemma SiteAppend(db: Db, row: SiteRow, i: InstanceRow)
    requires Inv(db) && i in db.instances && row.instanceId == i.id && row.id == db.nextId
    requires IsSiteBlock(i.record.vpnPool, row.cidr) && row.cidr !in UsedBlocks(db, i.id)
    ensures SiteIdsUnique(db.sites + [row]) && SitesPlanned(db.instances, db.sites + [row])
  {
    var t := db.sites + [row];
    assert forall s :: s in t <==> s in db.sites || s == row;
    forall s | s in db.sites ensures s.id != row.id && (s.instanceId == i.id ==> s.cidr != row.cidr) {
    }
  }

  lemma SiteAppendOwned(db: Db, row: SiteRow)
    requires Inv(db)
    ensures NetworksOwned(db.sites + [row], db.networks)
  {
    forall n | n in db.networks ensures exists s :: s in db.sites + [row] && s.id == n.siteId {
      var s :| s in db.sites && s.id == n.siteId;
      assert s in db.sites + [row];
    }
  }

  lemma SiteAppendPeers(db: Db, row: SiteRow)
    requires Inv(db) && row.id == db.nextId
    ensures PeersPlanned(db.sites + [row], db.peers)
  {
    var t := db.sites + [row];
    forall p | p in db.peers ensures p.siteId != row.id && exists s :: s in t && s.id == p.siteId {
      var s :| s in db.sites && s.id == p.siteId;
      assert s in t;
    }
  }

  lemma SiteKeepsInv(db: Db, instanceId: nat, name: string)
    requires Inv(db) && AddSite(db, instanceId, name).Some?
    ensures Inv(AddSite(db, instanceId, name).value)
  {
    var i := FindInstance(db, instanceId).value;
    NewBlock(db, i);
    var row := SiteRow(db.nextId, instanceId, name, SiteBlock(i.record.vpnPool, UsedBlocks(db, instanceId)).value);
    SiteAppend(db, row, i);
    SiteAppendOwned(db, row);
    SiteAppendPeers(db, row);
  }

  /** site_new fails exactly for a missing name or trunk, a name that is taken, or an exhausted
      pool; otherwise it adds one row with the lowest free block and touches nothing else. */
  lemma AddSiteOutcome(db: Db, instanceId: nat, name: string)
    requires Inv(db)
    ensures var found := FindInstance(db, instanceId);
            AddSite(db, instanceId, name).None? <==>
              || name == "" || found.None?
              || (exists s :: s in db.sites && s.instanceId == instanceId && s.name == name)
              || |UsedBlocks(db, instanceId)| == SubnetCount(found.value.record.vpnPool) - 1
    ensures AddSite(db, instanceId, name).Some? ==>
              var pool := FindInstance(db, instanceId).value.record.vpnPool;
              exists k ::
                && 1 <= k < SubnetCount(pool) && Subnet(pool, k) !in UsedBlocks(db, instanceId)
                && (forall j :: 1 <= j < k ==> Subnet(pool, j) in UsedBlocks(db, instanceId))
                && AddSite(db, instanceId, name).value
                   == db.(sites := db.sites + [SiteRow(db.nextId, instanceId, name, Network(pool.base + 256 * k, 24))],
                          nextId := db.nextId + 1)
  {
    var found := FindInstance(db, instanceId);
    if found.Some? {
      var pool, used := found.value.record.vpnPool, UsedBlocks(db, instanceId);
      assert RecordOk(found.value.record);
      PoolSize(pool);
      SiteBlockIsLowestFree(pool, used);
    }
  }

  /** The new Network meets no other Network of its Site; network_new leaves this check to the
      controller. */
  predicate SiteClear(db: Db, siteId: nat, n: Network) {
    forall m :: m in db.networks && m.siteId == siteId ==> !Overlaps(n, m.cidr)
  }

  lemma NetworkAppend(db: Db, row: NetworkRow)
    requires Inv(db) && NetworkPasses(db, row.siteId, row.cidr) && row.id == db.nextId && row.cidr.Valid()
    ensures NetworkIds(db.networks + [row])
    ensures NetworksOffPools(db.instances, db.networks + [row])
    ensures NetworksApart(db.networks + [row]) <==> SiteClear(db, row.siteId, row.cidr)
  {
    var t := db.networks + [row];
    assert forall n :: n in t <==> n in db.networks || n == row;
    forall m | m in db.networks ensures m.id != row.id && Overlaps(row.cidr, m.cidr) == Overlaps(m.cidr, row.cidr) {
      OverlapsSymmetric(row.cidr, m.cidr);
    }
    assert row in t;
  }

  lemma NetworkAppendOwned(db: Db, row: NetworkRow, s: SiteRow)
    requires Inv(db) && s in db.sites && s.id == row.siteId && row.cidr.Valid()
    ensures NetworksOwned(db.sites, db.networks + [row])
  {
  }

  /** A new Network keeps the plan exactly when it meets no other Network of its Site. */
  lemma NetworkKeepsInv(db: Db, siteId: nat, cidr: Text)
    requires Inv(db) && AddNetwork(db, siteId, cidr).Some?
    ensures Inv(AddNetwork(db, siteId, cidr).value) <==> SiteClear(db, siteId, ParseNetwork(cidr))
  {
    var row := NetworkRow(db.nextId, siteId, ParseNetwork(cidr));
    NetworkAppend(db, row);
    NetworkAppendOwned(db, row, FindSite(db, siteId).value);
  }

  lemma PeerAppend(db: Db, row: PeerRow, s: SiteRow)
    requires Inv(db) && s in db.sites && s.id == row.siteId && row.id == db.nextId
    requires IsHostOf(s.cidr, row.ip) && row.ip !in UsedIps(db, s.id)
    requires row.gateway ==> forall p :: p in db.peers && p.siteId == row.siteId ==> !p.gateway
    ensures PeerIds(db.peers + [row]) && PeersPlanned(db.sites, db.peers + [row])
  {
    var t := db.peers + [row];
    assert forall p :: p in t <==> p in db.peers || p == row;
    forall p | p in db.peers ensures p.id != row.id && (p.siteId == row.siteId ==> p.ip != row.ip) {
    }
  }

  lemma PeerAppendKeys(db: Db, row: PeerRow)
    requires Inv(db) && row.psk.Some? && Fresh(db, row.key, row.psk.value)
    ensures KeysPlanned(db.peers + [row], db.admins)
  {
    assert forall p :: p in db.peers + [row] <==> p in db.peers || p == row;
  }

  lemma PeerKeepsInv(db: Db, siteId: nat, gateway: bool, key: Key, psk: Key)
    requires Inv(db) && AddPeer(db, siteId, gateway, key, psk).Some?
    ensures Inv(AddPeer(db, siteId, gateway, key, psk).value)
  {
    var s := FindSite(db, siteId).value;
    var ip := HostIn(s.cidr, UsedIps(db, siteId)).value;
    HostFromIsFirst(s.cidr, UsedIps(db, siteId), FIRST_HOST);
    var row := PeerRow(db.nextId, siteId, gateway, key, Some(psk), ip);
    PeerAppend(db, row, s);
    PeerAppendKeys(db, row);
  }

  /** peer_new fails exactly for a missing Site, a second gateway, or a Site with all 245 host
      addresses taken; otherwise it adds one row with the lowest free address. */
  lemma AddPeerOutcome(db: Db, siteId: nat, gateway: bool, key: Key, psk: Key)
    requires Inv(db) && Fresh(db, key, psk)
    ensures AddPeer(db, siteId, gateway, key, psk).None? <==>
              || FindSite(db, siteId).None?
              || (gateway && exists p :: p in db.peers && p.siteId == siteId && p.gateway)
              || |UsedIps(db, siteId)| == 245
    ensures AddPeer(db, siteId, gateway, key, psk).Some? ==>
              var n := FindSite(db, siteId).value.cidr;
              exists ip ::
                && IsHostOf(n, ip) && ip !in UsedIps(db, siteId)
                && (forall a :: n.base + FIRST_HOST <= a < ip ==> a in UsedIps(db, siteId))
                && AddPeer(db, siteId, gateway, key, psk).value
                   == db.(peers := db.peers + [PeerRow(db.nextId, siteId, gateway, key, Some(psk), ip)],
                          nextId := db.nextId + 1)
  {
    var site := FindSite(db, siteId);
    if site.Some? {
      SiteInPool(db, site.value, TrunkOf(db, site.value));
      HostIsLowestFree(site.value.cidr, UsedIps(db, siteId));
    }
  }

  lemma AdminAppend(db: Db, row: AdminRow, i: InstanceRow)
    requires Inv(db) && i in db.instances && i.id == row.instanceId && row.id == db.nextId
    requires IsHostOf(Subnet(i.record.vpnPool, 0), row.ip) && row.ip !in UsedAdminIps(db, i.id)
    ensures AdminIds(db.admins + [row]) && AdminsPlanned(db.instances, db.admins + [row])
  {
    var t := db.admins + [row];
    assert forall p :: p in t <==> p in db.admins || p == row;
    forall p | p in db.admins ensures p.id != row.id && (p.instanceId == row.instanceId ==> p.ip != row.ip) {
    }
  }

  lemma AdminAppendKeys(db: Db, row: AdminRow)
    requires Inv(db) && row.psk.Some? && Fresh(db, row.key, row.psk.value)
    ensures KeysPlanned(db.peers, db.admins + [row])
  {
    assert forall p :: p in db.admins + [row] <==> p in db.admins || p == row;
  }

  lemma AdminKeepsInv(db: Db, instanceId: nat, key: Key, psk: Key)
    requires Inv(db) && AddAdmin(db, instanceId, key, psk).Some?
    ensures Inv(AddAdmin(db, instanceId, key, psk).value)
  {
    var i := FindInstance(db, instanceId).value;
    var block := Subnet(i.record.vpnPool, 0);
    HostFromIsFirst(block, UsedAdminIps(db, instanceId), FIRST_HOST);
    var row := AdminRow(db.nextId, instanceId, key, Some(psk), HostIn(block, UsedAdminIps(db, instanceId)).value);
    AdminAppend(db, row, i);
    AdminAppendKeys(db, row);
  }

  /** admin_peer_new fails exactly for a missing trunk or when all 245 addresses of the first block
      are taken; otherwise it adds one row with the lowest free address. */
  lemma AddAdminOutcome(db: Db, instanceId: nat, key: Key, psk: Key)
    requires Inv(db) && Fresh(db, key, psk)
    ensures AddAdmin(db, instanceId, key, psk).None? <==>
              FindInstance(db, instanceId).None? || |UsedAdminIps(db, instanceId)| == 245
    ensures AddAdmin(db, instanceId, key, psk).Some? ==>
              var base := FindInstance(db, instanceId).value.record.vpnPool.base;
              exists ip ::
                && base + 10 <= ip <= base + 254 && ip !in UsedAdminIps(db, instanceId)
                && (forall a :: base + 10 <= a < ip ==> a in UsedAdminIps(db, instanceId))
                && AddAdmin(db, instanceId, key, psk).value
                   == db.(admins := db.admins + [AdminRow(db.nextId, instanceId, key, Some(psk), ip)],
                          nextId := db.nextId + 1)
  {
    var found := FindInstance(db, instanceId);
    if found.Some? {
      var block := Subnet(found.value.record.vpnPool, 0);
      Slash24(block);
      UsedAdminsInBlock(db, found.value);
      HostIsLowestFree(block, UsedAdminIps(db, instanceId));
      var ip := HostIn(block, UsedAdminIps(db, instanceId));
      assert ip.Some? ==> IsHostOf(block, ip.value);
    }
  }

  lemma UsedAdminsInBlock(db: Db, i: InstanceRow)
    requires Inv(db) && i in db.instances
    ensures forall a :: a in UsedAdminIps(db, i.id) ==> IsHostOf(Subnet(i.record.vpnPool, 0), a)
  {
  }

  /** instance_new adds exactly one trunk, enabled and with the provisioned record, unless its
      interface or its port is taken, its pool shares an address with another one, or the server
      address is not the first host of the pool. */
  lemma AddTrunkOutcome(db: Db, r: Record)
    requires RecordOk(r)
    ensures AddTrunk(db, r).None? <==>
              || r.serverAddress != Interface(r.vpnPool.base + 1, r.vpnPool.len)
              || (exists i :: i in db.instances && i.record.interface == r.interface)
              || (exists i :: i in db.instances && i.record.listenPort == r.listenPort)
              || (exists i :: i in db.instances && ShareAddress(r.vpnPool, i.record.vpnPool))
    ensures AddTrunk(db, r).Some? ==>
              && AddTrunk(db, r).value.(instances := db.instances, nextId := db.nextId) == db
              && AddTrunk(db, r).value.instances == db.instances + [InstanceRow(db.nextId, true, r)]
              && AddTrunk(db, r).value.nextId == db.nextId + 1
  {
    forall i | i in db.instances
      ensures Overlaps(r.vpnPool, i.record.vpnPool) <==> ShareAddress(r.vpnPool, i.record.vpnPool)
    {
      OverlapsMeansShared(r.vpnPool, i.record.vpnPool);
    }
  }

  /** network_new fails exactly for a missing Site, a text that is no IPv4 network, a network that
      shares an address with a pool or with a Network of another Site, or equals one of its own;
      otherwise it adds one row. */
  lemma AddNetworkOutcome(db: Db, siteId: nat, cidr: Text)
    ensures AddNetwork(db, siteId, cidr).None? <==>
              || (forall s :: s in db.sites ==> s.id != siteId)
              || !Parses(cidr)
              || (exists i :: i in db.instances && ShareAddress(ParseNetwork(cidr), i.record.vpnPool))
              || (exists m :: m in db.networks && m.siteId == siteId && m.cidr == ParseNetwork(cidr))
              || (exists m :: m in db.networks && m.siteId != siteId && ShareAddress(ParseNetwork(cidr), m.cidr))
    ensures AddNetwork(db, siteId, cidr).Some? ==>
              AddNetwork(db, siteId, cidr).value
              == db.(networks := db.networks + [NetworkRow(db.nextId, siteId, ParseNetwork(cidr))],
                     nextId := db.nextId + 1)
  {
    if Parses(cidr) {
      var n := ParseNetwork(cidr);
      forall i | i in db.instances ensures Overlaps(n, i.record.vpnPool) <==> ShareAddress(n, i.record.vpnPool) {
        OverlapsMeansShared(n, i.record.vpnPool);
      }
      forall m | m in db.networks ensures Overlaps(n, m.cidr) <==> ShareAddress(n, m.cidr) {
        OverlapsMeansShared(n, m.cidr);
      }
    }
  }

  // ----- what deleting and rekeying do

  /** peer_delete removes this Peer and nothing else. */
  lemma DeletePeerOutcome(db: Db, id: nat)
    requires Inv(db)
    ensures var next := Candidate(db, PeerDelete(id));
            && (next.None? <==> forall p :: p in db.peers ==> p.id != id)
            && (next.Some? ==>
                  && (forall p :: p in next.value.peers <==> p in db.peers && p.id != id)
                  && Distinct(next.value.peers) && next.value.(peers := db.peers) == db)
  {
    FilterDistinct((p: PeerRow) => p.id != id, db.peers);
  }

  /** admin_peer_delete removes this Admin Peer and nothing else. */
  lemma DeleteAdminOutcome(db: Db, id: nat)
    requires Inv(db)
    ensures var next := Candidate(db, AdminDelete(id));
            && (next.None? <==> forall p :: p in db.admins ==> p.id != id)
            && (next.Some? ==>
                  && (forall p :: p in next.value.admins <==> p in db.admins && p.id != id)
                  && Distinct(next.value.admins) && next.value.(admins := db.admins) == db)
  {
    FilterDistinct((p: AdminRow) => p.id != id, db.admins);
  }

  /** network_delete removes this Network and nothing else. */
  lemma DeleteNetworkOutcome(db: Db, id: nat)
    requires Inv(db)
    ensures var next := Candidate(db, NetworkDelete(id));
            && (next.None? <==> forall n :: n in db.networks ==> n.id != id)
            && (next.Some? ==>
                  && (forall n :: n in next.value.networks <==> n in db.networks && n.id != id)
                  && Distinct(next.value.networks) && next.value.(networks := db.networks) == db)
  {
    FilterDistinct((n: NetworkRow) => n.id != id, db.networks);
  }

  /** site_delete removes this Site, its Networks and its Peers, and nothing else. */
  lemma DeleteSiteOutcome(db: Db, id: nat)
    requires Inv(db)
    ensures var next := Candidate(db, SiteDelete(id));
            && (next.None? <==> forall s :: s in db.sites ==> s.id != id)
            && (next.Some? ==>
                  && (forall s :: s in next.value.sites <==> s in db.sites && s.id != id)
                  && (forall n :: n in next.value.networks <==> n in db.networks && n.siteId != id)
                  && (forall p :: p in next.value.peers <==> p in db.peers && p.siteId != id)
                  && Distinct(next.value.sites) && Distinct(next.value.networks) && Distinct(next.value.peers)
                  && next.value.(sites := db.sites, networks := db.networks, peers := db.peers) == db)
  {
    DropSiteShrinks(db, id);
  }

  /** No row has this key. */
  predicate KeyGone(db: Db, key: Key) {
    (forall p :: p in db.peers ==> p.key != key) && (forall p :: p in db.admins ==> p.key != key)
  }

  /** peer_rekey gives this Peer the new key and preshared key, keeps its Site, its type and its
      address, and touches no other row; the former key is nobody's. */
  lemma RekeyPeerOutcome(db: Db, id: nat, key: Key, psk: Key)
    requires Inv(db) && Fresh(db, key, psk)
    ensures var next := Candidate(db, PeerRekey(id, key, psk));
            && (next.None? <==> forall p :: p in db.peers ==> p.id != id)
            && (next.Some? ==>
                  && next.value.(peers := db.peers) == db && |next.value.peers| == |db.peers|
                  && (forall k :: 0 <= k < |db.peers| ==>
                        var p := db.peers[k];
                        next.value.peers[k] ==
                        if p.id == id then PeerRow(id, p.siteId, p.gateway, key, Some(psk), p.ip) else p)
                  && (forall p :: p in db.peers && p.id == id ==> KeyGone(next.value, p.key)))
  {
    var next := Candidate(db, PeerRekey(id, key, psk));
    if next.Some? {
      forall p, q | p in db.peers && p.id == id && q in next.value.peers ensures q.key != p.key {
        var k :| 0 <= k < |next.value.peers| && next.value.peers[k] == q;
        assert db.peers[k] in db.peers;
      }
    }
  }

  /** admin_peer_rekey does the same for an Admin Peer. */
  lemma RekeyAdminOutcome(db: Db, id: nat, key: Key, psk: Key)
    requires Inv(db) && Fresh(db, key, psk)
    ensures var next := Candidate(db, AdminRekey(id, key, psk));
            && (next.None? <==> forall p :: p in db.admins ==> p.id != id)
            && (next.Some? ==>
                  && next.value.(admins := db.admins) == db && |next.value.admins| == |db.admins|
                  && (forall k :: 0 <= k < |db.admins| ==>
                        var p := db.admins[k];
                        next.value.admins[k] ==
                        if p.id == id then AdminRow(id, p.instanceId, key, Some(psk), p.ip) else p)
                  && (forall p :: p in db.admins && p.id == id ==> KeyGone(next.value, p.key)))
  {
    var next := Candidate(db, AdminRekey(id, key, psk));
    if next.Some? {
      forall p, q | p in db.admins && p.id == id && q in next.value.admins ensures q.key != p.key {
        var k :| 0 <= k < |next.value.admins| && next.value.admins[k] == q;
        assert db.admins[k] in db.admins;
      }
    }
  }

  // ----- deleting rows

  /** `small` has some of the rows of `db`, and every row it keeps still has its Site. */
  predicate Shrinks(small: Db, db: Db) {
    && small.instances == db.instances && small.nextId == db.nextId
    && Distinct(small.sites) && Distinct(small.networks) && Distinct(small.peers) && Distinct(small.admins)
    && (forall r :: r in small.sites ==> r in db.sites)
    && (forall r :: r in small.networks ==> r in db.networks)
    && (forall r :: r in small.peers ==> r in db.peers)
    && (forall r :: r in small.admins ==> r in db.admins)
    && (forall n :: n in small.networks ==> exists s :: s in small.sites && s.id == n.siteId)
    && (forall p :: p in small.peers ==> exists s :: s in small.sites && s.id == p.siteId)
  }

  lemma ShrinkingKeepsInv(small: Db, db: Db)
    requires Inv(db) && Shrinks(small, db)
    ensures Inv(small)
  {
    assert IdsUnique(small) && IdsBelow(small);
    assert SitesPlanned(small.instances, small.sites);
    assert NetworksOwned(small.sites, small.networks);
    assert PeersPlanned(small.sites, small.peers);
    assert AdminsPlanned(small.instances, small.admins);
    assert KeysPlanned(small.peers, small.admins);
  }

  lemma DropSiteShrinks(db: Db, id: nat)
    requires Inv(db)
    ensures Shrinks(DropSite(db, id), db)
  {
    var small := DropSite(db, id);
    FilterDistinct((s: SiteRow) => s.id != id, db.sites);
    FilterDistinct((n: NetworkRow) => n.siteId != id, db.networks);
    FilterDistinct((p: PeerRow) => p.siteId != id, db.peers);
    forall n | n in small.networks ensures exists s :: s in small.sites && s.id == n.siteId {
      var s :| s in db.sites && s.id == n.siteId;
      assert s in small.sites;
    }
    forall p | p in small.peers ensures exists s :: s in small.sites && s.id == p.siteId {
      var s :| s in db.sites && s.id == p.siteId;
      assert s in small.sites;
    }
  }

  lemma DropRowShrinks(db: Db, id: nat)
    requires Inv(db)
    ensures Shrinks(DropNetwork(db, id), db) && Shrinks(DropPeer(db, id), db) && Shrinks(DropAdmin(db, id), db)
  {
    FilterDistinct((n: NetworkRow) => n.id != id, db.networks);
    FilterDistinct((p: PeerRow) => p.id != id, db.peers);
    FilterDistinct((p: AdminRow) => p.id != id, db.admins);
  }

  // ----- new keys

  lemma RekeyedPeerTable(db: Db, id: nat, key: Key, psk: Key)
    requires Inv(db)
    ensures var t := RekeyedPeers(db.peers, id, key, psk);
            && (forall p :: p in t ==> exists q :: q in db.peers && p == RekeyedPeer(q, id, key, psk))
            && PeerIds(t)
  {
    var t := RekeyedPeers(db.peers, id, key, psk);
    forall i, j | 0 <= i < j < |t| ensures t[i] != t[j] {
      assert db.peers[i] != db.peers[j];
    }
  }

  lemma RekeyPeerKeepsInv(db: Db, id: nat, key: Key, psk: Key)
    requires Inv(db) && Fresh(db, key, psk)
    ensures Inv(db.(peers := RekeyedPeers(db.peers, id, key, psk)))
  {
    RekeyedPeerTable(db, id, key, psk);
    var t := RekeyedPeers(db.peers, id, key, psk);
    RekeyedPeersPlanned(db, id, key, psk);
    RekeyedPeersKeys(db, id, key, psk);
    forall p | p in t ensures p.id < db.nextId {
      var q :| q in db.peers && p == RekeyedPeer(q, id, key, psk);
    }
  }

  lemma RekeyedPeersPlanned(db: Db, id: nat, key: Key, psk: Key)
    requires Inv(db)
    ensures PeersPlanned(db.sites, RekeyedPeers(db.peers, id, key, psk))
  {
    var t := RekeyedPeers(db.peers, id, key, psk);
    forall p | p in t ensures exists q :: q in db.peers && p == RekeyedPeer(q, id, key, psk) {
    }
  }

  lemma RekeyedPeersKeys(db: Db, id: nat, key: Key, psk: Key)
    requires Inv(db) && Fresh(db, key, psk)
    ensures KeysPlanned(RekeyedPeers(db.peers, id, key, psk), db.admins)
  {
    var t := RekeyedPeers(db.peers, id, key, psk);
    forall p | p in t ensures exists q :: q in db.peers && p == RekeyedPeer(q, id, key, psk) {
    }
  }

  lemma RekeyAdminKeepsInv(db: Db, id: nat, key: Key, psk: Key)
    requires Inv(db) && Fresh(db, key, psk)
    ensures Inv(db.(admins := RekeyedAdmins(db.admins, id, key, psk)))
  {
    var t := RekeyedAdmins(db.admins, id, key, psk);
    RekeyedAdminsPlanned(db, id, key, psk);
    RekeyedAdminsKeys(db, id, key, psk);
    forall p | p in t ensures p.id < db.nextId {
      var i :| 0 <= i < |t| && t[i] == p;
      assert db.admins[i] in db.admins;
    }
  }

  lemma RekeyedAdminsPlanned(db: Db, id: nat, key: Key, psk: Key)
    requires Inv(db)
    ensures AdminIds(RekeyedAdmins(db.admins, id, key, psk))
    ensures AdminsPlanned(db.instances, RekeyedAdmins(db.admins, id, key, psk))
  {
    var t := RekeyedAdmins(db.admins, id, key, psk);
    forall p | p in t ensures exists q :: q in db.admins && p == RekeyedAdmin(q, id, key, psk) {
    }
    forall i, j | 0 <= i < j < |t| ensures t[i] != t[j] {
      assert db.admins[i] != db.admins[j];
    }
  }

  lemma RekeyedAdminsKeys(db: Db, id: nat, key: Key, psk: Key)
    requires Inv(db) && Fresh(db, key, psk)
    ensures KeysPlanned(db.peers, RekeyedAdmins(db.admins, id, key, psk))
  {
    var t := RekeyedAdmins(db.admins, id, key, psk);
    forall p | p in t ensures exists q :: q in db.admins && p == RekeyedAdmin(q, id, key, psk) {
    }
  }
}
