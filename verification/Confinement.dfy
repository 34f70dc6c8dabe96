// End-to-end isolation.  The database decides which Peer owns which address (WireGuard's
// AllowedIPs) and which sets the firewall consults; together they confine every packet of a
// Site to that Site, in every database the portal can reach.

module Confinement {
  import opened Seqs
  import opened Ipv4
  import opened Registry
  import opened Payload
  import opened Validation
  import opened ValidationFacts
  import opened Nftables
  import opened Sync
  import opened Database
  import opened PortalInvariant
  import opened Acceptance
  import opened PortalRuns

  /** The state that the controller derives from the database. */
  function CommittedState(db: Db): State {
    SortById(TrunkStates(db))
  }

  lemma StateOfDesired(db: Db, reg: Instances)
    requires Inv(db) && MatchesRegistry(db, reg)
    ensures Acceptable(reg, DesiredState(db)) && StateOf(reg, DesiredState(db)) == CommittedState(db)
  {
    PlannedIsAccepted(db, reg);
  }

  /** `s` lists the trunk states of the database in some order. */
  predicate Represents(s: State, db: Db) {
    multiset(s) == multiset(TrunkStates(db))
  }

  lemma StateTrunk(db: Db, s: State, x: Instance) returns (i: InstanceRow)
    requires Represents(s, db) && x in s
    ensures i in db.instances && x == TrunkState(db, i)
  {
    var t := TrunkStates(db);
    SameMembers(s, t);
    var k :| 0 <= k < |t| && t[k] == x;
    i := db.instances[k];
  }

  lemma TrunkInState(db: Db, s: State, i: InstanceRow)
    requires Represents(s, db) && i in db.instances
    ensures TrunkState(db, i) in s
  {
    var k :| 0 <= k < |db.instances| && db.instances[k] == i;
    assert TrunkStates(db)[k] in TrunkStates(db);
    SameMembers(TrunkStates(db), s);
  }

  lemma StateDevicesDistinct(db: Db, s: State)
    requires Inv(db) && Represents(s, db)
    ensures DistinctDevices(s)
  {
    StatesPoolsDisjoint(db);
    PoolsPermute(TrunkStates(db), s);
    DisjointPermute(Pools(TrunkStates(db)), Pools(s));
    forall i, j | 0 <= i < j < |s| ensures s[i].Dev() != s[j].Dev() {
      var a := StateTrunk(db, s, s[i]);
      var b := StateTrunk(db, s, s[j]);
      assert !Overlaps(Pools(s)[i], Pools(s)[j]);
      assert a != b ==> Apart(a, b);
    }
  }

  lemma StateSite(db: Db, i: InstanceRow, e: Site) returns (s: SiteRow)
    requires e in TrunkState(db, i).sites
    ensures s in db.sites && s.instanceId == i.id && e == SiteEntry(db, s)
  {
    var rows := SitesOf(db, i.id);
    var k :| 0 <= k < |rows| && e == SiteEntry(db, rows[k]);
    assert rows[k] in rows;
    s := rows[k];
  }

  lemma StateDistinctIds(db: Db, t: State)
    requires Inv(db) && Represents(t, db)
    ensures DistinctIds(t)
  {
    forall x, y | x in t && y in t && x.id == y.id ensures x == y {
      var i := StateTrunk(db, t, x);
      var j := StateTrunk(db, t, y);
    }
    forall x, y, a, b | x in t && y in t && a in x.sites && b in y.sites && a.id == b.id ensures a == b {
      var i := StateTrunk(db, t, x);
      var j := StateTrunk(db, t, y);
      var s := StateSite(db, i, a);
      var r := StateSite(db, j, b);
    }
  }

  // ----- who owns an address

  predicate InSite(db: Db, s: SiteRow, a: int) {
    Covers(SiteEntry(db, s).ranges, a)
  }

  lemma RangeIs(db: Db, s: SiteRow, n: Network)
    requires n in SiteEntry(db, s).ranges && n != s.cidr
    ensures exists r :: r in db.networks && r.siteId == s.id && r.cidr == n
  {
    var r :| r in NetworksOf(db, s.id) && r.cidr == n;
    assert r in db.networks;
  }

  lemma RangesApart(db: Db, s: SiteRow, t: SiteRow, m: Network, n: Network)
    requires Inv(db) && s in db.sites && t in db.sites && s != t
    requires m in SiteEntry(db, s).ranges && n in SiteEntry(db, t).ranges
    ensures !Overlaps(m, n)
  {
    if m == s.cidr {
      if n == t.cidr {
        SitesDisjoint(db, s, t);
      } else {
        RangeIs(db, t, n);
        var r :| r in db.networks && r.siteId == t.id && r.cidr == n;
        NetworkOffSite(db, r, s);
        OverlapsSymmetric(m, n);
      }
    } else {
      RangeIs(db, s, m);
      var q :| q in db.networks && q.siteId == s.id && q.cidr == m;
      if n == t.cidr {
        NetworkOffSite(db, q, t);
      } else {
        RangeIs(db, t, n);
        var r :| r in db.networks && r.siteId == t.id && r.cidr == n;
        assert q != r;
      }
    }
  }

  /** An address belongs to one Site at most. */
  lemma SiteUnique(db: Db, s: SiteRow, t: SiteRow, a: int)
    requires Inv(db) && s in db.sites && t in db.sites && InSite(db, s, a) && InSite(db, t, a)
    ensures s == t
  {
    var m :| m in SiteEntry(db, s).ranges && m.Contains(a);
    var n :| n in SiteEntry(db, t).ranges && n.Contains(a);
    if s != t {
      RangesApart(db, s, t, m, n);
      DisjointShareNothing(m, n, a);
    }
  }

  lemma AdminOffSites(db: Db, p: AdminRow, s: SiteRow)
    requires Inv(db) && p in db.admins && s in db.sites
    ensures !InSite(db, s, p.ip)
  {
    var j :| j in db.instances && j.id == p.instanceId;
    AdminIpFacts(db, p, j);
    forall n | n in SiteEntry(db, s).ranges ensures !n.Contains(p.ip) {
      if n == s.cidr {
        var i := TrunkOf(db, s);
        SiteInPool(db, s, i);
        assert i != j ==> Apart(i, j);
      } else {
        RangeIs(db, s, n);
        var r :| r in db.networks && r.siteId == s.id && r.cidr == n;
        IpOffNetwork(db, p.ip, j, r);
      }
    }
  }

  lemma HostOwns(ip: int, a: int)
    ensures HostNet(ip).Contains(a) <==> a == ip
  {
    assert BlockSize(32) == 1;
  }

  /** A Peer of a Site owns addresses of that Site only. */
  lemma PeerWithinSite(db: Db, p: PeerRow, s: SiteRow, a: int)
    requires Inv(db) && p in db.peers && s in db.sites && s.id == p.siteId && Covers(AllowedIps(db, p), a)
    ensures InSite(db, s, a)
  {
    var n :| n in AllowedIps(db, p) && n.Contains(a);
    AllowedIpIs(db, p, n);
    if n == HostNet(p.ip) {
      HostOwns(p.ip, a);
      PeerIpFacts(db, p, s);
      assert s.cidr in SiteEntry(db, s).ranges && s.cidr.Contains(a);
    } else {
      var r :| r in db.networks && r.siteId == p.siteId && r.cidr == n;
      assert r in NetworksOf(db, s.id);
      assert n in Cidrs(NetworksOf(db, s.id));
      assert n in SiteEntry(db, s).ranges;
    }
  }

  /** The owner of an address, seen from the configured Peer: a Site's, or an Admin's. */
  lemma OwnerOf(db: Db, i: InstanceRow, q: Peer, a: int) returns (site: Option<SiteRow>, admin: Option<AdminRow>)
    requires Inv(db) && q in TrunkState(db, i).peers && Covers(q.allowedIps, a)
    ensures q.kind.SitePeer? ==>
              && site.Some? && site.value in db.sites && site.value.instanceId == i.id
              && site.value.id == q.kind.siteId && InSite(db, site.value, a)
    ensures q.kind.AdminPeer? ==> admin.Some? && admin.value in AdminsOf(db, i.id) && admin.value.ip == a
    ensures i.enabled
  {
    site, admin := None, None;
    if q in PeerEntries(db, PeersOf(db, i.id)) {
      var s := SiteOwner(db, i, q, a);
      site := Some(s);
    } else {
      var p := AdminOwner(db, i, q, a);
      admin := Some(p);
    }
  }

  lemma SiteOwner(db: Db, i: InstanceRow, q: Peer, a: int) returns (s: SiteRow)
    requires Inv(db) && q in PeerEntries(db, PeersOf(db, i.id)) && Covers(q.allowedIps, a)
    ensures q.kind == SitePeer(s.id) && s in db.sites && s.instanceId == i.id && InSite(db, s, a)
  {
    var rows := PeersOf(db, i.id);
    var k :| 0 <= k < |rows| && PeerEntries(db, rows)[k] == q;
    assert rows[k] in rows && q == PeerEntry(db, rows[k]);
    s :| s in SitesOf(db, i.id) && s.id == rows[k].siteId;
    PeerWithinSite(db, rows[k], s, a);
  }

  lemma AdminOwner(db: Db, i: InstanceRow, q: Peer, a: int) returns (p: AdminRow)
    requires q in AdminEntries(AdminsOf(db, i.id)) && Covers(q.allowedIps, a)
    ensures q.kind.AdminPeer? && p in AdminsOf(db, i.id) && p.ip == a
  {
    var admins := AdminsOf(db, i.id);
    var k :| 0 <= k < |admins| && AdminEntries(admins)[k] == q;
    p := admins[k];
    assert p in admins && q == AdminEntry(p);
    HostOwns(p.ip, a);
  }

  lemma AdminAddressOwner(db: Db, i: InstanceRow, a: int) returns (p: AdminRow)
    requires IsAdmin(TrunkState(db, i), a)
    ensures p in db.admins && p.ip == a
  {
    var admins := AdminsOf(db, i.id);
    var n :| n in TrunkState(db, i).adminAddresses && n.Contains(a);
    var k :| 0 <= k < |admins| && n == HostNet(admins[k].ip);
    HostOwns(admins[k].ip, a);
    assert admins[k] in admins;
    p := admins[k];
  }

  lemma SomeSiteRow(db: Db, i: InstanceRow, a: int) returns (s: SiteRow)
    requires InSomeSite(TrunkState(db, i), a)
    ensures s in db.sites && s.instanceId == i.id && InSite(db, s, a)
  {
    var e :| e in TrunkState(db, i).sites && Covers(e.ranges, a);
    s := StateSite(db, i, e);
  }

  lemma EntryOf(db: Db, i: InstanceRow, s: SiteRow)
    requires i.enabled && s in SitesOf(db, i.id)
    ensures SiteEntry(db, s) in TrunkState(db, i).sites
  {
    var rows := SitesOf(db, i.id);
    var k :| 0 <= k < |rows| && rows[k] == s;
    assert TrunkState(db, i).sites[k] == SiteEntry(db, s);
  }

  lemma SourceIsNotAdmin(db: Db, i: InstanceRow, s: SiteRow, a: int)
    requires Inv(db) && s in db.sites && InSite(db, s, a)
    ensures !IsAdmin(TrunkState(db, i), a)
  {
    if IsAdmin(TrunkState(db, i), a) {
      var r := AdminAddressOwner(db, i, a);
      AdminOffSites(db, r, s);
    }
  }

  lemma AdminNotInSites(db: Db, i: InstanceRow, p: AdminRow)
    requires Inv(db) && p in db.admins
    ensures !InSomeSite(TrunkState(db, i), p.ip)
  {
    if InSomeSite(TrunkState(db, i), p.ip) {
      var s := SomeSiteRow(db, i, p.ip);
      AdminOffSites(db, p, s);
    }
  }

  lemma AdminIsListed(db: Db, i: InstanceRow, p: AdminRow)
    requires i.enabled && p in AdminsOf(db, i.id)
    ensures IsAdmin(TrunkState(db, i), p.ip)
  {
    var admins := AdminsOf(db, i.id);
    var k :| 0 <= k < |admins| && admins[k] == p;
    HostOwns(p.ip, p.ip);
    assert TrunkState(db, i).adminAddresses[k] == HostNet(p.ip);
  }

  /** An address of a Site's Peer, as the firewall's sets see it. */
  lemma SiteAddress(db: Db, i: InstanceRow, p: Peer, a: int) returns (s: SiteRow)
    requires Inv(db) && p in TrunkState(db, i).peers && p.kind.SitePeer? && Covers(p.allowedIps, a)
    ensures s in db.sites && s.instanceId == i.id && s.id == p.kind.siteId && InSite(db, s, a)
    ensures InSomeSite(TrunkState(db, i), a) && !IsAdmin(TrunkState(db, i), a)
  {
    var site, _ := OwnerOf(db, i, p, a);
    s := site.value;
    EntryOf(db, i, s);
    SourceIsNotAdmin(db, i, s, a);
  }

  lemma AdminAddress(db: Db, i: InstanceRow, p: Peer, a: int)
    requires Inv(db) && p in TrunkState(db, i).peers && p.kind.AdminPeer? && Covers(p.allowedIps, a)
    ensures IsAdmin(TrunkState(db, i), a) && !InSomeSite(TrunkState(db, i), a)
  {
    var _, admin := OwnerOf(db, i, p, a);
    AdminIsListed(db, i, admin.value);
    AdminNotInSites(db, i, admin.value);
  }

  lemma SameSiteExact(db: Db, i: InstanceRow, s: SiteRow, t: SiteRow, a: int, b: int)
    requires Inv(db) && i.enabled && s in db.sites && t in db.sites
    requires s.instanceId == i.id && InSite(db, s, a) && InSite(db, t, b)
    ensures SameSite(TrunkState(db, i), a, b) <==> s == t
  {
    EntryOf(db, i, s);
    if SameSite(TrunkState(db, i), a, b) {
      var e :| e in TrunkState(db, i).sites && Covers(e.ranges, a) && Covers(e.ranges, b);
      var r := StateSite(db, i, e);
      SiteUnique(db, r, s, a);
      SiteUnique(db, r, t, b);
    }
  }

  // ----- confinement

  /** Which Peers of a trunk may send to which: a Site to itself, Admins to Sites, and Sites to
      Admins on established traffic. */
  predicate MayReach(from: PeerKind, to: PeerKind, established: bool) {
    match from
    case SitePeer(_) => to == from || (to.AdminPeer? && established)
    case AdminPeer => to.SitePeer?
  }

  /** A packet that came in through trunk x from one of its Peers. */
  predicate EntersFrom(s: State, x: Instance, p: Peer, pkt: Packet) {
    x in s && x.enabled && pkt.iif == x.Dev() && p in x.peers && Covers(p.allowedIps, pkt.saddr)
  }

  /** WireGuard hands the packet to this Peer of trunk y. */
  predicate DeliveredTo(s: State, y: Instance, q: Peer, pkt: Packet) {
    y in s && y.enabled && pkt.oif == y.Dev() && q in y.peers && Covers(q.allowedIps, pkt.daddr)
  }

  lemma PolicyPermits(s: State, x: Instance, pkt: Packet)
    requires DistinctDevices(s) && x in s && x.enabled && Touches(x, pkt)
    ensures ForwardPolicy(s, pkt) == Accept <==> Permitted(x, pkt)
  {
    assert x in Enabled(s);
    if ForwardPolicy(s, pkt) == Accept {
      var z :| z in Enabled(s) && Permitted(z, pkt);
      DeviceUnique(s, x, z);
    }
  }

  /** What enters or leaves an enabled trunk is accepted exactly when that trunk permits it. */
  lemma AcceptedIsPermitted(db: Db, s: State, x: Instance, pkt: Packet)
    requires Inv(db) && Represents(s, db) && x in s && x.enabled && Touches(x, pkt)
    ensures ForwardVerdict(Compile(s), pkt) == Accept <==> Permitted(x, pkt)
  {
    StateDevicesDistinct(db, s);
    StateDistinctIds(db, s);
    ForwardCorrect(s, pkt);
    PolicyPermits(s, x, pkt);
  }

  lemma SitePairPermitted(db: Db, i: InstanceRow, p: Peer, q: Peer, pkt: Packet)
    requires Inv(db) && pkt.iif == pkt.oif == i.record.interface && p.kind.SitePeer? && q.kind.SitePeer?
    requires p in TrunkState(db, i).peers && Covers(p.allowedIps, pkt.saddr)
    requires q in TrunkState(db, i).peers && Covers(q.allowedIps, pkt.daddr)
    ensures Permitted(TrunkState(db, i), pkt) <==> p.kind == q.kind
  {
    var s := SiteAddress(db, i, p, pkt.saddr);
    var t := SiteAddress(db, i, q, pkt.daddr);
    SameSiteExact(db, i, s, t, pkt.saddr, pkt.daddr);
  }

  /** Between two Peers of one trunk the policy permits exactly what MayReach allows. */
  lemma PermittedExact(db: Db, i: InstanceRow, p: Peer, q: Peer, pkt: Packet)
    requires Inv(db) && pkt.iif == pkt.oif == i.record.interface
    requires p in TrunkState(db, i).peers && Covers(p.allowedIps, pkt.saddr)
    requires q in TrunkState(db, i).peers && Covers(q.allowedIps, pkt.daddr)
    ensures Permitted(TrunkState(db, i), pkt) <==> MayReach(p.kind, q.kind, pkt.established)
  {
    if p.kind.SitePeer? && q.kind.SitePeer? {
      SitePairPermitted(db, i, p, q, pkt);
    } else {
      MixedPairPermitted(db, i, p, q, pkt);
    }
  }

  lemma MixedPairPermitted(db: Db, i: InstanceRow, p: Peer, q: Peer, pkt: Packet)
    requires Inv(db) && pkt.iif == pkt.oif == i.record.interface && (p.kind.AdminPeer? || q.kind.AdminPeer?)
    requires p in TrunkState(db, i).peers && Covers(p.allowedIps, pkt.saddr)
    requires q in TrunkState(db, i).peers && Covers(q.allowedIps, pkt.daddr)
    ensures Permitted(TrunkState(db, i), pkt) <==> MayReach(p.kind, q.kind, pkt.established)
  {
    var x := TrunkState(db, i);
    if p.kind.AdminPeer? {
      AdminAddress(db, i, p, pkt.saddr);
    } else {
      var s := SiteAddress(db, i, p, pkt.saddr);
    }
    if q.kind.AdminPeer? {
      AdminAddress(db, i, q, pkt.daddr);
    } else {
      var t := SiteAddress(db, i, q, pkt.daddr);
    }
    assert SameSite(x, pkt.saddr, pkt.daddr) ==> InSomeSite(x, pkt.saddr) && InSomeSite(x, pkt.daddr);
  }

  /** A packet of one Peer, addressed to another, is accepted exactly when both belong to the same
      trunk and the first may reach the second: never another Site, never another trunk. */
  lemma DeliveryExact(db: Db, s: State, x: Instance, p: Peer, y: Instance, q: Peer, pkt: Packet)
    requires Inv(db) && Represents(s, db) && EntersFrom(s, x, p, pkt) && DeliveredTo(s, y, q, pkt)
    ensures ForwardVerdict(Compile(s), pkt) == Accept <==> y == x && MayReach(p.kind, q.kind, pkt.established)
  {
    AcceptedIsPermitted(db, s, x, pkt);
    if pkt.iif == pkt.oif {
      StateDevicesDistinct(db, s);
      DeviceUnique(s, x, y);
      var i := StateTrunk(db, s, x);
      PermittedExact(db, i, p, q, pkt);
    }
  }

  lemma HubPolicyExact(s: State, x: Instance, pkt: Packet)
    requires DistinctDevices(s) && x in s && x.enabled && pkt.iif == x.Dev()
    ensures InputPolicy(s, pkt) == Accept <==> IsAdmin(x, pkt.saddr)
  {
    assert x in Enabled(s);
    if InputPolicy(s, pkt) == Drop {
      var z :| z in Enabled(s) && pkt.iif == z.Dev() && !IsAdmin(z, pkt.saddr);
      DeviceUnique(s, x, z);
    }
  }

  /** A Peer's packet reaches the hub itself exactly when the Peer is an Admin Peer. */
  lemma HubReachExact(db: Db, s: State, x: Instance, p: Peer, pkt: Packet)
    requires Inv(db) && Represents(s, db) && EntersFrom(s, x, p, pkt)
    ensures InputVerdict(Compile(s), pkt) == Accept <==> p.kind.AdminPeer?
  {
    StateDevicesDistinct(db, s);
    StateDistinctIds(db, s);
    InputCorrect(s, pkt);
    HubPolicyExact(s, x, pkt);
    var i := StateTrunk(db, s, x);
    if p.kind.AdminPeer? {
      AdminAddress(db, i, p, pkt.saddr);
    } else {
      var _ := SiteAddress(db, i, p, pkt.saddr);
    }
  }

  /** Isolation in every database reached from an installation by any run of the portal. */
  lemma ReachableConfinement(db: Db, events: seq<Event>, s: State, x: Instance, p: Peer, y: Instance, q: Peer,
                             pkt: Packet)
    requires Initial(db) && Represents(s, RunAll(db, events))
    requires EntersFrom(s, x, p, pkt) && DeliveredTo(s, y, q, pkt)
    ensures ForwardVerdict(Compile(s), pkt) == Accept <==> y == x && MayReach(p.kind, q.kind, pkt.established)
  {
    ReachableIsPlanned(db, events);
    DeliveryExact(RunAll(db, events), s, x, p, y, q, pkt);
  }
}
