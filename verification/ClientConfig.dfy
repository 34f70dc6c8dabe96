// The AllowedIPs that the portal writes into client configurations (vpnhub/wireguard.py), and
// the interval sets of the firewall, compared address by address.

module ClientConfig {
  import opened Seqs
  import opened Ipv4
  import opened Payload
  import opened Nftables
  import opened Host
  import opened Database
  import opened PortalInvariant
  import opened Acceptance
  import opened Confinement

  /** render_site_peer_config */
  function SiteClientAllowed(db: Db, i: InstanceRow, s: SiteRow, gateway: bool): seq<Network> {
    if gateway then [i.record.vpnPool] else [s.cidr] + Cidrs(NetworksOf(db, s.id))
  }

  function SitesRanges(db: Db, rows: seq<SiteRow>): (r: seq<Network>)
    ensures forall n :: n in r <==> exists s :: s in rows && n in SiteEntry(db, s).ranges
  {
    if rows == [] then []
    else
      assert rows == rows[..|rows| - 1] + [rows[|rows| - 1]];
      SitesRanges(db, rows[..|rows| - 1]) + SiteEntry(db, rows[|rows| - 1]).ranges
  }

  /** render_admin_peer_config */
  function AdminAllowed(db: Db, i: InstanceRow): seq<Network> {
    Dedup([HostNet(i.record.serverAddress.ip)] + SitesRanges(db, SitesOf(db, i.id)))
  }

  /** The loops of the two functions. */
  method RenderAdminAllowed(db: Db, i: InstanceRow) returns (allowed: seq<Network>)
    ensures allowed == AdminAllowed(db, i)
  {
    allowed := [HostNet(i.record.serverAddress.ip)];
    var sites := SitesOf(db, i.id);
    for k := 0 to |sites|
      invariant allowed == [HostNet(i.record.serverAddress.ip)] + SitesRanges(db, sites[..k])
    {
      TakeOneMore(sites, k);
      allowed := allowed + [sites[k].cidr];
      allowed := allowed + Cidrs(NetworksOf(db, sites[k].id));
    }
    assert sites[..|sites|] == sites;
    allowed := Dedup(allowed);
  }

  lemma RangesInSites(db: Db, i: InstanceRow, a: int)
    requires i.enabled && Covers(SitesRanges(db, SitesOf(db, i.id)), a)
    ensures InSomeSite(TrunkState(db, i), a)
  {
    var n :| n in SitesRanges(db, SitesOf(db, i.id)) && n.Contains(a);
    var s :| s in SitesOf(db, i.id) && n in SiteEntry(db, s).ranges;
    EntryOf(db, i, s);
    assert Covers(SiteEntry(db, s).ranges, a);
  }

  lemma SitesInRanges(db: Db, i: InstanceRow, a: int)
    requires i.enabled && InSomeSite(TrunkState(db, i), a)
    ensures Covers(SitesRanges(db, SitesOf(db, i.id)), a)
  {
    var s := SomeSiteRow(db, i, a);
    var n :| n in SiteEntry(db, s).ranges && n.Contains(a);
    assert s in SitesOf(db, i.id) && n in SitesRanges(db, SitesOf(db, i.id));
  }

  lemma SitesRangesCover(db: Db, i: InstanceRow, a: int)
    requires i.enabled
    ensures Covers(SitesRanges(db, SitesOf(db, i.id)), a) <==> InSomeSite(TrunkState(db, i), a)
  {
    if Covers(SitesRanges(db, SitesOf(db, i.id)), a) {
      RangesInSites(db, i, a);
    }
    if InSomeSite(TrunkState(db, i), a) {
      SitesInRanges(db, i, a);
    }
  }

  /** Every trunk of the database resolves its set names in the committed state. */
  lemma TrunkResolves(db: Db, s: State, i: InstanceRow)
    requires Inv(db) && Represents(s, db) && i in db.instances
    ensures Resolves(Decls(Enabled(s)), TrunkState(db, i))
  {
    StateDevicesDistinct(db, s);
    StateDistinctIds(db, s);
    EnabledResolve(s);
    TrunkInState(db, s, i);
    assert i.enabled && TrunkState(db, i) in Enabled(s);
  }

  lemma AdminAllowedCovers(db: Db, i: InstanceRow, a: int)
    requires i.enabled
    ensures Covers(AdminAllowed(db, i), a) <==>
            a == i.record.serverAddress.ip || InSomeSite(TrunkState(db, i), a)
  {
    var server, ranges := HostNet(i.record.serverAddress.ip), SitesRanges(db, SitesOf(db, i.id));
    CoversDedup([server] + ranges, a);
    HostOwns(i.record.serverAddress.ip, a);
    assert server in [server] + ranges;
    SitesRangesCover(db, i, a);
  }

  /** An Admin Peer's configuration routes exactly the server address and the addresses that the
      firewall's set sites_<id> of its trunk holds; removing repetitions loses none. */
  lemma AdminConfigAgrees(db: Db, s: State, i: InstanceRow, a: int)
    requires Inv(db) && Represents(s, db) && i in db.instances
    ensures Covers(AdminAllowed(db, i), a) <==>
            a == i.record.serverAddress.ip || InSet(Compile(s).sets, SitesSet(i.id), a)
  {
    assert i.enabled;
    AdminAllowedCovers(db, i, a);
    TrunkResolves(db, s, i);
  }

  /** A Site client's configuration routes exactly the addresses of its set site_<id>. */
  lemma SiteConfigAgrees(db: Db, s: State, r: SiteRow, i: InstanceRow, a: int)
    requires Inv(db) && Represents(s, db) && r in db.sites
    ensures Covers(SiteClientAllowed(db, i, r, false), a) <==> InSet(Compile(s).sets, SiteSet(r.id), a)
  {
    var trunk := TrunkOf(db, r);
    TrunkResolves(db, s, trunk);
    EntryOf(db, trunk, r);
  }

  /** A gateway's configuration routes exactly the pool of its trunk. */
  lemma GatewayConfigCovers(db: Db, i: InstanceRow, s: SiteRow, a: int)
    ensures Covers(SiteClientAllowed(db, i, s, true), a) <==> i.record.vpnPool.base <= a <= i.record.vpnPool.Last()
  {
    assert i.record.vpnPool in SiteClientAllowed(db, i, s, true);
  }

  // ----- interval sets

  lemma RangesDisjoint(db: Db, s: SiteRow, m: Network, n: Network)
    requires Inv(db) && s in db.sites && m != n
    requires m in SiteEntry(db, s).ranges && n in SiteEntry(db, s).ranges
    ensures !Overlaps(m, n)
  {
    if m == s.cidr {
      RangeIs(db, s, n);
      var r :| r in db.networks && r.siteId == s.id && r.cidr == n;
      NetworkOffSite(db, r, s);
      OverlapsSymmetric(m, n);
    } else {
      RangeIs(db, s, m);
      var q :| q in db.networks && q.siteId == s.id && q.cidr == m;
      if n == s.cidr {
        NetworkOffSite(db, q, s);
      } else {
        RangeIs(db, s, n);
        var r :| r in db.networks && r.siteId == s.id && r.cidr == n;
        assert q != r;
      }
    }
  }

  lemma SiteDeclLoads(db: Db, s: SiteRow)
    requires Inv(db) && s in db.sites
    ensures PairwiseDisjoint(Dedup(SiteEntry(db, s).ranges))
  {
    var all := Dedup(SiteEntry(db, s).ranges);
    forall m, n | m in all && n in all && m != n ensures !Overlaps(m, n) {
      RangesDisjoint(db, s, m, n);
    }
    DisjointByMembers(all);
  }

  lemma SitesDeclLoads(db: Db, i: InstanceRow)
    requires Inv(db)
    ensures PairwiseDisjoint(Dedup(AllRanges(TrunkState(db, i).sites)))
  {
    var sites := TrunkState(db, i).sites;
    var all := Dedup(AllRanges(sites));
    forall m, n | m in all && n in all && m != n ensures !Overlaps(m, n) {
      var d :| d in sites && m in d.ranges;
      var e :| e in sites && n in e.ranges;
      var s := StateSite(db, i, d);
      var t := StateSite(db, i, e);
      if s == t {
        RangesDisjoint(db, s, m, n);
      } else {
        RangesApart(db, s, t, m, n);
      }
    }
    DisjointByMembers(all);
  }

  lemma AdminDeclLoads(db: Db, i: InstanceRow)
    requires Inv(db)
    ensures PairwiseDisjoint(TrunkState(db, i).adminAddresses)
  {
    var admins := AdminsOf(db, i.id);
    var s := TrunkState(db, i).adminAddresses;
    DistinctAdminsOf(db, i.id);
    forall j, k | 0 <= j < k < |s| ensures !Overlaps(s[j], s[k]) {
      assert admins[j] in admins && admins[k] in admins;
      AdminIpsDiffer(db, admins[j], admins[k]);
      IpsApart(admins[j].ip, admins[k].ip);
    }
  }

  lemma DeclLoads(db: Db, i: InstanceRow, d: SetDecl)
    requires Inv(db) && d in TrunkDecls(TrunkState(db, i))
    ensures PairwiseDisjoint(d.elements)
  {
    var x := TrunkState(db, i);
    DeclsOfTrunk(x, d);
    AdminDeclLoads(db, i);
    SitesDeclLoads(db, i);
    if d in SiteDecls(x.sites) {
      var e :| e in x.sites && d == SiteDecl(e);
      var s := StateSite(db, i, e);
      SiteDeclLoads(db, s);
    }
  }

  /** No interval set of the rendered table holds conflicting intervals. */
  lemma PlannedIsLoadable(db: Db, s: State)
    requires Inv(db) && Represents(s, db)
    ensures Loadable(Compile(s))
  {
    forall d | d in Decls(Enabled(s)) ensures PairwiseDisjoint(d.elements) {
      var x :| x in Enabled(s) && d in TrunkDecls(x);
      var i := StateTrunk(db, s, x);
      DeclLoads(db, i, d);
    }
  }
}
