// The portal's database and its translation into the payload for the controller
// (vpnhub/models.py and vpnhub/sync.py).

module Database {
  import opened Seqs
  import opened Ipv4
  import opened Records
  import opened Registry
  import opened Payload
  import opened Validation

  datatype InstanceRow = InstanceRow(id: nat, enabled: bool, record: Record)
  datatype SiteRow = SiteRow(id: nat, instanceId: nat, name: string, cidr: Network)
  datatype NetworkRow = NetworkRow(id: nat, siteId: nat, cidr: Network)
  datatype PeerRow = PeerRow(id: nat, siteId: nat, gateway: bool, key: Key, psk: Option<Key>, ip: int)
  datatype AdminRow = AdminRow(id: nat, instanceId: nat, key: Key, psk: Option<Key>, ip: int)

  /** The tables, each listed in the order of its ids, and the next id to be given. */
  datatype Db = Db(
    instances: seq<InstanceRow>, sites: seq<SiteRow>, networks: seq<NetworkRow>,
    peers: seq<PeerRow>, admins: seq<AdminRow>, nextId: nat)

  // ----- queries

  function SitesOf(db: Db, instanceId: nat): (r: seq<SiteRow>)
    ensures forall s :: s in r <==> s in db.sites && s.instanceId == instanceId
  {
    Filter((s: SiteRow) => s.instanceId == instanceId, db.sites)
  }

  function SiteIds(db: Db, instanceId: nat): set<nat> {
    set s | s in SitesOf(db, instanceId) :: s.id
  }

  function NetworksOf(db: Db, siteId: nat): (r: seq<NetworkRow>)
    ensures forall n :: n in r <==> n in db.networks && n.siteId == siteId
  {
    Filter((n: NetworkRow) => n.siteId == siteId, db.networks)
  }

  function PeersOf(db: Db, instanceId: nat): (r: seq<PeerRow>)
    ensures forall p :: p in r <==> p in db.peers && p.siteId in SiteIds(db, instanceId)
  {
    var ids := SiteIds(db, instanceId);
    Filter((p: PeerRow) => p.siteId in ids, db.peers)
  }

  function AdminsOf(db: Db, instanceId: nat): (r: seq<AdminRow>)
    ensures forall p :: p in r <==> p in db.admins && p.instanceId == instanceId
  {
    Filter((p: AdminRow) => p.instanceId == instanceId, db.admins)
  }

  // ----- _peer_allowed_ips and _instance_state

  function Cidrs(rows: seq<NetworkRow>): (r: seq<Network>)
    ensures |r| == |rows|
    ensures forall i :: 0 <= i < |rows| ==> r[i] == rows[i].cidr
    ensures forall p :: p in r <==> exists n :: n in rows && n.cidr == p
  {
    var r := seq(|rows|, i requires 0 <= i < |rows| => rows[i].cidr);
    assert forall i :: 0 <= i < |r| ==> r[i] == rows[i].cidr;
    r
  }

  function HostNet(ip: int): Network {
    Network(ip, 32)
  }

  /** A gateway also owns the Networks of its Site. */
  function AllowedIps(db: Db, p: PeerRow): seq<Network> {
    [HostNet(p.ip)] + if p.gateway then Cidrs(NetworksOf(db, p.siteId)) else []
  }

  function PeerEntry(db: Db, p: PeerRow): Peer {
    Peer(SitePeer(p.siteId), p.key, p.psk, AllowedIps(db, p))
  }

  function AdminEntry(p: AdminRow): Peer {
    Peer(AdminPeer, p.key, p.psk, [HostNet(p.ip)])
  }

  function SiteEntry(db: Db, s: SiteRow): Site {
    Site(s.id, [s.cidr] + Cidrs(NetworksOf(db, s.id)))
  }

  function PeerEntries(db: Db, rows: seq<PeerRow>): seq<Peer> {
    seq(|rows|, i requires 0 <= i < |rows| => PeerEntry(db, rows[i]))
  }

  function AdminEntries(rows: seq<AdminRow>): seq<Peer> {
    seq(|rows|, i requires 0 <= i < |rows| => AdminEntry(rows[i]))
  }

  function SiteEntries(db: Db, rows: seq<SiteRow>): seq<Site> {
    seq(|rows|, i requires 0 <= i < |rows| => SiteEntry(db, rows[i]))
  }

  function AdminAddresses(rows: seq<AdminRow>): seq<Network> {
    seq(|rows|, i requires 0 <= i < |rows| => HostNet(rows[i].ip))
  }

  function Targets(db: Db, rows: seq<SiteRow>): (r: seq<Network>)
    ensures forall p :: p in r <==> exists s :: s in rows && p in Cidrs(NetworksOf(db, s.id))
  {
    if rows == [] then []
    else
      assert rows == rows[..|rows| - 1] + [rows[|rows| - 1]];
      Targets(db, rows[..|rows| - 1]) + Cidrs(NetworksOf(db, rows[|rows| - 1].id))
  }

  /** The state the portal wants for one trunk. */
  function TrunkState(db: Db, i: InstanceRow): Instance {
    if !i.enabled then Instance(i.id, false, i.record, [], [], [], [])
    else
      Instance(i.id, true, i.record,
               PeerEntries(db, PeersOf(db, i.id)) + AdminEntries(AdminsOf(db, i.id)),
               SiteEntries(db, SitesOf(db, i.id)),
               AdminAddresses(AdminsOf(db, i.id)),
               Dedup(Targets(db, SitesOf(db, i.id))))
  }

  /** _instance_state, which grows its lists in loops. */
  method BuildTrunkState(db: Db, i: InstanceRow) returns (x: Instance)
    ensures x == TrunkState(db, i)
  {
    var sites := SitesOf(db, i.id);
    var admins := AdminsOf(db, i.id);
    var peers: seq<Peer> := [];
    var siteDefs: seq<Site> := [];
    var adminAddresses: seq<Network> := [];
    var routes: seq<Network> := [];
    if i.enabled {
      peers := BuildPeers(db, PeersOf(db, i.id), admins);
      siteDefs, routes := BuildSites(db, sites);
      adminAddresses := AdminAddresses(admins);
    }
    x := Instance(i.id, i.enabled, i.record, peers, siteDefs, adminAddresses, Dedup(routes));
  }

  method BuildPeers(db: Db, sitePeers: seq<PeerRow>, admins: seq<AdminRow>) returns (peers: seq<Peer>)
    ensures peers == PeerEntries(db, sitePeers) + AdminEntries(admins)
  {
    peers := [];
    for k := 0 to |sitePeers|
      invariant peers == PeerEntries(db, sitePeers)[..k]
    {
      var allowed := BuildAllowedIps(db, sitePeers[k]);
      peers := peers + [Peer(SitePeer(sitePeers[k].siteId), sitePeers[k].key, sitePeers[k].psk, allowed)];
    }
    for k := 0 to |admins|
      invariant peers == PeerEntries(db, sitePeers) + AdminEntries(admins)[..k]
    {
      peers := peers + [Peer(AdminPeer, admins[k].key, admins[k].psk, [HostNet(admins[k].ip)])];
    }
  }

  /** _peer_allowed_ips */
  method BuildAllowedIps(db: Db, p: PeerRow) returns (allowed: seq<Network>)
    ensures allowed == AllowedIps(db, p)
  {
    allowed := [HostNet(p.ip)];
    if p.gateway {
      allowed := allowed + Cidrs(NetworksOf(db, p.siteId));
    }
  }

  method BuildSites(db: Db, sites: seq<SiteRow>) returns (defs: seq<Site>, routes: seq<Network>)
    ensures defs == SiteEntries(db, sites) && routes == Targets(db, sites)
  {
    defs, routes := [], [];
    for k := 0 to |sites|
      invariant defs == SiteEntries(db, sites)[..k]
      invariant routes == Targets(db, sites[..k])
    {
      var ranges := [sites[k].cidr];
      var networks := NetworksOf(db, sites[k].id);
      ghost var before := routes;
      for j := 0 to |networks|
        invariant ranges == [sites[k].cidr] + Cidrs(networks)[..j]
        invariant routes == before + Cidrs(networks)[..j]
      {
        ranges := ranges + [networks[j].cidr];
        routes := routes + [networks[j].cidr];
      }
      assert Cidrs(networks)[..|networks|] == Cidrs(networks);
      assert Site(sites[k].id, ranges) == SiteEntry(db, sites[k]);
      defs := defs + [Site(sites[k].id, ranges)];
      assert sites[..k + 1][..k] == sites[..k];
    }
    assert sites[..|sites|] == sites;
  }

  function TrunkStates(db: Db): (s: State)
    ensures |s| == |db.instances|
    ensures forall k {:trigger s[k]} :: 0 <= k < |s| ==> s[k] == TrunkState(db, db.instances[k])
  {
    seq(|db.instances|, k requires 0 <= k < |db.instances| => TrunkState(db, db.instances[k]))
  }

  // ----- the wire format

  function ShowAll(s: seq<Network>): (r: seq<Text>)
    ensures |r| == |s|
    ensures forall i {:trigger r[i]} :: 0 <= i < |s| ==> r[i] == Show(s[i])
  {
    seq(|s|, i requires 0 <= i < |s| => Show(s[i]))
  }

  function WirePeer(p: Peer): RawPeer {
    RawPeer(p.kind, p.publicKey, p.psk, ShowAll(p.allowedIps))
  }

  function WireSite(s: Site): RawSite {
    RawSite(s.id, ShowAll(s.ranges))
  }

  /** A trunk state written as text, as it travels to the controller. */
  function Wire(x: Instance): RawInstance {
    RawInstance(x.id, x.enabled, x.record.interface, x.record.listenPort, Show(x.record.vpnPool),
                ShowInterface(x.record.serverAddress), x.record.keyPath, x.record.publicKey,
                x.record.routeProtocol,
                seq(|x.peers|, i requires 0 <= i < |x.peers| => WirePeer(x.peers[i])),
                seq(|x.sites|, i requires 0 <= i < |x.sites| => WireSite(x.sites[i])),
                ShowAll(x.adminAddresses), ShowAll(x.routes))
  }

  function WireAll(s: State): (r: seq<RawInstance>)
    ensures |r| == |s|
    ensures forall i {:trigger r[i]} :: 0 <= i < |s| ==> r[i] == Wire(s[i])
  {
    seq(|s|, i requires 0 <= i < |s| => Wire(s[i]))
  }

  /** desired_state */
  function DesiredState(db: Db): seq<RawInstance> {
    WireAll(TrunkStates(db))
  }

  predicate NetworksOk(s: seq<Network>) {
    forall n :: n in s ==> n.Valid()
  }

  /** A state that the controller reads back unchanged. */
  predicate Clean(x: Instance) {
    && (forall p :: p in x.peers ==>
          ValidKey(p.publicKey) && (p.psk.Some? ==> ValidKey(p.psk.value)) && NetworksOk(p.allowedIps))
    && (forall s :: s in x.sites ==> NetworksOk(s.ranges))
    && NetworksOk(x.adminAddresses) && NetworksOk(x.routes) && Distinct(x.routes)
  }

  lemma ShowAllRoundTrip(s: seq<Network>)
    requires NetworksOk(s)
    ensures AllParse(ShowAll(s)) && Networks(ShowAll(s)) == s
  {
    forall i | 0 <= i < |s| ensures Parses(Show(s[i])) && ParseNetwork(Show(s[i])) == s[i] {
      assert s[i] in s;
      ShowRoundTrip(s[i]);
    }
  }

  lemma WirePeersRoundTrip(x: Instance)
    requires Clean(x)
    ensures forall p :: p in Wire(x).peers ==> PeerParses(p)
    ensures ToPeers(Wire(x).peers) == x.peers
  {
    var w := Wire(x).peers;
    forall i | 0 <= i < |w| ensures PeerParses(w[i]) && ToPeer(w[i]) == x.peers[i] {
      assert x.peers[i] in x.peers;
      ShowAllRoundTrip(x.peers[i].allowedIps);
    }
  }

  lemma WireSitesRoundTrip(x: Instance)
    requires Clean(x)
    ensures forall s :: s in Wire(x).sites ==> AllParse(s.ranges)
    ensures ToSites(Wire(x).sites) == x.sites
  {
    var w := Wire(x).sites;
    forall i | 0 <= i < |w| ensures AllParse(w[i].ranges) && Networks(w[i].ranges) == x.sites[i].ranges {
      assert x.sites[i] in x.sites;
      ShowAllRoundTrip(x.sites[i].ranges);
    }
  }

  /** Writing a trunk state to the wire and normalizing it in the controller gives it back. */
  lemma WireRoundTrip(reg: Instances, x: Instance)
    requires Clean(x) && RecordOk(x.record) && x.Dev() in reg && reg[x.Dev()] == x.record
    requires PeersSeparate(x.peers)
    ensures TrunkOk(reg, Wire(x)) && ToInstance(reg, Wire(x)) == x
  {
    WirePeersRoundTrip(x);
    WireSitesRoundTrip(x);
    ShowAllRoundTrip(x.adminAddresses);
    ShowAllRoundTrip(x.routes);
    DedupOfDistinct(x.routes);
    ShowRoundTrip(x.record.vpnPool);
  }
}
