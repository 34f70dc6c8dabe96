// What the portal sends and what the host is configured with, row by row: which Peers, keys,
// preshared keys, addresses and routes of the database arrive in the payload and on the links.

module Configuration {
  import opened Seqs
  import opened Ipv4
  import opened Records
  import opened Registry
  import opened Payload
  import opened Host
  import opened SyncSpec
  import opened Database
  import opened PortalInvariant
  import opened Acceptance
  import opened Portal
  import opened PortalRuns
  import opened Confinement
  import opened Hub
  import opened EndToEnd

  // ----- rows of a trunk

  predicate SiteOn(db: Db, i: InstanceRow, s: SiteRow) {
    s in db.sites && s.instanceId == i.id
  }

  /** A Peer of a Site of the trunk. */
  ghost predicate PeerOn(db: Db, i: InstanceRow, p: PeerRow) {
    p in db.peers && exists s :: SiteOn(db, i, s) && s.id == p.siteId
  }

  predicate AdminOn(db: Db, i: InstanceRow, q: AdminRow) {
    q in db.admins && q.instanceId == i.id
  }

  /** A Network of a Site of the trunk. */
  ghost predicate NetworkOn(db: Db, i: InstanceRow, n: Network) {
    exists r, s :: r in db.networks && SiteOn(db, i, s) && r.siteId == s.id && r.cidr == n
  }

  /** A Peer owns its own address, and a gateway also the Networks of its Site. */
  predicate OwnedBy(db: Db, p: PeerRow, n: Network) {
    || n == Network(p.ip, 32)
    || (p.gateway && exists r :: r in db.networks && r.siteId == p.siteId && r.cidr == n)
  }

  lemma PeersOfTrunk(db: Db, i: InstanceRow, p: PeerRow)
    ensures p in PeersOf(db, i.id) <==> PeerOn(db, i, p)
  {
    if PeerOn(db, i, p) {
      var s :| SiteOn(db, i, s) && s.id == p.siteId;
      assert s in SitesOf(db, i.id);
    }
  }

  // ----- the payload

  function Written(n: Network): Text {
    Text.Ipv4(n.base, n.len)
  }

  /** The entry of this Peer, with its keys and exactly its addresses. */
  ghost predicate SentFor(db: Db, p: PeerRow, e: RawPeer) {
    && e.kind == SitePeer(p.siteId) && e.publicKey == p.key && e.psk == p.psk
    && (forall n :: OwnedBy(db, p, n) ==> Written(n) in e.allowedIps)
    && (forall t :: t in e.allowedIps ==> exists n :: OwnedBy(db, p, n) && t == Written(n))
  }

  predicate SentForAdmin(q: AdminRow, e: RawPeer) {
    && e.kind == AdminPeer && e.publicKey == q.key && e.psk == q.psk
    && e.allowedIps == [Text.Ipv4(q.ip, 32)]
  }

  /** The entry of this Site, with exactly its block and its Networks. */
  ghost predicate SentForSite(db: Db, s: SiteRow, e: RawSite) {
    && e.id == s.id
    && (forall t :: t in e.ranges <==>
          t == Written(s.cidr) || exists r :: r in db.networks && r.siteId == s.id && t == Written(r.cidr))
  }

  lemma ShownAre(s: seq<Network>, t: Text)
    ensures t in ShowAll(s) <==> exists n :: n in s && t == Written(n)
  {
    if t in ShowAll(s) {
      var k :| 0 <= k < |s| && ShowAll(s)[k] == t;
      assert s[k] in s;
    }
    if exists n :: n in s && t == Written(n) {
      var n :| n in s && t == Written(n);
      var k :| 0 <= k < |s| && s[k] == n;
      assert ShowAll(s)[k] == t;
    }
  }

  lemma PeerIsSent(db: Db, p: PeerRow)
    ensures SentFor(db, p, WirePeer(PeerEntry(db, p)))
  {
    forall n ensures n in AllowedIps(db, p) <==> OwnedBy(db, p, n) {
      AllowedIpIs(db, p, n);
    }
    forall t ensures t in ShowAll(AllowedIps(db, p)) <==> exists n :: n in AllowedIps(db, p) && t == Written(n) {
      ShownAre(AllowedIps(db, p), t);
    }
  }

  lemma AdminIsSent(q: AdminRow)
    ensures SentForAdmin(q, WirePeer(AdminEntry(q)))
  {
  }

  lemma SiteIsSent(db: Db, s: SiteRow)
    ensures SentForSite(db, s, WireSite(SiteEntry(db, s)))
  {
    var all := SiteEntry(db, s).ranges;
    forall t ensures t in ShowAll(all) <==>
        t == Written(s.cidr) || exists r :: r in db.networks && r.siteId == s.id && t == Written(r.cidr)
    {
      ShownAre(all, t);
      SiteRangeIs(db, s, t);
    }
  }

  lemma SiteRangeIs(db: Db, s: SiteRow, t: Text)
    ensures (exists n :: n in SiteEntry(db, s).ranges && t == Written(n)) <==>
            t == Written(s.cidr) || exists r :: r in db.networks && r.siteId == s.id && t == Written(r.cidr)
  {
    var all := SiteEntry(db, s).ranges;
    assert s.cidr in all;
    if exists r :: r in db.networks && r.siteId == s.id && t == Written(r.cidr) {
      var r :| r in db.networks && r.siteId == s.id && t == Written(r.cidr);
      assert r in NetworksOf(db, s.id) && r.cidr in Cidrs(NetworksOf(db, s.id)) && r.cidr in all;
    }
  }

  /** Every Peer and Admin Peer of the trunk is in its payload, with its key, its preshared key, its
      kind and exactly its addresses; and every entry is one of these rows. */
  ghost predicate PeersSent(db: Db, i: InstanceRow, es: seq<RawPeer>) {
    && (forall p :: PeerOn(db, i, p) ==> exists e :: e in es && SentFor(db, p, e))
    && (forall q :: AdminOn(db, i, q) ==> exists e :: e in es && SentForAdmin(q, e))
    && (forall e :: e in es ==> (exists p :: PeerOn(db, i, p) && SentFor(db, p, e))
                                || (exists q :: AdminOn(db, i, q) && SentForAdmin(q, e)))
  }

  lemma TrunkPeers(db: Db, i: InstanceRow, k: nat)
    requires i.enabled && k < |TrunkState(db, i).peers|
    ensures var x := TrunkState(db, i).peers[k];
            || (exists p :: PeerOn(db, i, p) && x == PeerEntry(db, p))
            || (exists q :: AdminOn(db, i, q) && x == AdminEntry(q))
  {
    var rows, admins := PeersOf(db, i.id), AdminsOf(db, i.id);
    if k < |rows| {
      PeersOfTrunk(db, i, rows[k]);
      assert rows[k] in rows;
    } else {
      assert admins[k - |rows|] in admins && AdminOn(db, i, admins[k - |rows|]);
    }
  }

  lemma PeerHasEntry(db: Db, i: InstanceRow, p: PeerRow) returns (k: nat)
    requires i.enabled && PeerOn(db, i, p)
    ensures k < |TrunkState(db, i).peers| && TrunkState(db, i).peers[k] == PeerEntry(db, p)
  {
    PeersOfTrunk(db, i, p);
    var rows := PeersOf(db, i.id);
    k :| 0 <= k < |rows| && rows[k] == p;
  }

  lemma AdminHasEntry(db: Db, i: InstanceRow, q: AdminRow) returns (k: nat)
    requires i.enabled && AdminOn(db, i, q)
    ensures k < |TrunkState(db, i).peers| && TrunkState(db, i).peers[k] == AdminEntry(q)
  {
    var rows, admins := PeersOf(db, i.id), AdminsOf(db, i.id);
    var j :| 0 <= j < |admins| && admins[j] == q;
    k := |rows| + j;
  }

  lemma PayloadPeers(db: Db, i: InstanceRow)
    requires i.enabled
    ensures PeersSent(db, i, Wire(TrunkState(db, i)).peers)
  {
    var x := TrunkState(db, i);
    var es := Wire(x).peers;
    forall p | PeerOn(db, i, p) ensures exists e :: e in es && SentFor(db, p, e) {
      var k := PeerHasEntry(db, i, p);
      PeerIsSent(db, p);
      assert es[k] == WirePeer(PeerEntry(db, p)) && es[k] in es;
    }
    forall q | AdminOn(db, i, q) ensures exists e :: e in es && SentForAdmin(q, e) {
      var k := AdminHasEntry(db, i, q);
      AdminIsSent(q);
      assert es[k] == WirePeer(AdminEntry(q)) && es[k] in es;
    }
    forall e | e in es
      ensures || (exists p :: PeerOn(db, i, p) && SentFor(db, p, e))
              || (exists q :: AdminOn(db, i, q) && SentForAdmin(q, e))
    {
      var k :| 0 <= k < |es| && es[k] == e;
      EntryIsSent(db, i, k);
    }
  }

  lemma EntryIsSent(db: Db, i: InstanceRow, k: nat)
    requires i.enabled && k < |TrunkState(db, i).peers|
    ensures var e := WirePeer(TrunkState(db, i).peers[k]);
            (exists p :: PeerOn(db, i, p) && SentFor(db, p, e)) || (exists q :: AdminOn(db, i, q) && SentForAdmin(q, e))
  {
    var x := TrunkState(db, i).peers[k];
    TrunkPeers(db, i, k);
    if exists p :: PeerOn(db, i, p) && x == PeerEntry(db, p) {
      var p :| PeerOn(db, i, p) && x == PeerEntry(db, p);
      PeerIsSent(db, p);
    } else {
      var q :| AdminOn(db, i, q) && x == AdminEntry(q);
      AdminIsSent(q);
    }
  }

  /** Every Site of the trunk is in its payload with exactly its ranges, and nothing else. */
  ghost predicate SitesSent(db: Db, i: InstanceRow, es: seq<RawSite>) {
    && (forall s :: SiteOn(db, i, s) ==> exists e :: e in es && SentForSite(db, s, e))
    && (forall e :: e in es ==> exists s :: SiteOn(db, i, s) && SentForSite(db, s, e))
  }

  lemma PayloadSites(db: Db, i: InstanceRow)
    requires i.enabled
    ensures SitesSent(db, i, Wire(TrunkState(db, i)).sites)
  {
    var rows := SitesOf(db, i.id);
    var es := Wire(TrunkState(db, i)).sites;
    forall s | SiteOn(db, i, s) ensures exists e :: e in es && SentForSite(db, s, e) {
      var k :| 0 <= k < |rows| && rows[k] == s;
      SiteIsSent(db, s);
      assert es[k] == WireSite(SiteEntry(db, s)) && es[k] in es;
    }
    forall e | e in es ensures exists s :: SiteOn(db, i, s) && SentForSite(db, s, e) {
      var k :| 0 <= k < |es| && es[k] == e;
      SiteIsSent(db, rows[k]);
      assert rows[k] in rows && SiteOn(db, i, rows[k]);
    }
  }

  lemma PayloadRoutes(db: Db, i: InstanceRow, t: Text)
    requires i.enabled
    ensures t in Wire(TrunkState(db, i)).routes <==> exists n :: NetworkOn(db, i, n) && t == Written(n)
  {
    ShownAre(TrunkState(db, i).routes, t);
    forall n ensures n in TrunkState(db, i).routes <==> NetworkOn(db, i, n) {
      TrunkRoute(db, i, n);
    }
  }

  lemma TrunkRoute(db: Db, i: InstanceRow, n: Network)
    requires i.enabled
    ensures n in TrunkState(db, i).routes <==> NetworkOn(db, i, n)
  {
    if n in TrunkState(db, i).routes {
      RouteIsNetwork(db, i, n);
      var r, s :| r in db.networks && s in db.sites && r.siteId == s.id && s.instanceId == i.id && r.cidr == n;
      assert SiteOn(db, i, s);
    }
    if NetworkOn(db, i, n) {
      var r, s :| r in db.networks && SiteOn(db, i, s) && r.siteId == s.id && r.cidr == n;
      assert s in SitesOf(db, i.id) && r in NetworksOf(db, s.id);
      assert n in Cidrs(NetworksOf(db, s.id)) && n in Targets(db, SitesOf(db, i.id));
    }
  }

  lemma PayloadAdminAddresses(db: Db, i: InstanceRow, t: Text)
    requires i.enabled
    ensures t in Wire(TrunkState(db, i)).adminAddresses <==> exists q :: AdminOn(db, i, q) && t == Text.Ipv4(q.ip, 32)
  {
    var admins := AdminsOf(db, i.id);
    var es := Wire(TrunkState(db, i)).adminAddresses;
    if t in es {
      var k :| 0 <= k < |es| && es[k] == t;
      assert admins[k] in admins && AdminOn(db, i, admins[k]);
    }
    if exists q :: AdminOn(db, i, q) && t == Text.Ipv4(q.ip, 32) {
      var q :| AdminOn(db, i, q) && t == Text.Ipv4(q.ip, 32);
      var k :| 0 <= k < |admins| && admins[k] == q;
      assert es[k] == t;
    }
  }

  /** The trunk identifies itself as its row has it. */
  predicate Identifies(i: InstanceRow, raw: RawInstance) {
    && raw.id == i.id && raw.enabled == i.enabled
    && raw.interface == i.record.interface && raw.listenPort == i.record.listenPort
    && raw.vpnPool == Written(i.record.vpnPool)
    && raw.serverAddress == Text.Ipv4(i.record.serverAddress.ip, i.record.serverAddress.len)
    && raw.keyPath == i.record.keyPath && raw.serverKey == i.record.publicKey
    && raw.routeProtocol == i.record.routeProtocol
  }

  /** desired_state, row by row: trunk k of the payload is instance k of the database, and carries
      exactly its Peers, Sites, Admin addresses and Networks. */
  lemma PayloadIsTheDatabase(db: Db, k: nat)
    requires Inv(db) && k < |db.instances|
    ensures |DesiredState(db)| == |db.instances|
    ensures var i, raw := db.instances[k], DesiredState(db)[k];
            && Identifies(i, raw) && PeersSent(db, i, raw.peers) && SitesSent(db, i, raw.sites)
            && (forall t :: t in raw.adminAddresses <==> exists q :: AdminOn(db, i, q) && t == Text.Ipv4(q.ip, 32))
            && (forall t :: t in raw.routes <==> exists n :: NetworkOn(db, i, n) && t == Written(n))
  {
    var i := db.instances[k];
    assert i in db.instances && i.enabled;
    assert DesiredState(db)[k] == Wire(TrunkState(db, i));
    PayloadPeers(db, i);
    PayloadSites(db, i);
    forall t ensures t in Wire(TrunkState(db, i)).adminAddresses <==>
                     exists q :: AdminOn(db, i, q) && t == Text.Ipv4(q.ip, 32)
    {
      PayloadAdminAddresses(db, i, t);
    }
    forall t ensures t in Wire(TrunkState(db, i)).routes <==> exists n :: NetworkOn(db, i, n) && t == Written(n) {
      PayloadRoutes(db, i, t);
    }
  }

  // ----- the host

  /** The WireGuard Peer of this row, with its keys and exactly its addresses. */
  ghost predicate ConfiguredFor(db: Db, p: PeerRow, w: WgPeer) {
    w.publicKey == p.key && w.psk == p.psk && forall n :: n in w.allowedIps <==> OwnedBy(db, p, n)
  }

  predicate ConfiguredForAdmin(q: AdminRow, w: WgPeer) {
    w.publicKey == q.key && w.psk == q.psk && w.allowedIps == [Network(q.ip, 32)]
  }

  /** Exactly one row of the database has this key. */
  predicate OneRow(db: Db, key: Key) {
    || ((exists p :: p in db.peers && p.key == key && forall r :: r in db.peers && r.key == key ==> r == p)
        && forall q :: q in db.admins ==> q.key != key)
    || ((exists q :: q in db.admins && q.key == key && forall r :: r in db.admins && r.key == key ==> r == q)
        && forall p :: p in db.peers ==> p.key != key)
  }

  /** Every Peer and Admin Peer of the trunk is configured on the link, and every configured Peer is
      one of these rows, and of one row only. */
  ghost predicate Serves(db: Db, i: InstanceRow, ws: seq<WgPeer>) {
    && (forall p :: PeerOn(db, i, p) ==> exists w :: w in ws && ConfiguredFor(db, p, w))
    && (forall q :: AdminOn(db, i, q) ==> exists w :: w in ws && ConfiguredForAdmin(q, w))
    && (forall w :: w in ws ==>
          && OneRow(db, w.publicKey)
          && (|| (exists p :: PeerOn(db, i, p) && ConfiguredFor(db, p, w))
              || (exists q :: AdminOn(db, i, q) && ConfiguredForAdmin(q, w))))
  }

  lemma EntryIsConfigured(db: Db, p: PeerRow, w: WgPeer)
    requires var x := PeerEntry(db, p); w == WgPeer(x.publicKey, x.psk, x.allowedIps)
    ensures ConfiguredFor(db, p, w)
  {
    forall n ensures n in w.allowedIps <==> OwnedBy(db, p, n) {
      AllowedIpIs(db, p, n);
    }
  }

  lemma KeyHasOneRow(db: Db, key: Key)
    requires Inv(db)
    requires (exists p :: p in db.peers && p.key == key) || (exists q :: q in db.admins && q.key == key)
    ensures OneRow(db, key)
  {
    if exists p :: p in db.peers && p.key == key {
      var p :| p in db.peers && p.key == key;
      assert forall r :: r in db.peers && r.key == key ==> r == p;
    } else {
      var q :| q in db.admins && q.key == key;
      assert forall r :: r in db.admins && r.key == key ==> r == q;
    }
  }

  /** The WireGuard Peer at position k is that of Peer k of the trunk state. */
  lemma PeerAtPosition(x: Instance, keys: KeyFiles, n: Net, k: nat)
    requires x.enabled && RealizesTrunk(x, keys, n)
    ensures |n.links[x.Dev()].wg.peers| == |x.peers|
    ensures k < |x.peers| ==>
              n.links[x.Dev()].wg.peers[k] == WgPeer(x.peers[k].publicKey, x.peers[k].psk, x.peers[k].allowedIps)
  {
  }

  lemma LinkServesPeer(db: Db, i: InstanceRow, keys: KeyFiles, n: Net, p: PeerRow)
    requires i.enabled && RealizesTrunk(TrunkState(db, i), keys, n) && PeerOn(db, i, p)
    ensures exists w :: w in n.links[i.record.interface].wg.peers && ConfiguredFor(db, p, w)
  {
    var k := PeerHasEntry(db, i, p);
    PeerAtPosition(TrunkState(db, i), keys, n, k);
    var w := n.links[i.record.interface].wg.peers[k];
    EntryIsConfigured(db, p, w);
    assert w in n.links[i.record.interface].wg.peers;
  }

  lemma LinkServesAdmin(db: Db, i: InstanceRow, keys: KeyFiles, n: Net, q: AdminRow)
    requires i.enabled && RealizesTrunk(TrunkState(db, i), keys, n) && AdminOn(db, i, q)
    ensures exists w :: w in n.links[i.record.interface].wg.peers && ConfiguredForAdmin(q, w)
  {
    var k := AdminHasEntry(db, i, q);
    PeerAtPosition(TrunkState(db, i), keys, n, k);
    var w := n.links[i.record.interface].wg.peers[k];
    assert ConfiguredForAdmin(q, w) && w in n.links[i.record.interface].wg.peers;
  }

  lemma LinkServesOnly(db: Db, i: InstanceRow, keys: KeyFiles, n: Net, w: WgPeer)
    requires Inv(db) && i.enabled && RealizesTrunk(TrunkState(db, i), keys, n)
    requires w in n.links[i.record.interface].wg.peers
    ensures OneRow(db, w.publicKey)
    ensures || (exists p :: PeerOn(db, i, p) && ConfiguredFor(db, p, w))
            || (exists q :: AdminOn(db, i, q) && ConfiguredForAdmin(q, w))
  {
    var ws := n.links[i.record.interface].wg.peers;
    var k :| 0 <= k < |ws| && ws[k] == w;
    var x := TrunkState(db, i);
    PeerAtPosition(x, keys, n, k);
    TrunkPeers(db, i, k);
    if exists p :: PeerOn(db, i, p) && x.peers[k] == PeerEntry(db, p) {
      var p :| PeerOn(db, i, p) && x.peers[k] == PeerEntry(db, p);
      EntryIsConfigured(db, p, w);
      assert p in db.peers && p.key == w.publicKey;
    } else {
      var q :| AdminOn(db, i, q) && x.peers[k] == AdminEntry(q);
      assert q in db.admins && q.key == w.publicKey && ConfiguredForAdmin(q, w);
    }
    KeyHasOneRow(db, w.publicKey);
  }

  lemma LinkServes(db: Db, i: InstanceRow, keys: KeyFiles, n: Net)
    requires Inv(db) && i.enabled && RealizesTrunk(TrunkState(db, i), keys, n)
    ensures Serves(db, i, n.links[i.record.interface].wg.peers)
  {
    var ws := n.links[i.record.interface].wg.peers;
    forall p | PeerOn(db, i, p) ensures exists w :: w in ws && ConfiguredFor(db, p, w) {
      LinkServesPeer(db, i, keys, n, p);
    }
    forall q | AdminOn(db, i, q) ensures exists w :: w in ws && ConfiguredForAdmin(q, w) {
      LinkServesAdmin(db, i, keys, n, q);
    }
    forall w | w in ws
      ensures OneRow(db, w.publicKey)
      ensures || (exists p :: PeerOn(db, i, p) && ConfiguredFor(db, p, w))
              || (exists q :: AdminOn(db, i, q) && ConfiguredForAdmin(q, w))
    {
      LinkServesOnly(db, i, keys, n, w);
    }
  }

  /** The link of a trunk: up, with its server address, its port and the private key of its key
      file. */
  predicate LinkIs(i: InstanceRow, keys: KeyFiles, l: Link) {
    && l.up && i.record.serverAddress in l.addresses
    && l.wg.listenPort == i.record.listenPort
    && (i.record.keyPath in keys ==> l.wg.privateKey == Some(keys[i.record.keyPath]))
  }

  /** The routes of the trunk's protocol on its device are exactly its Networks. */
  ghost predicate RoutesAre(db: Db, i: InstanceRow, routes: map<Network, Route>) {
    forall dst ::
      (dst in routes && routes[dst] == Route(i.record.interface, i.record.routeProtocol)) <==> NetworkOn(db, i, dst)
  }

  /** On every host that agrees with a planned database, every trunk is up on its own link with
      exactly the Peers, keys and addresses of its rows, and exactly its routes. */
  lemma AgreementServes(db: Db, reg: Instances, keys: KeyFiles, n: Net, i: InstanceRow)
    requires Inv(db) && ValidRegistry(reg) && Agrees(reg, keys, db, n) && i in db.instances
    ensures i.record.interface in n.links
    ensures LinkIs(i, keys, n.links[i.record.interface])
    ensures Serves(db, i, n.links[i.record.interface].wg.peers)
    ensures RoutesAre(db, i, n.routes)
  {
    AcceptedMatches(db, reg);
    var s := CarriedState(db, reg, keys, n);
    TrunkInState(db, s, i);
    TrunkServes(db, keys, n, i);
  }

  lemma TrunkServes(db: Db, keys: KeyFiles, n: Net, i: InstanceRow)
    requires Inv(db) && i in db.instances && RealizesTrunk(TrunkState(db, i), keys, n)
    ensures i.record.interface in n.links
    ensures LinkIs(i, keys, n.links[i.record.interface])
    ensures Serves(db, i, n.links[i.record.interface].wg.peers)
    ensures RoutesAre(db, i, n.routes)
  {
    assert i.enabled;
    LinkServes(db, i, keys, n);
    forall dst ensures (dst in n.routes && n.routes[dst] == Route(i.record.interface, i.record.routeProtocol))
                       <==> NetworkOn(db, i, dst)
    {
      TrunkRoute(db, i, dst);
      assert RouteOf(TrunkState(db, i)) == Route(i.record.interface, i.record.routeProtocol);
    }
  }

  // ----- deleted and replaced keys

  /** No trunk's link has a Peer with this key. */
  predicate KeyOffHost(db: Db, n: Net, key: Key) {
    forall i :: i in db.instances && i.record.interface in n.links ==>
      forall w :: w in n.links[i.record.interface].wg.peers ==> w.publicKey != key
  }

  /** A key that no row has is on no trunk of a host that agrees. */
  lemma GoneKeyIsOffHost(db: Db, reg: Instances, keys: KeyFiles, n: Net, key: Key)
    requires Inv(db) && ValidRegistry(reg) && Agrees(reg, keys, db, n) && KeyGone(db, key)
    ensures KeyOffHost(db, n, key)
  {
    forall i, w | i in db.instances && i.record.interface in n.links && w in n.links[i.record.interface].wg.peers
      ensures w.publicKey != key
    {
      AgreementServes(db, reg, keys, n, i);
      assert OneRow(db, w.publicKey);
    }
  }

  /** The candidate of a deletion or a rekey keeps the plan. */
  lemma ChangeKeepsInv(db: Db, op: Op, next: Db)
    requires Inv(db) && Candidate(db, op) == Some(next) && !op.InstanceNew? && !op.NetworkNew?
    ensures Inv(next)
  {
    CandidateKeepsInv(db, op);
  }

  lemma DeletedKeyIsGone(db: Db, p: PeerRow, next: Db)
    requires Inv(db) && p in db.peers && Candidate(db, PeerDelete(p.id)) == Some(next)
    ensures KeyGone(next, p.key)
  {
    DeletePeerOutcome(db, p.id);
  }

  lemma DeletedAdminKeyIsGone(db: Db, q: AdminRow, next: Db)
    requires Inv(db) && q in db.admins && Candidate(db, AdminDelete(q.id)) == Some(next)
    ensures KeyGone(next, q.key)
  {
    DeleteAdminOutcome(db, q.id);
  }

  lemma DeletedSiteKeyIsGone(db: Db, p: PeerRow, next: Db)
    requires Inv(db) && p in db.peers && Candidate(db, SiteDelete(p.siteId)) == Some(next)
    ensures KeyGone(next, p.key)
  {
    DeleteSiteOutcome(db, p.siteId);
  }

  /** A deleted Peer is gone from the host that agrees afterwards. */
  lemma DeletedPeerIsOff(db: Db, p: PeerRow, next: Db, reg: Instances, keys: KeyFiles, n: Net)
    requires Inv(db) && p in db.peers && Candidate(db, PeerDelete(p.id)) == Some(next)
    requires ValidRegistry(reg) && Agrees(reg, keys, next, n)
    ensures KeyOffHost(next, n, p.key)
  {
    ChangeKeepsInv(db, PeerDelete(p.id), next);
    DeletedKeyIsGone(db, p, next);
    GoneKeyIsOffHost(next, reg, keys, n, p.key);
  }

  lemma DeletedAdminIsOff(db: Db, q: AdminRow, next: Db, reg: Instances, keys: KeyFiles, n: Net)
    requires Inv(db) && q in db.admins && Candidate(db, AdminDelete(q.id)) == Some(next)
    requires ValidRegistry(reg) && Agrees(reg, keys, next, n)
    ensures KeyOffHost(next, n, q.key)
  {
    ChangeKeepsInv(db, AdminDelete(q.id), next);
    DeletedAdminKeyIsGone(db, q, next);
    GoneKeyIsOffHost(next, reg, keys, n, q.key);
  }

  /** So are all Peers of a deleted Site. */
  lemma DeletedSiteIsOff(db: Db, p: PeerRow, next: Db, reg: Instances, keys: KeyFiles, n: Net)
    requires Inv(db) && p in db.peers && Candidate(db, SiteDelete(p.siteId)) == Some(next)
    requires ValidRegistry(reg) && Agrees(reg, keys, next, n)
    ensures KeyOffHost(next, n, p.key)
  {
    ChangeKeepsInv(db, SiteDelete(p.siteId), next);
    DeletedSiteKeyIsGone(db, p, next);
    GoneKeyIsOffHost(next, reg, keys, n, p.key);
  }

  /** The link of the trunk has a Peer with these keys. */
  predicate KeyOnLink(n: Net, i: InstanceRow, key: Key, psk: Key) {
    && i.record.interface in n.links
    && exists w :: w in n.links[i.record.interface].wg.peers && w.publicKey == key && w.psk == Some(psk)
  }

  lemma ReplacedKeyIsGone(db: Db, p: PeerRow, key: Key, psk: Key, next: Db)
    requires Inv(db) && p in db.peers && Candidate(db, PeerRekey(p.id, key, psk)) == Some(next)
    ensures KeyGone(next, p.key)
  {
    RekeyPeerOutcome(db, p.id, key, psk);
  }

  lemma RekeyedRow(db: Db, i: InstanceRow, p: PeerRow, key: Key, psk: Key, next: Db)
    requires Inv(db) && PeerOn(db, i, p) && Candidate(db, PeerRekey(p.id, key, psk)) == Some(next)
    ensures next.instances == db.instances
    ensures PeerOn(next, i, PeerRow(p.id, p.siteId, p.gateway, key, Some(psk), p.ip))
  {
    RekeyPeerOutcome(db, p.id, key, psk);
    var k :| 0 <= k < |db.peers| && db.peers[k] == p;
    assert next.peers[k] in next.peers;
    var s :| SiteOn(db, i, s) && s.id == p.siteId;
    assert next.sites == db.sites && SiteOn(next, i, s);
  }

  /** After a rekey the former key is on no trunk of a host that agrees, and the Peer's trunk has the
      new one. */
  lemma RekeyedPeerIsOn(db: Db, i: InstanceRow, p: PeerRow, key: Key, psk: Key, next: Db,
                        reg: Instances, keys: KeyFiles, n: Net)
    requires Inv(db) && i in db.instances && PeerOn(db, i, p)
    requires Candidate(db, PeerRekey(p.id, key, psk)) == Some(next)
    requires ValidRegistry(reg) && Agrees(reg, keys, next, n)
    ensures KeyOffHost(next, n, p.key) && KeyOnLink(n, i, key, psk)
  {
    ChangeKeepsInv(db, PeerRekey(p.id, key, psk), next);
    ReplacedKeyIsGone(db, p, key, psk, next);
    RekeyedRow(db, i, p, key, psk, next);
    GoneKeyIsOffHost(next, reg, keys, n, p.key);
    RowIsServed(next, i, PeerRow(p.id, p.siteId, p.gateway, key, Some(psk), p.ip), psk, reg, keys, n);
  }

  lemma RowIsServed(db: Db, i: InstanceRow, p: PeerRow, psk: Key, reg: Instances, keys: KeyFiles, n: Net)
    requires Inv(db) && i in db.instances && PeerOn(db, i, p) && p.psk == Some(psk)
    requires ValidRegistry(reg) && Agrees(reg, keys, db, n)
    ensures KeyOnLink(n, i, p.key, psk)
  {
    AgreementServes(db, reg, keys, n, i);
    ServedKey(db, i, p, n, psk);
  }

  lemma ServedKey(db: Db, i: InstanceRow, p: PeerRow, n: Net, psk: Key)
    requires i.record.interface in n.links && Serves(db, i, n.links[i.record.interface].wg.peers)
    requires PeerOn(db, i, p) && p.psk == Some(psk)
    ensures KeyOnLink(n, i, p.key, psk)
  {
    var w :| w in n.links[i.record.interface].wg.peers && ConfiguredFor(db, p, w);
  }

  lemma ReplacedAdminKeyIsGone(db: Db, q: AdminRow, key: Key, psk: Key, next: Db)
    requires Inv(db) && q in db.admins && Candidate(db, AdminRekey(q.id, key, psk)) == Some(next)
    ensures KeyGone(next, q.key)
  {
    RekeyAdminOutcome(db, q.id, key, psk);
  }

  lemma RekeyedAdminRow(db: Db, i: InstanceRow, q: AdminRow, key: Key, psk: Key, next: Db)
    requires Inv(db) && AdminOn(db, i, q) && Candidate(db, AdminRekey(q.id, key, psk)) == Some(next)
    ensures next.instances == db.instances
    ensures AdminOn(next, i, AdminRow(q.id, q.instanceId, key, Some(psk), q.ip))
  {
    RekeyAdminOutcome(db, q.id, key, psk);
    var k :| 0 <= k < |db.admins| && db.admins[k] == q;
    assert next.admins[k] in next.admins;
  }

  lemma RekeyedAdminIsOn(db: Db, i: InstanceRow, q: AdminRow, key: Key, psk: Key, next: Db,
                         reg: Instances, keys: KeyFiles, n: Net)
    requires Inv(db) && i in db.instances && AdminOn(db, i, q)
    requires Candidate(db, AdminRekey(q.id, key, psk)) == Some(next)
    requires ValidRegistry(reg) && Agrees(reg, keys, next, n)
    ensures KeyOffHost(next, n, q.key) && KeyOnLink(n, i, key, psk)
  {
    ChangeKeepsInv(db, AdminRekey(q.id, key, psk), next);
    ReplacedAdminKeyIsGone(db, q, key, psk, next);
    RekeyedAdminRow(db, i, q, key, psk, next);
    GoneKeyIsOffHost(next, reg, keys, n, q.key);
    AdminRowIsServed(next, i, AdminRow(q.id, q.instanceId, key, Some(psk), q.ip), psk, reg, keys, n);
  }

  lemma AdminRowIsServed(db: Db, i: InstanceRow, q: AdminRow, psk: Key, reg: Instances, keys: KeyFiles, n: Net)
    requires Inv(db) && i in db.instances && AdminOn(db, i, q) && q.psk == Some(psk)
    requires ValidRegistry(reg) && Agrees(reg, keys, db, n)
    ensures KeyOnLink(n, i, q.key, psk)
  {
    AgreementServes(db, reg, keys, n, i);
    ServedAdminKey(db, i, q, n, psk);
  }

  lemma ServedAdminKey(db: Db, i: InstanceRow, q: AdminRow, n: Net, psk: Key)
    requires i.record.interface in n.links && Serves(db, i, n.links[i.record.interface].wg.peers)
    requires AdminOn(db, i, q) && q.psk == Some(psk)
    ensures KeyOnLink(n, i, q.key, psk)
  {
    var w :| w in n.links[i.record.interface].wg.peers && ConfiguredForAdmin(q, w);
  }

  // ----- completed requests

  /** Outside a dry run the host agrees with the candidate of a completed request. */
  lemma CompletedAgrees(w: World, e: Served)
    requires Handled(w, e) && e.ok && !w.dryRun
    ensures Candidate(e.before, e.op) == Some(e.after) && Agrees(w.reg, w.keys, e.after, e.b)
  {
    assert e.fate == Carried;
  }

  /** When peer_delete has completed, the host does not know the Peer's key any more. */
  lemma CompletedDelete(w: World, e: Served, p: PeerRow)
    requires Inv(e.before) && ValidRegistry(w.reg) && Handled(w, e) && e.ok && !w.dryRun
    requires p in e.before.peers && e.op == PeerDelete(p.id)
    ensures KeyOffHost(e.after, e.b, p.key)
  {
    CompletedAgrees(w, e);
    DeletedPeerIsOff(e.before, p, e.after, w.reg, w.keys, e.b);
  }

  /** When peer_rekey has completed, it knows the new key instead of the former one. */
  lemma CompletedRekey(w: World, e: Served, i: InstanceRow, p: PeerRow, key: Key, psk: Key)
    requires Inv(e.before) && ValidRegistry(w.reg) && Handled(w, e) && e.ok && !w.dryRun
    requires i in e.before.instances && PeerOn(e.before, i, p) && e.op == PeerRekey(p.id, key, psk)
    ensures KeyOffHost(e.after, e.b, p.key) && KeyOnLink(e.b, i, key, psk)
  {
    CompletedAgrees(w, e);
    RekeyedPeerIsOn(e.before, i, p, key, psk, e.after, w.reg, w.keys, e.b);
  }
}
