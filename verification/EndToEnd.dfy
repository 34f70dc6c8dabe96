// The confinement of Sites stated on the host itself: on the WireGuard configurations of its
// links and the nft table it has loaded.

module EndToEnd {
  import opened Seqs
  import opened Ipv4
  import opened Records
  import opened Registry
  import opened Payload
  import opened Nftables
  import opened Host
  import opened SyncSpec
  import opened Database
  import opened PortalInvariant
  import opened Acceptance
  import opened PortalRuns
  import opened Confinement
  import opened Hub
  import opened Portal
  import opened Rerun

  /** A configured WireGuard Peer of a device that owns an address. */
  predicate Carries(n: Net, d: Device, w: WgPeer, a: int) {
    d in n.links && w in n.links[d].wg.peers && Covers(w.allowedIps, a)
  }

  /** What agreement means for the host: it carries a state that represents the database. */
  lemma CarriedState(db: Db, reg: Instances, keys: KeyFiles, n: Net) returns (s: State)
    requires Inv(db) && MatchesRegistry(db, reg) && Agrees(reg, keys, db, n)
    ensures Represents(s, db) && Realizes(s, keys, n)
  {
    StateOfDesired(db, reg);
    s := CommittedState(db);
  }

  /** The Peer behind a configured WireGuard Peer. */
  lemma ConfiguredPeer(x: Instance, keys: KeyFiles, n: Net, w: WgPeer) returns (p: Peer)
    requires x.enabled && RealizesTrunk(x, keys, n) && w in n.links[x.Dev()].wg.peers
    ensures p in x.peers && p.publicKey == w.publicKey && p.allowedIps == w.allowedIps
  {
    var j :| 0 <= j < |x.peers| && WgPeers(x.peers)[j] == w;
    p := x.peers[j];
  }

  predicate FromSiteRow(db: Db, p: Peer) {
    exists q :: q in db.peers && q.key == p.publicKey && p.kind == SitePeer(q.siteId)
  }

  predicate FromAdminRow(db: Db, i: InstanceRow, p: Peer) {
    p.kind.AdminPeer? && exists q :: q in db.admins && q.key == p.publicKey && q.instanceId == i.id
  }

  lemma PeerOrigin(db: Db, i: InstanceRow, p: Peer)
    requires p in TrunkState(db, i).peers
    ensures FromSiteRow(db, p) || FromAdminRow(db, i, p)
  {
    if p in PeerEntries(db, PeersOf(db, i.id)) {
      SiteEntryOrigin(db, PeersOf(db, i.id), p);
    } else {
      AdminEntryOrigin(db, i, p);
    }
  }

  lemma SiteEntryOrigin(db: Db, rows: seq<PeerRow>, p: Peer)
    requires p in PeerEntries(db, rows) && forall q :: q in rows ==> q in db.peers
    ensures FromSiteRow(db, p)
  {
    var k :| 0 <= k < |rows| && PeerEntries(db, rows)[k] == p;
    assert rows[k] in rows && p == PeerEntry(db, rows[k]);
  }

  lemma AdminEntryOrigin(db: Db, i: InstanceRow, p: Peer)
    requires p in AdminEntries(AdminsOf(db, i.id))
    ensures FromAdminRow(db, i, p)
  {
    var rows := AdminsOf(db, i.id);
    var k :| 0 <= k < |rows| && AdminEntries(rows)[k] == p;
    assert rows[k] in rows && p == AdminEntry(rows[k]);
  }

  /** The key belongs to a Peer of this Site, or, on established traffic, to an Admin Peer of this
      trunk. */
  predicate ReachesKey(db: Db, i: InstanceRow, siteId: int, key: Key, established: bool) {
    || (exists q :: q in db.peers && q.key == key && q.siteId == siteId)
    || (established && exists q :: q in db.admins && q.key == key && q.instanceId == i.id)
  }

  /** The Peer entry that bears a row's key is that row's entry. */
  lemma PeerByKey(db: Db, i: InstanceRow, row: PeerRow, p: Peer)
    requires Inv(db) && row in db.peers && p in TrunkState(db, i).peers && p.publicKey == row.key
    ensures p.kind == SitePeer(row.siteId)
  {
    PeerOrigin(db, i, p);
  }

  lemma AdminByKey(db: Db, i: InstanceRow, row: AdminRow, p: Peer)
    requires Inv(db) && row in db.admins && p in TrunkState(db, i).peers && p.publicKey == row.key
    ensures p.kind.AdminPeer?
  {
    PeerOrigin(db, i, p);
  }

  lemma KindReaches(db: Db, i: InstanceRow, siteId: int, q: Peer, established: bool)
    requires Inv(db) && q in TrunkState(db, i).peers
    ensures MayReach(SitePeer(siteId), q.kind, established) <==> ReachesKey(db, i, siteId, q.publicKey, established)
  {
    if MayReach(SitePeer(siteId), q.kind, established) {
      PeerOrigin(db, i, q);
    }
    if exists r :: r in db.peers && r.key == q.publicKey && r.siteId == siteId {
      var r :| r in db.peers && r.key == q.publicKey && r.siteId == siteId;
      PeerByKey(db, i, r, q);
    }
    if exists r :: r in db.admins && r.key == q.publicKey {
      var r :| r in db.admins && r.key == q.publicKey;
      AdminByKey(db, i, r, q);
    }
  }

  /** On a host that carries the database: a packet that a trunk takes from a Peer of a Site and
      that has an owner at the other side is accepted by the loaded table exactly when it leaves
      through the same trunk, and its owner there belongs to the same Site, or is an Admin Peer
      of that trunk and the traffic is established. */
  lemma HostConfinesSites(db: Db, s: State, keys: KeyFiles, n: Net, i: InstanceRow,
                          row: PeerRow, from: WgPeer, to: WgPeer, pkt: Packet)
    requires Inv(db) && Represents(s, db) && Realizes(s, keys, n)
    requires i in db.instances && pkt.iif == i.record.interface && Carries(n, pkt.iif, from, pkt.saddr)
    requires row in db.peers && from.publicKey == row.key && Carries(n, pkt.oif, to, pkt.daddr)
    ensures n.nft.Some?
    ensures ForwardVerdict(n.nft.value, pkt) == Accept <==>
            pkt.oif == pkt.iif && ReachesKey(db, i, row.siteId, to.publicKey, pkt.established)
  {
    var x := TrunkState(db, i);
    TrunkInState(db, s, i);
    AcceptedIsPermitted(db, s, x, pkt);
    if pkt.oif == pkt.iif {
      var p := ConfiguredPeer(x, keys, n, from);
      PeerByKey(db, i, row, p);
      var q := ConfiguredPeer(x, keys, n, to);
      PermittedExact(db, i, p, q, pkt);
      KindReaches(db, i, row.siteId, q, pkt.established);
    }
  }

  /** A packet of an Admin Peer is accepted exactly when its owner is a Site Peer of that trunk. */
  lemma HostAdminsReachSites(db: Db, s: State, keys: KeyFiles, n: Net, i: InstanceRow,
                             row: AdminRow, from: WgPeer, to: WgPeer, pkt: Packet)
    requires Inv(db) && Represents(s, db) && Realizes(s, keys, n)
    requires i in db.instances && pkt.iif == i.record.interface && Carries(n, pkt.iif, from, pkt.saddr)
    requires row in db.admins && from.publicKey == row.key && Carries(n, pkt.oif, to, pkt.daddr)
    ensures n.nft.Some?
    ensures ForwardVerdict(n.nft.value, pkt) == Accept <==>
            pkt.oif == pkt.iif && exists q :: q in db.peers && q.key == to.publicKey
  {
    var x := TrunkState(db, i);
    TrunkInState(db, s, i);
    AcceptedIsPermitted(db, s, x, pkt);
    if pkt.oif == pkt.iif {
      var p := ConfiguredPeer(x, keys, n, from);
      AdminByKey(db, i, row, p);
      var q := ConfiguredPeer(x, keys, n, to);
      PermittedExact(db, i, p, q, pkt);
      SiteKindKey(db, i, q);
    }
  }

  lemma SiteKindKey(db: Db, i: InstanceRow, q: Peer)
    requires Inv(db) && q in TrunkState(db, i).peers
    ensures q.kind.SitePeer? <==> exists r :: r in db.peers && r.key == q.publicKey
  {
    PeerOrigin(db, i, q);
    if exists r :: r in db.peers && r.key == q.publicKey {
      var r :| r in db.peers && r.key == q.publicKey;
      PeerByKey(db, i, r, q);
    }
  }

  /** Nothing crosses between a trunk and any other device. */
  lemma HostKeepsTrunksApart(db: Db, s: State, keys: KeyFiles, n: Net, i: InstanceRow, pkt: Packet)
    requires Inv(db) && Represents(s, db) && Realizes(s, keys, n) && i in db.instances
    requires (pkt.iif == i.record.interface || pkt.oif == i.record.interface) && pkt.iif != pkt.oif
    ensures n.nft.Some? && ForwardVerdict(n.nft.value, pkt) == Drop
  {
    TrunkInState(db, s, i);
    AcceptedIsPermitted(db, s, TrunkState(db, i), pkt);
  }

  /** A packet that the trunk takes from this Site's Peer, with an owner at the other side. */
  predicate SiteTraffic(db: Db, n: Net, i: InstanceRow, row: PeerRow, from: WgPeer, to: WgPeer, pkt: Packet) {
    && i in db.instances && row in db.peers && from.publicKey == row.key
    && pkt.iif == i.record.interface
    && Carries(n, pkt.iif, from, pkt.saddr) && Carries(n, pkt.oif, to, pkt.daddr)
  }

  /** A packet between the trunk and another device. */
  predicate Crosses(db: Db, i: InstanceRow, pkt: Packet) {
    i in db.instances && pkt.iif != pkt.oif && (pkt.iif == i.record.interface || pkt.oif == i.record.interface)
  }

  /** A packet that the trunk takes from a configured Peer. */
  predicate Enters(db: Db, n: Net, i: InstanceRow, from: WgPeer, pkt: Packet) {
    i in db.instances && pkt.iif == i.record.interface && Carries(n, pkt.iif, from, pkt.saddr)
  }

  /** The key belongs to an Admin Peer of this trunk. */
  predicate AdminKey(db: Db, i: InstanceRow, key: Key) {
    exists q :: q in db.admins && q.key == key && q.instanceId == i.id
  }

  predicate SiteKey(db: Db, key: Key) {
    exists q :: q in db.peers && q.key == key
  }

  lemma AdminKindKey(db: Db, i: InstanceRow, q: Peer)
    requires Inv(db) && q in TrunkState(db, i).peers
    ensures q.kind.AdminPeer? <==> AdminKey(db, i, q.publicKey)
  {
    PeerOrigin(db, i, q);
    if AdminKey(db, i, q.publicKey) {
      var r :| r in db.admins && r.key == q.publicKey && r.instanceId == i.id;
      AdminByKey(db, i, r, q);
    }
  }

  /** A Peer's packet reaches the host itself exactly when the Peer is an Admin Peer of the trunk. */
  lemma HostReachedByAdmins(db: Db, s: State, keys: KeyFiles, n: Net, i: InstanceRow, from: WgPeer, pkt: Packet)
    requires Inv(db) && Represents(s, db) && Realizes(s, keys, n) && Enters(db, n, i, from, pkt)
    ensures n.nft.Some?
    ensures InputVerdict(n.nft.value, pkt) == Accept <==> AdminKey(db, i, from.publicKey)
  {
    var x := TrunkState(db, i);
    TrunkInState(db, s, i);
    var p := ConfiguredPeer(x, keys, n, from);
    HubReachExact(db, s, x, p, pkt);
    AdminKindKey(db, i, p);
  }

  /** What the host does to the traffic of this database's Peers: Sites, Admins, anything between
      a trunk and another device, and the host itself. */
  ghost predicate Isolates(db: Db, n: Net) {
    && n.nft.Some?
    && (forall i, row, from, to, pkt :: SiteTraffic(db, n, i, row, from, to, pkt) ==>
          (ForwardVerdict(n.nft.value, pkt) == Accept <==>
           pkt.oif == pkt.iif && ReachesKey(db, i, row.siteId, to.publicKey, pkt.established)))
    && (forall i, from, to, pkt ::
          Enters(db, n, i, from, pkt) && AdminKey(db, i, from.publicKey) && Carries(n, pkt.oif, to, pkt.daddr) ==>
            (ForwardVerdict(n.nft.value, pkt) == Accept <==> pkt.oif == pkt.iif && SiteKey(db, to.publicKey)))
    && (forall i, pkt :: Crosses(db, i, pkt) ==> ForwardVerdict(n.nft.value, pkt) == Drop)
    && (forall i, from, pkt :: Enters(db, n, i, from, pkt) ==>
          (InputVerdict(n.nft.value, pkt) == Accept <==> AdminKey(db, i, from.publicKey)))
  }

  /** Every host that agrees with a planned database isolates its Sites. */
  lemma AgreementIsolates(db: Db, reg: Instances, keys: KeyFiles, n: Net)
    requires Inv(db) && ValidRegistry(reg) && Agrees(reg, keys, db, n)
    ensures Isolates(db, n)
  {
    AcceptedMatches(db, reg);
    var s := CarriedState(db, reg, keys, n);
    CarriedIsolates(db, s, keys, n);
  }

  lemma CarriedIsolates(db: Db, s: State, keys: KeyFiles, n: Net)
    requires Inv(db) && Represents(s, db) && Realizes(s, keys, n)
    ensures Isolates(db, n)
  {
    forall i, row, from, to, pkt | SiteTraffic(db, n, i, row, from, to, pkt)
      ensures ForwardVerdict(n.nft.value, pkt) == Accept <==>
              pkt.oif == pkt.iif && ReachesKey(db, i, row.siteId, to.publicKey, pkt.established)
    {
      HostConfinesSites(db, s, keys, n, i, row, from, to, pkt);
    }
    forall i, from, to, pkt
      | Enters(db, n, i, from, pkt) && AdminKey(db, i, from.publicKey) && Carries(n, pkt.oif, to, pkt.daddr)
      ensures ForwardVerdict(n.nft.value, pkt) == Accept <==> pkt.oif == pkt.iif && SiteKey(db, to.publicKey)
    {
      var row :| row in db.admins && row.key == from.publicKey && row.instanceId == i.id;
      HostAdminsReachSites(db, s, keys, n, i, row, from, to, pkt);
    }
    forall i, pkt | Crosses(db, i, pkt) ensures ForwardVerdict(n.nft.value, pkt) == Drop {
      HostKeepsTrunksApart(db, s, keys, n, i, pkt);
    }
    forall i, from, pkt | Enters(db, n, i, from, pkt)
      ensures InputVerdict(n.nft.value, pkt) == Accept <==> AdminKey(db, i, from.publicKey)
    {
      HostReachedByAdmins(db, s, keys, n, i, from, pkt);
    }
  }

  // ----- a host under a run of operations

  lemma RunOneMore(db: Db, events: seq<Event>, e: Event)
    ensures RunAll(db, events + [e]) == Step(RunAll(db, events), e)
  {
    assert (events + [e])[..|events|] == events;
  }

  /** One request that was handled: the committed database and the host before and after it. */
  datatype Served = Served(op: Op, mishap: Mishap, before: Db, after: Db, a: Net, b: Net, ok: bool, fate: Fate)

  /** What a handler promises of one request. */
  ghost predicate Handled(w: World, e: Served) {
    && !e.op.InstanceNew?
    && (Candidate(e.before, e.op).None? ==>
          && !e.ok && e.after == e.before
          && if FailsInTry(e.before, e.op)
             then CommitOutcome(w, FlushFails, e.before, e.before, e.a, e.b, false, e.fate)
             else e.b == e.a && e.fate.Undisturbed?)
    && (Candidate(e.before, e.op).Some? ==>
          var candidate := Candidate(e.before, e.op).value;
          && e.after == (if e.ok then candidate else e.before)
          && CommitOutcome(w, e.mishap, e.before, candidate, e.a, e.b, e.ok, e.fate))
  }

  /** Requests handled one after the other, from one database and host to another. */
  ghost predicate Trace(w: World, db: Db, n: Net, es: seq<Served>, endDb: Db, endNet: Net) {
    if es == [] then endDb == db && endNet == n
    else
      var e := es[|es| - 1];
      && Trace(w, db, n, es[..|es| - 1], e.before, e.a)
      && Handled(w, e) && endDb == e.after && endNet == e.b
  }

  lemma TraceOneMore(w: World, db: Db, n: Net, es: seq<Served>, e: Served)
    requires Trace(w, db, n, es, e.before, e.a) && Handled(w, e)
    ensures Trace(w, db, n, es + [e], e.after, e.b)
  {
    assert (es + [e])[..|es|] == es;
  }

  function Ops(es: seq<Served>): (ops: seq<Op>)
    ensures |ops| == |es| && forall k :: 0 <= k < |es| ==> ops[k] == es[k].op
  {
    seq(|es|, k requires 0 <= k < |es| => es[k].op)
  }

  function Events(reg: Instances, es: seq<Served>): (events: seq<Event>)
    ensures |events| == |es| && forall k :: 0 <= k < |es| ==> events[k] == Event(es[k].op, reg, es[k].ok)
  {
    seq(|es|, k requires 0 <= k < |es| => Event(es[k].op, reg, es[k].ok))
  }

  lemma LastEvent(reg: Instances, es: seq<Served>)
    requires es != []
    ensures Events(reg, es) == Events(reg, es[..|es| - 1]) + [Event(es[|es| - 1].op, reg, es[|es| - 1].ok)]
  {
  }

  lemma HandledKeepsInv(w: World, e: Served)
    requires Handled(w, e) && Inv(e.before)
    ensures Inv(e.after) && e.after == Step(e.before, Event(e.op, w.reg, e.ok))
    ensures SameOutside(w.reg.Keys, e.a, e.b)
  {
    if Candidate(e.before, e.op).Some? {
      SubmittedIsStep(w, e.mishap, e.before, e.op, e.a, e.b, e.ok, e.fate);
    }
  }

  /** The committed database of a trace is that of a run of the portal; nothing outside the
      registered devices changes. */
  lemma {:induction false} TraceIsRun(w: World, db: Db, n: Net, es: seq<Served>, endDb: Db, endNet: Net)
    requires Trace(w, db, n, es, endDb, endNet) && Inv(db)
    ensures Inv(endDb) && endDb == RunAll(db, Events(w.reg, es)) && SameOutside(w.reg.Keys, n, endNet)
  {
    if es == [] {
    } else {
      var front, e := es[..|es| - 1], es[|es| - 1];
      TraceIsRun(w, db, n, front, e.before, e.a);
      HandledKeepsInv(w, e);
      LastEvent(w.reg, es);
      RunOneMore(db, Events(w.reg, front), Event(e.op, w.reg, e.ok));
    }
  }

  // ----- what the host carries

  /** The request left the host with its candidate, which is not committed. */
  predicate LeftStale(e: Served, committed: Db, carried: Db) {
    && e.fate.Stale? && (e.mishap.ReplyLost? || e.mishap.CommitFails?)
    && e.before == committed && Candidate(committed, e.op) == Some(carried)
  }

  /** The database that the host carries is the committed one, or the candidate of a request whose
      reply was lost or whose commit failed, and whose restoring reconcile failed. */
  predicate Near(committed: Db, es: seq<Served>, carried: Db) {
    carried == committed || exists e :: e in es && LeftStale(e, committed, carried)
  }

  predicate Follows(reg: Instances, keys: KeyFiles, committed: Db, es: seq<Served>, carried: Db, n: Net) {
    Near(committed, es, carried) && Agrees(reg, keys, carried, n)
  }

  lemma NearWithMore(committed: Db, es: seq<Served>, e: Served, carried: Db)
    requires Near(committed, es, carried)
    ensures Near(committed, es + [e], carried)
  {
    if carried != committed {
      var o :| o in es && LeftStale(o, committed, carried);
      assert o in es + [e];
    }
  }

  lemma CarriedIsPlanned(reg: Instances, keys: KeyFiles, committed: Db, es: seq<Served>, carried: Db, n: Net)
    requires Inv(committed) && Follows(reg, keys, committed, es, carried, n)
    ensures Inv(carried)
  {
    if carried != committed {
      var e :| e in es && LeftStale(e, committed, carried);
      AcceptedWasClear(committed, e.op, reg);
      CandidateKeepsInv(committed, e.op);
    }
  }

  /** The database that the host carries after a request. */
  function CarriedAfter(e: Served, carried: Db): Db {
    match e.fate
    case Undisturbed => carried
    case Carried => e.after
    case Stale => if Candidate(e.before, e.op).Some? then Candidate(e.before, e.op).value else carried
  }

  /** The database that the host carries after a trace, if it carried `db` before it. */
  function CarriedBy(db: Db, es: seq<Served>): Db {
    if es == [] then db else CarriedAfter(es[|es| - 1], CarriedBy(db, es[..|es| - 1]))
  }

  lemma SubmittedFollows(w: World, e: Served, es: seq<Served>, carried: Db)
    requires Handled(w, e) && !w.dryRun && Follows(w.reg, w.keys, e.before, es, carried, e.a)
    requires Candidate(e.before, e.op).Some?
    ensures Follows(w.reg, w.keys, e.after, es + [e], CarriedAfter(e, carried), e.b)
  {
    assert e in es + [e];
    match e.fate
    case Undisturbed =>
      assert KeepsAgreements(w.reg, w.keys, e.a, e.b);
      NearWithMore(e.before, es, e, carried);
    case Carried =>
    case Stale =>
      assert LeftStale(e, e.after, CarriedAfter(e, carried));
  }

  lemma RefusedFollows(w: World, e: Served, es: seq<Served>, carried: Db)
    requires Handled(w, e) && !w.dryRun && Follows(w.reg, w.keys, e.before, es, carried, e.a)
    requires Candidate(e.before, e.op).None?
    ensures Follows(w.reg, w.keys, e.after, es + [e], CarriedAfter(e, carried), e.b)
  {
    NearWithMore(e.before, es, e, carried);
    if FailsInTry(e.before, e.op) {
      AbandonedAgrees(w, e.before, carried, e.a, e.b, e.fate);
    }
  }

  lemma AbandonedAgrees(w: World, before: Db, carried: Db, a: Net, b: Net, fate: Fate)
    requires CommitOutcome(w, FlushFails, before, before, a, b, false, fate) && Agrees(w.reg, w.keys, carried, a)
    ensures !fate.Stale? && Agrees(w.reg, w.keys, if fate.Carried? then before else carried, b)
  {
    if fate.Undisturbed? {
      assert KeepsAgreements(w.reg, w.keys, a, b);
    }
  }

  lemma HandledFollows(w: World, e: Served, es: seq<Served>, carried: Db)
    requires Handled(w, e) && !w.dryRun && Follows(w.reg, w.keys, e.before, es, carried, e.a)
    ensures Follows(w.reg, w.keys, e.after, es + [e], CarriedAfter(e, carried), e.b)
  {
    if Candidate(e.before, e.op).Some? {
      SubmittedFollows(w, e, es, carried);
    } else {
      RefusedFollows(w, e, es, carried);
    }
  }

  lemma LastServed(es: seq<Served>)
    requires es != []
    ensures es == es[..|es| - 1] + [es[|es| - 1]]
  {
  }

  /** After any run the host carries the committed database, or the candidate of a request whose
      reply was lost or whose commit failed, and whose restoring reconcile failed. */
  lemma {:induction false} TraceFollows(w: World, db: Db, n: Net, es: seq<Served>, endDb: Db, endNet: Net)
    requires Trace(w, db, n, es, endDb, endNet) && !w.dryRun && Agrees(w.reg, w.keys, db, n)
    ensures Follows(w.reg, w.keys, endDb, es, CarriedBy(db, es), endNet)
  {
    if es == [] {
    } else {
      var front, e := es[..|es| - 1], es[|es| - 1];
      TraceFollows(w, db, n, front, e.before, e.a);
      HandledFollows(w, e, front, CarriedBy(db, front));
      LastServed(es);
    }
  }

  /** No reply is lost and no commit fails. */
  predicate Unharmed(es: seq<Served>) {
    forall e :: e in es ==> e.mishap.NoMishap? || e.mishap.FlushFails?
  }

  /** Then the host carries the committed database after every run, whatever commands fail. */
  lemma TraceAgrees(w: World, db: Db, n: Net, es: seq<Served>, endDb: Db, endNet: Net)
    requires Trace(w, db, n, es, endDb, endNet) && !w.dryRun && Agrees(w.reg, w.keys, db, n) && Unharmed(es)
    ensures Agrees(w.reg, w.keys, endDb, endNet)
  {
    TraceFollows(w, db, n, es, endDb, endNet);
    assert !exists e :: e in es && LeftStale(e, endDb, CarriedBy(db, es));
  }

  /** What an operation leaves synchronizable; and where commands work the committed database is
      what the host carries. */
  lemma OutcomeFits(w: World, mishap: Mishap, before: Db, candidate: Db, a: Net, b: Net, ok: bool, fate: Fate)
    requires Repeatable(w.reg, a) && Fits(w.reg, w.keys, before, a)
    requires CommitOutcome(w, mishap, before, candidate, a, b, ok, fate)
    ensures Repeatable(w.reg, b) && Fits(w.reg, w.keys, if ok then candidate else before, b)
    ensures w.benign && !w.dryRun ==> Agrees(w.reg, w.keys, if ok then candidate else before, b)
  {
    assert KeepsFits(w.reg, w.keys, a, b);
    assert ok ==> Fits(w.reg, w.keys, candidate, a);
  }

  lemma HandledFits(w: World, e: Served)
    requires Handled(w, e) && Repeatable(w.reg, e.a) && Fits(w.reg, w.keys, e.before, e.a)
    ensures Repeatable(w.reg, e.b) && Fits(w.reg, w.keys, e.after, e.b)
    ensures w.benign && !w.dryRun && Agrees(w.reg, w.keys, e.before, e.a) ==> Agrees(w.reg, w.keys, e.after, e.b)
  {
    if Candidate(e.before, e.op).Some? {
      OutcomeFits(w, e.mishap, e.before, Candidate(e.before, e.op).value, e.a, e.b, e.ok, e.fate);
    } else if FailsInTry(e.before, e.op) {
      OutcomeFits(w, FlushFails, e.before, e.before, e.a, e.b, false, e.fate);
    }
  }

  /** Where the first database could be synchronized every later one can; and where commands work
      the host carries the committed one, whatever mishaps occur. */
  lemma {:induction false} TraceFits(w: World, db: Db, n: Net, es: seq<Served>, endDb: Db, endNet: Net)
    requires Trace(w, db, n, es, endDb, endNet) && Repeatable(w.reg, n) && Fits(w.reg, w.keys, db, n)
    ensures Repeatable(w.reg, endNet) && Fits(w.reg, w.keys, endDb, endNet)
    ensures w.benign && !w.dryRun && Agrees(w.reg, w.keys, db, n) ==> Agrees(w.reg, w.keys, endDb, endNet)
  {
    if es == [] {
    } else {
      var front, e := es[..|es| - 1], es[|es| - 1];
      TraceFits(w, db, n, front, e.before, e.a);
      HandledFits(w, e);
    }
  }

  /** Whatever commands fail and whatever mishaps occur, the host isolates the Sites of the database
      it carries; and of the committed one, unless a reply is lost or a commit fails. */
  lemma RunIsolates(w: World, db: Db, n: Net, es: seq<Served>, endDb: Db, endNet: Net)
    requires ValidRegistry(w.reg) && Inv(db) && !w.dryRun && Agrees(w.reg, w.keys, db, n)
    requires Trace(w, db, n, es, endDb, endNet)
    ensures Near(endDb, es, CarriedBy(db, es)) && Isolates(CarriedBy(db, es), endNet)
    ensures Unharmed(es) ==> Isolates(endDb, endNet)
    ensures w.benign && Repeatable(w.reg, n) && Fits(w.reg, w.keys, db, n) ==> Isolates(endDb, endNet)
  {
    var carried := CarriedBy(db, es);
    TraceIsRun(w, db, n, es, endDb, endNet);
    TraceFollows(w, db, n, es, endDb, endNet);
    CarriedIsPlanned(w.reg, w.keys, endDb, es, carried, endNet);
    AgreementIsolates(carried, w.reg, w.keys, endNet);
    if Unharmed(es) {
      TraceAgrees(w, db, n, es, endDb, endNet);
      AgreementIsolates(endDb, w.reg, w.keys, endNet);
    }
    if w.benign && Repeatable(w.reg, n) && Fits(w.reg, w.keys, db, n) {
      TraceFits(w, db, n, es, endDb, endNet);
      AgreementIsolates(endDb, w.reg, w.keys, endNet);
    }
  }

  /** One request. */
  method ServeOne(hub: Session, op: Op) returns (ghost e: Served)
    requires hub.Ready() && hub.session == hub.committed && Inv(hub.committed) && !op.InstanceNew?
    modifies hub`session, hub`committed, hub`count, hub.kernel
    ensures hub.Ready() && hub.session == hub.committed
    ensures e.op == op && e.before == old(hub.committed) && e.a == old(hub.kernel.net)
    ensures e.after == hub.committed && e.b == hub.kernel.net
    ensures Handled(hub.Surroundings(), e)
  {
    ghost var mishap, before, start := hub.mishaps(hub.count), hub.committed, hub.kernel.net;
    var ok, fate := hub.Handle(op);
    e := Served(op, mishap, before, hub.committed, start, hub.kernel.net, ok, fate);
  }

  /** The portal serving requests one after the other. */
  method Serve(hub: Session, ops: seq<Op>) returns (ghost es: seq<Served>)
    requires hub.Ready() && hub.session == hub.committed && Inv(hub.committed)
    requires forall op :: op in ops ==> !op.InstanceNew?
    modifies hub`session, hub`committed, hub`count, hub.kernel
    ensures hub.Ready() && hub.session == hub.committed && Ops(es) == ops
    ensures Trace(hub.Surroundings(), old(hub.committed), old(hub.kernel.net), es, hub.committed, hub.kernel.net)
  {
    es := [];
    ghost var w, db, n := hub.Surroundings(), hub.committed, hub.kernel.net;
    for k := 0 to |ops|
      invariant hub.Ready() && hub.session == hub.committed
      invariant Ops(es) == ops[..k] && Trace(w, db, n, es, hub.committed, hub.kernel.net)
    {
      TraceIsRun(w, db, n, es, hub.committed, hub.kernel.net);
      ghost var e := ServeOne(hub, ops[k]);
      TraceOneMore(w, db, n, es, e);
      OpsOneMore(es, e, ops, k);
      es := es + [e];
    }
  }

  lemma OpsOneMore(es: seq<Served>, e: Served, ops: seq<Op>, k: nat)
    requires k < |ops| && Ops(es) == ops[..k] && e.op == ops[k]
    ensures Ops(es + [e]) == ops[..k + 1]
  {
  }
}
