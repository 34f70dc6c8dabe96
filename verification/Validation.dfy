// The payload that the portal sends to the controller, and validate_state of
// controller/vpnhub-controller.py, which checks it against the registry.

module Payload {
  import opened Seqs
  import opened Ipv4
  import opened Records

  datatype PeerKind = SitePeer(siteId: int) | AdminPeer

  datatype RawPeer = RawPeer(kind: PeerKind, publicKey: Key, psk: Option<Key>, allowedIps: seq<Text>)

  datatype RawSite = RawSite(id: int, ranges: seq<Text>)

  datatype RawInstance = RawInstance(
    id: int, enabled: bool, interface: Device, listenPort: int, vpnPool: Text, serverAddress: Text,
    keyPath: KeyPath, serverKey: Key, routeProtocol: int,
    peers: seq<RawPeer>, sites: seq<RawSite>, adminAddresses: seq<Text>, routes: seq<Text>)

  datatype Peer = Peer(kind: PeerKind, publicKey: Key, psk: Option<Key>, allowedIps: seq<Network>)

  datatype Site = Site(id: int, ranges: seq<Network>)

  /** A trunk of a validated state. */
  datatype Instance = Instance(
    id: int, enabled: bool, record: Record,
    peers: seq<Peer>, sites: seq<Site>, adminAddresses: seq<Network>, routes: seq<Network>)
  {
    function Dev(): Device {
      record.interface
    }
  }

  type State = seq<Instance>

  predicate DistinctDevices(s: State) {
    forall i, j :: 0 <= i < j < |s| ==> s[i].Dev() != s[j].Dev()
  }

  lemma DeviceUnique(s: State, x: Instance, y: Instance)
    requires DistinctDevices(s) && x in s && y in s && x.Dev() == y.Dev()
    ensures x == y
  {
    var i :| 0 <= i < |s| && s[i] == x;
    var j :| 0 <= j < |s| && s[j] == y;
  }
}

module Validation {
  import opened Seqs
  import opened Ipv4
  import opened Records
  import opened Registry
  import opened Payload

  datatype Failure =
    | Malformed | InvalidKey | Unregistered | Diverges | DuplicateKey | ConflictingAllowedIp
    | NotWholeRegistry | PoolsOverlap | NetworksOverlap | NetworkMeetsPool

  // ----- normalization of one trunk

  predicate AllParse(texts: seq<Text>) {
    forall t :: t in texts ==> Parses(t)
  }

  /** _normalize_networks on texts that parse. */
  function Networks(texts: seq<Text>): (s: seq<Network>)
    requires AllParse(texts)
    ensures |s| == |texts|
    ensures forall p :: p in s ==> p.Valid()
  {
    seq(|texts|, i requires 0 <= i < |texts| => ParseNetwork(texts[i]))
  }

  predicate PeerParses(p: RawPeer) {
    && ValidKey(p.publicKey)
    && (p.psk.Some? ==> ValidKey(p.psk.value))
    && AllParse(p.allowedIps)
  }

  function ToPeer(p: RawPeer): Peer
    requires PeerParses(p)
  {
    Peer(p.kind, p.publicKey, p.psk, Networks(p.allowedIps))
  }

  function ToPeers(s: seq<RawPeer>): (r: seq<Peer>)
    requires forall p :: p in s ==> PeerParses(p)
  {
    seq(|s|, i requires 0 <= i < |s| => ToPeer(s[i]))
  }

  function ToSites(s: seq<RawSite>): (r: seq<Site>)
    requires forall x :: x in s ==> AllParse(x.ranges)
  {
    seq(|s|, i requires 0 <= i < |s| => Site(s[i].id, Networks(s[i].ranges)))
  }

  /** The trunk identifies itself exactly as the registry has it. */
  predicate Authorized(reg: Instances, raw: RawInstance) {
    && raw.interface in reg
    && Parses(raw.vpnPool) && Parses(raw.serverAddress)
    && reg[raw.interface] == Record(raw.interface, raw.listenPort, ParseNetwork(raw.vpnPool),
         ParseInterface(raw.serverAddress), raw.keyPath, raw.serverKey, raw.routeProtocol)
  }

  predicate ListsParse(raw: RawInstance) {
    && (forall p :: p in raw.peers ==> PeerParses(p))
    && (forall x :: x in raw.sites ==> AllParse(x.ranges))
    && AllParse(raw.adminAddresses)
    && AllParse(raw.routes)
  }

  predicate AllowedDisjoint(p: Peer, q: Peer) {
    forall a, b :: a in p.allowedIps && b in q.allowedIps ==> !Overlaps(a, b)
  }

  /** No two Peers share a key or an address. */
  predicate PeersSeparate(peers: seq<Peer>) {
    forall i, j :: 0 <= i < j < |peers| ==>
      peers[i].publicKey != peers[j].publicKey && AllowedDisjoint(peers[i], peers[j])
  }

  predicate TrunkOk(reg: Instances, raw: RawInstance) {
    Authorized(reg, raw) && ListsParse(raw) && PeersSeparate(ToPeers(raw.peers))
  }

  function ToInstance(reg: Instances, raw: RawInstance): (inst: Instance)
    requires TrunkOk(reg, raw)
  {
    Instance(raw.id, raw.enabled, reg[raw.interface], ToPeers(raw.peers), ToSites(raw.sites),
             Networks(raw.adminAddresses), Dedup(Networks(raw.routes)))
  }

  // ----- the loops over Peers

  type Owner = (Network, Key)

  function PairsOf(p: Peer): (r: seq<Owner>)
    ensures forall o :: o in r <==> o.1 == p.publicKey && o.0 in p.allowedIps
  {
    var r := seq(|p.allowedIps|, i requires 0 <= i < |p.allowedIps| => (p.allowedIps[i], p.publicKey));
    assert forall i :: 0 <= i < |r| ==> r[i] == (p.allowedIps[i], p.publicKey);
    r
  }

  /** The prefix_owners list: every (network, key) pair of the Peers. */
  function Owners(peers: seq<Peer>): (r: seq<Owner>)
    ensures forall o :: o in r <==> exists p :: p in peers && o in PairsOf(p)
  {
    if peers == [] then []
    else
      assert peers == peers[..|peers| - 1] + [peers[|peers| - 1]];
      Owners(peers[..|peers| - 1]) + PairsOf(peers[|peers| - 1])
  }

  predicate KeyIsNew(p: Peer, peers: seq<Peer>) {
    forall q :: q in peers ==> q.publicKey != p.publicKey
  }

  predicate Foreign(a: Network, key: Key, owners: seq<Owner>) {
    forall o :: o in owners && o.1 != key ==> !Overlaps(a, o.0)
  }

  lemma SeparateStep(peers: seq<Peer>, p: Peer)
    ensures PeersSeparate(peers + [p]) <==>
            && PeersSeparate(peers)
            && KeyIsNew(p, peers)
            && forall a :: a in p.allowedIps ==> Foreign(a, p.publicKey, Owners(peers))
  {
    var all := peers + [p];
    if PeersSeparate(all) {
      assert forall i :: 0 <= i < |peers| ==> all[i] == peers[i];
      forall q | q in peers ensures q.publicKey != p.publicKey && AllowedDisjoint(q, p) {
        var i :| 0 <= i < |peers| && peers[i] == q;
        assert all[i].publicKey != all[|peers|].publicKey;
      }
      forall i, j | 0 <= i < j < |peers|
        ensures peers[i].publicKey != peers[j].publicKey && AllowedDisjoint(peers[i], peers[j])
      {
        assert AllowedDisjoint(all[i], all[j]);
      }
      forall a, o | a in p.allowedIps && o in Owners(peers) ensures !Overlaps(a, o.0) {
        var q :| q in peers && o in PairsOf(q);
        OverlapsSymmetric(a, o.0);
      }
    }
    if PeersSeparate(peers) && KeyIsNew(p, peers)
       && forall a :: a in p.allowedIps ==> Foreign(a, p.publicKey, Owners(peers)) {
      forall i | 0 <= i < |peers| ensures AllowedDisjoint(peers[i], p) {
        forall b, a | b in peers[i].allowedIps && a in p.allowedIps ensures !Overlaps(b, a) {
          assert (b, peers[i].publicKey) in PairsOf(peers[i]);
          OverlapsSymmetric(a, b);
        }
      }
    }
  }

  /** Is the network claimed by another Peer? */
  method ClaimedByOther(a: Network, key: Key, owners: seq<Owner>) returns (claimed: bool)
    ensures claimed <==> !Foreign(a, key, owners)
  {
    for i := 0 to |owners|
      invariant forall j :: 0 <= j < i && owners[j].1 != key ==> !Overlaps(a, owners[j].0)
    {
      if owners[i].1 != key && Overlaps(a, owners[i].0) {
        return true;
      }
    }
    return false;
  }

  /** One Peer's prefixes are checked and recorded one after the other. */
  method ClaimAll(peer: Peer, owners: seq<Owner>) returns (ok: bool, claimed: seq<Owner>)
    ensures ok <==> forall a :: a in peer.allowedIps ==> Foreign(a, peer.publicKey, owners)
    ensures ok ==> claimed == owners + PairsOf(peer)
  {
    claimed := owners;
    for k := 0 to |peer.allowedIps|
      invariant claimed == owners + PairsOf(peer)[..k]
      invariant forall j :: 0 <= j < k ==> Foreign(peer.allowedIps[j], peer.publicKey, owners)
    {
      var taken := ClaimedByOther(peer.allowedIps[k], peer.publicKey, claimed);
      assert forall o :: o in PairsOf(peer)[..k] ==> o in PairsOf(peer);
      if taken {
        return false, claimed;
      }
      claimed := claimed + [(peer.allowedIps[k], peer.publicKey)];
    }
    return true, claimed;
  }

  /** The loops over Peers in _normalize_instance. */
  method CheckPeers(peers: seq<Peer>) returns (failure: Option<Failure>)
    ensures failure.None? <==> PeersSeparate(peers)
  {
    var keys: set<Key> := {};
    var owners: seq<Owner> := [];
    for n := 0 to |peers|
      invariant PeersSeparate(peers[..n])
      invariant forall k :: k in keys <==> exists q :: q in peers[..n] && q.publicKey == k
      invariant owners == Owners(peers[..n])
    {
      assert peers[..n + 1] == peers[..n] + [peers[n]];
      SeparateStep(peers[..n], peers[n]);
      SeparateShorter(peers, n + 1);
      if peers[n].publicKey in keys {
        return Some(DuplicateKey);
      }
      keys := keys + {peers[n].publicKey};
      var ok, claimed := ClaimAll(peers[n], owners);
      if !ok {
        return Some(ConflictingAllowedIp);
      }
      owners := claimed;
    }
    assert peers[..|peers|] == peers;
    return None;
  }

  lemma SeparateShorter(peers: seq<Peer>, n: nat)
    requires n <= |peers|
    ensures PeersSeparate(peers) ==> PeersSeparate(peers[..n])
  {
  }

  // ----- the whole payload

  predicate TrunksOk(reg: Instances, raws: seq<RawInstance>) {
    forall r :: r in raws ==> TrunkOk(reg, r)
  }

  function ToInstances(reg: Instances, raws: seq<RawInstance>): (s: State)
    requires TrunksOk(reg, raws)
    ensures |s| == |raws|
    ensures forall i {:trigger s[i]} :: 0 <= i < |raws| ==> raws[i] in raws && s[i] == ToInstance(reg, raws[i])
  {
    seq(|raws|, i requires 0 <= i < |raws| => ToInstance(reg, raws[i]))
  }

  function Pools(s: State): (r: seq<Network>)
    ensures |r| == |s|
    ensures forall i {:trigger r[i]} :: 0 <= i < |s| ==> r[i] == s[i].record.vpnPool
  {
    seq(|s|, i requires 0 <= i < |s| => s[i].record.vpnPool)
  }

  /** The routes of all trunks, one trunk after the other. */
  function AllRoutes(s: State): (r: seq<Network>)
    ensures forall p :: p in r <==> exists x :: x in s && p in x.routes
  {
    if s == [] then []
    else
      assert s == s[..|s| - 1] + [s[|s| - 1]];
      AllRoutes(s[..|s| - 1]) + s[|s| - 1].routes
  }

  predicate MeetsNone(p: Network, s: seq<Network>) {
    forall q :: q in s ==> !Overlaps(p, q)
  }

  /** Pools are independent; routed Networks meet neither each other nor any pool. */
  predicate AddressesOk(s: State) {
    && PairwiseDisjoint(Pools(s))
    && PairwiseDisjoint(AllRoutes(s))
    && forall p :: p in AllRoutes(s) ==> MeetsNone(p, Pools(s))
  }

  function Interfaces(s: State): set<Device> {
    set x | x in s :: x.Dev()
  }

  predicate StateOk(reg: Instances, s: State) {
    Interfaces(s) == reg.Keys && AddressesOk(s)
  }

  /** The payloads that validate_state accepts. */
  predicate Acceptable(reg: Instances, raws: seq<RawInstance>) {
    && TrunksOk(reg, raws)
    && StateOk(reg, ToInstances(reg, raws))
  }

  // ----- sorted by id

  function InsertById(x: Instance, s: State): (r: State)
    ensures multiset(r) == multiset(s) + multiset{x}
  {
    if s == [] || s[|s| - 1].id <= x.id then s + [x]
    else
      assert s == s[..|s| - 1] + [s[|s| - 1]];
      InsertById(x, s[..|s| - 1]) + [s[|s| - 1]]
  }

  /** sorted(…, key=id), which is stable. */
  function SortById(s: State): (r: State)
    ensures multiset(r) == multiset(s)
  {
    if s == [] then []
    else
      assert s == s[..|s| - 1] + [s[|s| - 1]];
      InsertById(s[|s| - 1], SortById(s[..|s| - 1]))
  }

  predicate SortedById(s: State) {
    forall i, j :: 0 <= i < j < |s| ==> s[i].id <= s[j].id
  }

  lemma InsertBound(x: Instance, s: State, bound: int)
    requires x.id <= bound && forall y :: y in s ==> y.id <= bound
    ensures forall y :: y in InsertById(x, s) ==> y.id <= bound
  {
    forall y | y in InsertById(x, s) ensures y.id <= bound {
      assert y in multiset(InsertById(x, s));
    }
  }

  lemma {:induction false} InsertKeepsSorted(x: Instance, s: State)
    requires SortedById(s)
    ensures SortedById(InsertById(x, s))
  {
    if s == [] || s[|s| - 1].id <= x.id {
    } else {
      InsertKeepsSorted(x, s[..|s| - 1]);
      InsertBound(x, s[..|s| - 1], s[|s| - 1].id);
    }
  }

  lemma {:induction false} SortSorts(s: State)
    ensures SortedById(SortById(s)) && multiset(SortById(s)) == multiset(s)
  {
    if s == [] {
    } else {
      SortSorts(s[..|s| - 1]);
      InsertKeepsSorted(s[|s| - 1], SortById(s[..|s| - 1]));
    }
  }

  // ----- validate_state

  /** _normalize_instance */
  method NormalizeInstance(reg: Instances, raw: RawInstance) returns (r: Result<Instance, Failure>)
    ensures r.Ok? <==> TrunkOk(reg, raw)
    ensures r.Ok? ==> r.value == ToInstance(reg, raw)
  {
    if raw.interface !in reg {
      return Err(Unregistered);
    }
    if !Parses(raw.vpnPool) || !Parses(raw.serverAddress) {
      return Err(Malformed);
    }
    if !Authorized(reg, raw) {
      return Err(Diverges);
    }
    if !(forall p :: p in raw.peers ==> PeerParses(p)) {
      return Err(InvalidKey);
    }
    var refused := CheckPeers(ToPeers(raw.peers));
    if refused.Some? {
      return Err(refused.value);
    }
    if !ListsParse(raw) {
      return Err(Malformed);
    }
    return Ok(ToInstance(reg, raw));
  }

  lemma DisjointStep(s: seq<Network>, p: Network)
    ensures PairwiseDisjoint(s + [p]) <==> PairwiseDisjoint(s) && MeetsNone(p, s)
  {
    var all := s + [p];
    if PairwiseDisjoint(all) {
      assert forall i :: 0 <= i < |s| ==> all[i] == s[i];
      forall q | q in s ensures !Overlaps(p, q) {
        var i :| 0 <= i < |s| && s[i] == q;
        assert !Overlaps(all[i], all[|s|]);
        OverlapsSymmetric(p, q);
      }
      forall i, j | 0 <= i < j < |s| ensures !Overlaps(s[i], s[j]) {
        assert !Overlaps(all[i], all[j]);
      }
    }
    if PairwiseDisjoint(s) && MeetsNone(p, s) {
      forall i | 0 <= i < |s| ensures !Overlaps(s[i], p) {
        OverlapsSymmetric(p, s[i]);
      }
    }
  }

  lemma DisjointShorter(s: seq<Network>, t: seq<Network>)
    ensures PairwiseDisjoint(s + t) ==> PairwiseDisjoint(s)
  {
    if PairwiseDisjoint(s + t) {
      forall i, j | 0 <= i < j < |s| ensures !Overlaps(s[i], s[j]) {
        assert (s + t)[i] == s[i] && (s + t)[j] == s[j];
      }
    }
  }

  /** The loop that grows `pools`. */
  method CheckPools(s: State) returns (ok: bool)
    ensures ok <==> PairwiseDisjoint(Pools(s))
  {
    var pools: seq<Network> := [];
    for i := 0 to |s|
      invariant pools == Pools(s)[..i] && PairwiseDisjoint(pools)
    {
      DisjointStep(pools, s[i].record.vpnPool);
      assert Pools(s)[..i] + [s[i].record.vpnPool] == Pools(s)[..i + 1];
      assert Pools(s)[..i + 1] + Pools(s)[i + 1..] == Pools(s);
      DisjointShorter(Pools(s)[..i + 1], Pools(s)[i + 1..]);
      var meets := MeetsAny(s[i].record.vpnPool, pools);
      if meets {
        return false;
      }
      pools := pools + [s[i].record.vpnPool];
    }
    assert Pools(s)[..|s|] == Pools(s);
    return true;
  }

  predicate RoutedOk(routed: seq<Network>, pools: seq<Network>) {
    PairwiseDisjoint(routed) && forall p :: p in routed ==> MeetsNone(p, pools)
  }

  lemma RoutedStep(routed: seq<Network>, pools: seq<Network>, p: Network)
    ensures RoutedOk(routed + [p], pools) <==>
            RoutedOk(routed, pools) && MeetsNone(p, routed) && MeetsNone(p, pools)
  {
    DisjointStep(routed, p);
    assert forall q :: q in routed ==> q in routed + [p];
    assert p in routed + [p];
  }

  lemma RoutedShorter(s: seq<Network>, t: seq<Network>, pools: seq<Network>)
    ensures RoutedOk(s + t, pools) ==> RoutedOk(s, pools)
  {
    DisjointShorter(s, t);
    assert forall q :: q in s ==> q in s + t;
  }

  lemma {:induction false} AllRoutesPrefix(s: State, i: nat)
    requires i <= |s|
    ensures exists rest :: AllRoutes(s) == AllRoutes(s[..i]) + rest
    decreases |s|
  {
    if i == |s| {
      assert s[..i] == s;
      assert AllRoutes(s) == AllRoutes(s) + [];
    } else {
      var t := s[..|s| - 1];
      AllRoutesPrefix(t, i);
      assert t[..i] == s[..i];
      var rest :| AllRoutes(t) == AllRoutes(s[..i]) + rest;
      assert AllRoutes(s) == AllRoutes(s[..i]) + (rest + s[|s| - 1].routes);
    }
  }

  /** The Networks of one trunk are added to `routed` one after the other. */
  method RouteTrunk(x: Instance, routed: seq<Network>, pools: seq<Network>)
    returns (ok: bool, grown: seq<Network>)
    requires RoutedOk(routed, pools)
    ensures ok <==> RoutedOk(routed + x.routes, pools)
    ensures ok ==> grown == routed + x.routes
  {
    grown := routed;
    for k := 0 to |x.routes|
      invariant grown == routed + x.routes[..k] && RoutedOk(grown, pools)
    {
      RoutedStep(grown, pools, x.routes[k]);
      assert grown + [x.routes[k]] == routed + x.routes[..k + 1];
      assert routed + x.routes == (routed + x.routes[..k + 1]) + x.routes[k + 1..];
      RoutedShorter(routed + x.routes[..k + 1], x.routes[k + 1..], pools);
      var clash := MeetsAny(x.routes[k], grown);
      if clash {
        return false, grown;
      }
      clash := MeetsAny(x.routes[k], pools);
      if clash {
        return false, grown;
      }
      grown := grown + [x.routes[k]];
    }
    assert x.routes[..|x.routes|] == x.routes;
    return true, grown;
  }

  /** The loop that grows `routed`. */
  method CheckRoutes(s: State) returns (ok: bool)
    ensures ok <==> RoutedOk(AllRoutes(s), Pools(s))
  {
    var pools := Pools(s);
    var routed: seq<Network> := [];
    for i := 0 to |s|
      invariant routed == AllRoutes(s[..i]) && RoutedOk(routed, pools)
    {
      assert s[..i + 1] == s[..i] + [s[i]];
      var fits, grown := RouteTrunk(s[i], routed, pools);
      if !fits {
        AllRoutesPrefix(s, i + 1);
        var rest :| AllRoutes(s) == AllRoutes(s[..i + 1]) + rest;
        RoutedShorter(AllRoutes(s[..i + 1]), rest, pools);
        return false;
      }
      routed := grown;
    }
    assert s[..|s|] == s;
    return true;
  }

  method NormalizeAll(reg: Instances, raws: seq<RawInstance>) returns (r: Result<State, Failure>)
    ensures r.Ok? <==> TrunksOk(reg, raws)
    ensures r.Ok? ==> r.value == ToInstances(reg, raws)
  {
    var s: State := [];
    for i := 0 to |raws|
      invariant |s| == i
      invariant forall j :: 0 <= j < i ==> TrunkOk(reg, raws[j]) && s[j] == ToInstance(reg, raws[j])
    {
      var x := NormalizeInstance(reg, raws[i]);
      if x.Err? {
        return Err(x.error);
      }
      s := s + [x.value];
    }
    return Ok(s);
  }

  /** validate_state */
  method ValidateState(reg: Instances, raws: seq<RawInstance>) returns (r: Result<State, Failure>)
    ensures r.Ok? <==> Acceptable(reg, raws)
    ensures r.Ok? ==> r.value == SortById(ToInstances(reg, raws))
  {
    var normalized := NormalizeAll(reg, raws);
    if normalized.Err? {
      return normalized;
    }
    var s := normalized.value;
    if Interfaces(s) != reg.Keys {
      return Err(NotWholeRegistry);
    }
    var ok := CheckPools(s);
    if !ok {
      return Err(PoolsOverlap);
    }
    ok := CheckRoutes(s);
    if !ok {
      return Err(NetworksOverlap);
    }
    return Ok(SortById(s));
  }
}
