// The host as the controller sees it: network links, the main route table, the nft table and
// the forwarding switch, changed only by commands.  `Exec` says what a command does; the class
// adds the outside world, which may make any checked command fail.

module Host {
  import opened Seqs
  import opened Ipv4
  import opened Records
  import opened Nftables
  import Decimal

  datatype WgPeer = WgPeer(publicKey: Key, psk: Option<Key>, allowedIps: seq<Network>)

  datatype WgConfig = WgConfig(privateKey: Option<nat>, listenPort: int, peers: seq<WgPeer>)

  const UNCONFIGURED := WgConfig(None, 0, [])

  datatype Link = Link(up: bool, addresses: seq<Interface>, wg: WgConfig)

  const FRESH_LINK := Link(false, [], UNCONFIGURED)

  datatype Route = Route(dev: Device, protocol: int)

  /** One route per destination.  `protocolNames` are the names that `ip` prints in place of the
      numbers of some route protocols; no command changes them.  Connected routes are not stored: they follow from the
      addresses of the links that are up (see `Listed`). */
  datatype Net = Net(
    links: map<Device, Link>, routes: map<Network, Route>, nft: Option<Ruleset>, ipForward: bool,
    protocolNames: map<int, string>)

  datatype Command =
    | LinkAdd(dev: Device)
    | LinkDelete(dev: Device)
    | LinkUp(dev: Device)
    | AddressReplace(address: Interface, dev: Device)
    | AddressAdd(address: Interface, dev: Device)
    | AddressFlush(dev: Device)
    | WgSyncconf(dev: Device, config: WgConfig)
    | RouteFlush(protocol: int, dev: Device)
    | RouteReplace(dst: Network, dev: Device, protocol: int)
    | NftCheck(file: NftFile)
    | NftLoad(file: NftFile)
    | NftDelete
    | EnableForwarding

  /** Addresses of a link and destinations of a route are kept apart by the kernel. */
  predicate NetOk(n: Net) {
    && (forall dst :: dst in n.routes ==> n.routes[dst].dev in n.links)
    && (forall d :: d in n.links ==> Distinct(n.links[d].addresses))
  }

  function AddAddress(s: seq<Interface>, a: Interface): seq<Interface> {
    if a in s then s else s + [a]
  }

  function RoutesOff(routes: map<Network, Route>, dev: Device): map<Network, Route> {
    map dst | dst in routes && routes[dst].dev != dev :: routes[dst]
  }

  function RoutesExcept(routes: map<Network, Route>, r: Route): map<Network, Route> {
    map dst | dst in routes && routes[dst] != r :: routes[dst]
  }

  predicate HasAddress(n: Net, dev: Device) {
    dev in n.links && n.links[dev].addresses != []
  }

  /** An interval set must not contain intervals that conflict. */
  predicate Loadable(r: Ruleset) {
    forall d :: d in r.sets ==> PairwiseDisjoint(d.elements)
  }

  predicate FileLoads(n: Net, file: NftFile) {
    Loadable(file.ruleset) && (file.deleteFirst ==> n.nft.Some?)
  }

  /** Loading over an existing table adds to it. */
  function LoadedTable(n: Net, file: NftFile): Ruleset {
    if file.deleteFirst || n.nft.None? then file.ruleset
    else
      var old_ := n.nft.value;
      Ruleset(old_.sets + file.ruleset.sets, old_.input + file.ruleset.input, old_.forward + file.ruleset.forward)
  }

  /** The state after a command, or None when the kernel refuses it. */
  function Exec(n: Net, c: Command): Option<Net> {
    match c
    case LinkAdd(d) =>
      if d in n.links then None else Some(n.(links := n.links[d := FRESH_LINK]))
    case LinkDelete(d) =>
      if d !in n.links then None else Some(n.(links := n.links - {d}, routes := RoutesOff(n.routes, d)))
    case LinkUp(d) =>
      if d !in n.links then None else Some(n.(links := n.links[d := n.links[d].(up := true)]))
    case AddressReplace(a, d) =>
      if d !in n.links then None
      else Some(n.(links := n.links[d := n.links[d].(addresses := AddAddress(n.links[d].addresses, a))]))
    case AddressAdd(a, d) =>
      if d !in n.links || a in n.links[d].addresses then None
      else Some(n.(links := n.links[d := n.links[d].(addresses := n.links[d].addresses + [a])]))
    case AddressFlush(d) =>
      // a link that loses its last IPv4 address loses its routes
      if d !in n.links then None
      else Some(n.(links := n.links[d := n.links[d].(addresses := [])],
                   routes := if HasAddress(n, d) then RoutesOff(n.routes, d) else n.routes))
    case WgSyncconf(d, config) =>
      if d !in n.links then None else Some(n.(links := n.links[d := n.links[d].(wg := config)]))
    case RouteFlush(protocol, d) =>
      Some(n.(routes := RoutesExcept(n.routes, Route(d, protocol))))
    case RouteReplace(dst, d, protocol) =>
      if d !in n.links || !n.links[d].up then None
      else Some(n.(routes := n.routes[dst := Route(d, protocol)]))
    case NftCheck(file) =>
      if FileLoads(n, file) then Some(n) else None
    case NftLoad(file) =>
      if FileLoads(n, file) then Some(n.(nft := Some(LoadedTable(n, file)))) else None
    case NftDelete =>
      if n.nft.None? then None else Some(n.(nft := None))
    case EnableForwarding =>
      Some(n.(ipForward := true))
  }

  // ----- what a set of devices shields from a command

  function LinksOutside(devs: set<Device>, n: Net): map<Device, Link> {
    map d | d in n.links && d !in devs :: n.links[d]
  }

  function RoutesOutside(devs: set<Device>, n: Net): map<Network, Route> {
    map dst | dst in n.routes && n.routes[dst].dev !in devs :: n.routes[dst]
  }

  predicate SameOutside(devs: set<Device>, a: Net, b: Net) {
    && LinksOutside(devs, a) == LinksOutside(devs, b)
    && RoutesOutside(devs, a) == RoutesOutside(devs, b)
    && a.protocolNames == b.protocolNames
  }

  /** What a series of commands may touch: these devices, and routes of these kinds. */
  datatype Frame = Frame(devs: set<Device>, managed: set<Route>)

  /** Every other route of `b` was there in `a`, and if its link had an address it still has one. */
  predicate Leaves(managed: set<Route>, a: Net, b: Net) {
    forall dst :: dst in b.routes && b.routes[dst] !in managed ==>
      && dst in a.routes && a.routes[dst] == b.routes[dst]
      && (HasAddress(a, b.routes[dst].dev) ==> HasAddress(b, b.routes[dst].dev))
  }

  predicate Contained(f: Frame, a: Net, b: Net) {
    SameOutside(f.devs, a, b) && Leaves(f.managed, a, b)
  }

  lemma LeavesTwice(managed: set<Route>, a: Net, b: Net, c: Net)
    requires Leaves(managed, a, b) && Leaves(managed, b, c)
    ensures Leaves(managed, a, c)
  {
  }

  /** No route outside the devices has this destination. */
  predicate Free(devs: set<Device>, n: Net, dst: Network) {
    dst !in RoutesOutside(devs, n)
  }

  /** The command concerns one of the devices, takes no destination from elsewhere, and adds no
      route of another kind. */
  predicate Within(f: Frame, n: Net, c: Command) {
    var devs := f.devs;
    match c
    case LinkAdd(d) => d in devs
    case LinkDelete(d) => d in devs
    case LinkUp(d) => d in devs
    case AddressReplace(_, d) => d in devs
    case AddressAdd(_, d) => d in devs
    case AddressFlush(d) => d in devs
    case WgSyncconf(d, _) => d in devs
    case RouteFlush(_, d) => d in devs
    case RouteReplace(dst, d, protocol) => d in devs && Free(devs, n, dst) && Route(d, protocol) in f.managed
    case _ => true
  }

  lemma ExecKeepsOk(n: Net, c: Command)
    requires NetOk(n) && Exec(n, c).Some?
    ensures NetOk(Exec(n, c).value)
  {
    match c
    case AddressReplace(a, d) =>
      AddressesStayDistinct(n, a, d);
    case AddressAdd(a, d) =>
      AddressesStayDistinct(n, a, d);
    case _ =>
  }

  lemma ExecLeaves(f: Frame, n: Net, c: Command)
    requires NetOk(n) && Within(f, n, c) && Exec(n, c).Some?
    ensures Leaves(f.managed, n, Exec(n, c).value)
  {
  }

  lemma ExecKeepsOutside(f: Frame, n: Net, c: Command)
    requires Within(f, n, c) && Exec(n, c).Some?
    ensures SameOutside(f.devs, n, Exec(n, c).value)
  {
    var devs := f.devs;
    var m := Exec(n, c).value;
    if c.RouteReplace? {
      assert RoutesOutside(devs, m) == RoutesOutside(devs, n);
    }
  }

  lemma AddressesStayDistinct(n: Net, a: Interface, d: Device)
    requires NetOk(n) && d in n.links
    ensures Distinct(AddAddress(n.links[d].addresses, a))
  {
  }

  // ----- the route table as listed

  /** What `ip` prints for a route protocol. */
  function Printed(names: map<int, string>, protocol: int): string {
    if protocol in names then names[protocol] else Decimal.Str(protocol)
  }

  /** A row of the listing: a stored route, or a connected route. */
  datatype Row = Row(dst: Network, dev: Device, protocol: string)

  const CONNECTED := "kernel"

  predicate Stored(n: Net, row: Row) {
    && row.dst in n.routes && n.routes[row.dst].dev == row.dev
    && row.protocol == Printed(n.protocolNames, n.routes[row.dst].protocol)
  }

  /** The network that an address connects its link to. */
  predicate Joins(a: Interface, dst: Network) {
    a.Valid() && a.len < 32 && a.Net() == dst
  }

  predicate Connected(l: Link, dst: Network) {
    l.up && exists a :: a in l.addresses && Joins(a, dst)
  }

  predicate Listed(n: Net, row: Row) {
    || Stored(n, row)
    || (row.protocol == CONNECTED && row.dev in n.links && Connected(n.links[row.dev], row.dst))
  }

  datatype Reply = Success | Failure | FailureAfterEffect

  /** The kernel and the commands run against it.  `replies` is the outside world: what becomes
      of the checked command number n. */
  class Kernel {
    var net: Net
    var count: nat
    const replies: nat -> Reply

    constructor (net: Net, replies: nat -> Reply)
      ensures this.net == net && this.replies == replies
    {
      this.net, this.count, this.replies := net, 0, replies;
    }

    /** The outside world lets every command succeed. */
    ghost predicate Benign() {
      forall n :: replies(n) == Success
    }

    /** run(cmd, check): a checked command may fail, with or without effect; an unchecked one is
        assumed to fail only when the kernel refuses it. */
    method Run(c: Command, check: bool, ghost f: Frame) returns (ok: bool)
      requires NetOk(net) && Within(f, net, c)
      modifies this
      ensures NetOk(net) && Contained(f, old(net), net)
      ensures count == old(count) + if check then 1 else 0
      ensures net == if Exec(old(net), c).Some? && !(check && replies(old(count)).Failure?)
                     then Exec(old(net), c).value else old(net)
      ensures ok <==> Exec(old(net), c).Some? && (check ==> replies(old(count)).Success?)
    {
      var result := Exec(net, c);
      var reply := if check then replies(count) else Success;
      if check {
        count := count + 1;
      }
      if result.Some? {
        ExecKeepsOk(net, c);
        ExecKeepsOutside(f, net, c);
        ExecLeaves(f, net, c);
      }
      if result.Some? && !reply.Failure? {
        net := result.value;
      }
      ok := result.Some? && reply.Success?;
    }

    /** `ip -j route show` */
    method HostRoutes() returns (rows: seq<Row>)
      ensures forall row :: row in rows <==> Listed(net, row)
    {
      rows := [];
      var dsts := Listing(net.routes.Keys);
      for i := 0 to |dsts|
        invariant forall row :: row in rows <==> Stored(net, row) && row.dst in dsts[..i]
      {
        var r := net.routes[dsts[i]];
        rows := rows + [Row(dsts[i], r.dev, Printed(net.protocolNames, r.protocol))];
      }
      var devs := Listing(net.links.Keys);
      for i := 0 to |devs|
        invariant forall row :: row in rows <==>
          || Stored(net, row)
          || (row.protocol == CONNECTED && row.dev in devs[..i] && Connected(net.links[row.dev], row.dst))
      {
        var connected := ConnectedOf(net.links[devs[i]], devs[i]);
        rows := rows + connected;
      }
    }

    static method ConnectedOf(l: Link, d: Device) returns (rows: seq<Row>)
      ensures forall row :: row in rows <==> row.protocol == CONNECTED && row.dev == d && Connected(l, row.dst)
    {
      rows := [];
      if l.up {
        for i := 0 to |l.addresses|
          invariant forall row :: row in rows <==>
            (&& row.protocol == CONNECTED && row.dev == d
             && exists a :: a in l.addresses[..i] && Joins(a, row.dst))
        {
          var a := l.addresses[i];
          assert forall addr :: addr in l.addresses[..i + 1] <==> addr in l.addresses[..i] || addr == a;
          if a.Valid() && a.len < 32 {
            assert Joins(a, a.Net());
            rows := rows + [Row(a.Net(), d, CONNECTED)];
          }
        }
      }
    }
  }
}
