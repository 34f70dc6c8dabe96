// Provisioning of trunks: next_interface, provision_instance and unprovision_instance of
// controller/registry.py and controller/vpnhub-controller.py.

module Provisioning {
  import opened Seqs
  import opened Ipv4
  import opened Records
  import opened Registry

  // ----- the next interface name

  /** The numbers of the registered interface names; wg01 and wg1 have the same number. */
  function UsedNumbers(names: set<Device>): (used: set<nat>)
    ensures |used| <= |names|
    ensures forall n :: n in names && IsInterfaceName(n) ==> InterfaceIndex(n) in used
    ensures forall k :: k in used ==> exists n :: n in names && IsInterfaceName(n) && InterfaceIndex(n) == k
    decreases names
  {
    var used := set n | n in names && IsInterfaceName(n) :: InterfaceIndex(n);
    NumbersBounded(names, used);
    used
  }

  lemma {:induction false} NumbersBounded(names: set<Device>, used: set<nat>)
    requires used == set n | n in names && IsInterfaceName(n) :: InterfaceIndex(n)
    ensures |used| <= |names|
    decreases names
  {
    if names == {} {
    } else {
      var m :| m in names;
      var rest := names - {m};
      var usedRest := set n | n in rest && IsInterfaceName(n) :: InterfaceIndex(n);
      NumbersBounded(rest, usedRest);
      assert names == rest + {m};
      if IsInterfaceName(m) {
        assert used == usedRest + {InterfaceIndex(m)};
      } else {
        assert used == usedRest;
      }
    }
  }

  function FirstUnused(used: set<nat>, from: nat): (k: nat)
    ensures k >= from && k !in used
    ensures forall j :: from <= j < k ==> j in used
    ensures k <= from + |used|
    decreases |used|
  {
    if from in used then
      var rest := used - {from};
      var k := FirstUnused(rest, from + 1);
      assert forall j :: from < j < k ==> j in rest;
      assert used == rest + {from} && k !in rest;
      k
    else from
  }

  function NextName(names: set<Device>): (d: Device)
    ensures IsInterfaceName(d)
  {
    InterfaceName(FirstUnused(UsedNumbers(names), 1))
  }

  /** next_interface.  By pigeonhole the loop stops within one more step than there are names. */
  method NextInterface(names: set<Device>) returns (interface: Device)
    ensures interface == NextName(names)
  {
    var used := UsedNumbers(names);
    var candidate := 1;
    ghost var rest := used;
    while candidate in used
      invariant 1 <= candidate
      invariant rest <= used && forall j :: j in used && j >= candidate ==> j in rest
      invariant FirstUnused(used, 1) == FirstUnused(rest, candidate)
      decreases |rest|
    {
      rest := rest - {candidate};
      candidate := candidate + 1;
    }
    interface := InterfaceName(candidate);
  }

  predicate NumberTaken(names: set<Device>, k: nat) {
    exists n :: n in names && IsInterfaceName(n) && InterfaceIndex(n) == k
  }

  /** The chosen name is new, is never wg0, bears the smallest free positive number, and that
      number exceeds the number of trunks by at most one. */
  lemma NextNameIsLeastFree(names: set<Device>) returns (k: nat)
    ensures 1 <= k <= |names| + 1 && NextName(names) == InterfaceName(k)
    ensures !NumberTaken(names, k) && forall j :: 1 <= j < k ==> NumberTaken(names, j)
    ensures NextName(names) !in names && NextName(names) != DEFAULT_INTERFACE
  {
    var used := UsedNumbers(names);
    k := FirstUnused(used, 1);
    assert IsInterfaceName(NextName(names)) && InterfaceIndex(NextName(names)) == k;
    assert NumberTaken(names, k) ==> k in used;
    forall j | 1 <= j < k ensures NumberTaken(names, j) {
      assert j in used;
    }
    assert IsInterfaceName(DEFAULT_INTERFACE) && InterfaceIndex(DEFAULT_INTERFACE) == 0;
  }

  // ----- the registry as a state

  datatype Request = Request(listenPort: int, vpnPool: Text, serverAddress: Text)

  /** What provision_instance asks of a request before it looks at the registry. */
  predicate RequestOk(q: Request) {
    && 1 <= q.listenPort <= 65535
    && Parses(q.vpnPool) && Parses(q.serverAddress)
    && ParseNetwork(q.vpnPool).len <= 24
    && ParseNetwork(q.vpnPool).Contains(ParseInterface(q.serverAddress).ip)
  }

  predicate Matches(r: Record, q: Request)
    requires RequestOk(q)
  {
    && r.listenPort == q.listenPort
    && r.vpnPool == ParseNetwork(q.vpnPool)
    && r.serverAddress == ParseInterface(q.serverAddress)
  }

  /** _validate_new_pool, for the registered trunks. */
  predicate PoolIsNew(reg: Instances, q: Request) {
    RequestOk(q) && forall n :: n in reg ==>
      reg[n].listenPort != q.listenPort && !Overlaps(ParseNetwork(q.vpnPool), reg[n].vpnPool)
  }

  /** The record of a fresh trunk. */
  function NewRecord(reg: Instances, q: Request, key: Key, protocol: int): Record
    requires RequestOk(q)
  {
    var name := NextName(reg.Keys);
    Record(name, q.listenPort, ParseNetwork(q.vpnPool), ParseInterface(q.serverAddress),
           KeyPathFor(name), key, protocol)
  }

  lemma ValidWithOneMore(reg: Instances, r: Record)
    requires ValidRegistry(reg) && RecordOk(r) && r.interface !in reg
    ensures ValidRegistry(reg[r.interface := r]) <==> forall n :: n in reg ==> Compatible(r, reg[n])
  {
    var next := reg[r.interface := r];
    if ValidRegistry(next) {
      forall n | n in reg ensures Compatible(r, reg[n]) {
        assert Compatible(next[r.interface], next[n]);
      }
    }
    if forall n :: n in reg ==> Compatible(r, reg[n]) {
      forall m, n | m in next && n in next && m != n ensures Compatible(next[m], next[n]) {
        if m in reg {
          OverlapsSymmetric(r.vpnPool, reg[m].vpnPool);
          assert Compatible(r, reg[m]);
        }
      }
    }
  }

  lemma NewRecordOk(reg: Instances, q: Request, key: Key, protocol: int)
    requires RequestOk(q) && ValidKey(key) && 1 <= protocol <= 255
    ensures RecordOk(NewRecord(reg, q, key, protocol))
    ensures NewRecord(reg, q, key, protocol).interface !in reg
  {
    var _ := NextNameIsLeastFree(reg.Keys);
  }

  /** The incremental checks make the full validation succeed: adding the record of a request
      that passed _validate_new_pool keeps the registry valid, and only such a request does. */
  lemma IncrementalCheckSuffices(reg: Instances, q: Request, key: Key, protocol: int)
    requires ValidRegistry(reg) && RequestOk(q) && ValidKey(key) && 1 <= protocol <= 255
    ensures var r := NewRecord(reg, q, key, protocol);
            ValidRegistry(reg[r.interface := r]) <==> PoolIsNew(reg, q)
  {
    var r := NewRecord(reg, q, key, protocol);
    NewRecordOk(reg, q, key, protocol);
    ValidWithOneMore(reg, r);
    if PoolIsNew(reg, q) {
      assert forall n :: n in reg ==> Compatible(r, reg[n]);
    } else {
      var n :| n in reg && !(reg[n].listenPort != q.listenPort &&
                             !Overlaps(ParseNetwork(q.vpnPool), reg[n].vpnPool));
      assert !Compatible(r, reg[n]);
    }
  }

  // ----- key files

  /** Two trunks never share a key file. */
  predicate PathsInjective(reg: Instances) {
    forall m, n :: m in reg && n in reg && m != n ==> reg[m].keyPath != reg[n].keyPath
  }

  /** Names and key paths of a registry that grew from a default trunk. */
  predicate Grown(reg: Instances) {
    && DEFAULT_INTERFACE in reg
    && (forall n :: n in reg && n != DEFAULT_INTERFACE ==>
          IsPositiveName(n) && reg[n].keyPath == KeyPathFor(n))
  }

  predicate IsPositiveName(n: Device) {
    IsInterfaceName(n) && InterfaceIndex(n) >= 1 && n == InterfaceName(InterfaceIndex(n))
  }

  /** The default trunk keeps its key under a name that no provisioned trunk will use. */
  ghost predicate DefaultPathReserved(reg: Instances) {
    DEFAULT_INTERFACE in reg &&
    forall k :: k >= 1 ==> reg[DEFAULT_INTERFACE].keyPath != KeyPathFor(InterfaceName(k))
  }

  ghost predicate RegistryInv(reg: Instances) {
    ValidRegistry(reg) && Grown(reg) && DefaultPathReserved(reg)
  }

  lemma InvMakesPathsInjective(reg: Instances)
    requires RegistryInv(reg)
    ensures PathsInjective(reg)
  {
    forall m, n | m in reg && n in reg && m != n ensures reg[m].keyPath != reg[n].keyPath {
      if m == DEFAULT_INTERFACE {
        assert n == InterfaceName(InterfaceIndex(n));
      } else if n == DEFAULT_INTERFACE {
        assert m == InterfaceName(InterfaceIndex(m));
      }
    }
  }

  datatype Action =
    | Provision(request: Request, key: Key, protocol: int)
    | Unprovision(interface: Device)

  /** The registry after an action; a refused action changes nothing. */
  function After(reg: Instances, a: Action): Instances {
    match a
    case Provision(q, key, protocol) =>
      if Admissible(reg, a) then
        var r := NewRecord(reg, q, key, protocol);
        reg[r.interface := r]
      else reg
    case Unprovision(name) =>
      if name == DEFAULT_INTERFACE then reg else reg - {name}
  }

  function Run(reg: Instances, actions: seq<Action>): Instances {
    if actions == [] then reg
    else After(Run(reg, actions[..|actions| - 1]), actions[|actions| - 1])
  }

  predicate Admissible(reg: Instances, a: Action)
    requires a.Provision?
  {
    RequestOk(a.request) && ValidKey(a.key) && 1 <= a.protocol <= 255 && PoolIsNew(reg, a.request)
  }

  lemma InvKept(reg: Instances, a: Action)
    requires RegistryInv(reg)
    ensures RegistryInv(After(reg, a))
    ensures After(reg, a)[DEFAULT_INTERFACE] == reg[DEFAULT_INTERFACE]
  {
    if a.Provision? && Admissible(reg, a) {
      AdditionKeepsInv(reg, a.request, a.key, a.protocol);
    } else if a.Unprovision? && a.interface != DEFAULT_INTERFACE {
      FewerStayValid(reg, a.interface);
    }
  }

  lemma AdditionKeepsInv(reg: Instances, q: Request, key: Key, protocol: int)
    requires RegistryInv(reg) && PoolIsNew(reg, q) && ValidKey(key) && 1 <= protocol <= 255
    ensures var r := NewRecord(reg, q, key, protocol);
            r.interface != DEFAULT_INTERFACE && RegistryInv(reg[r.interface := r])
  {
    var r := NewRecord(reg, q, key, protocol);
    IncrementalCheckSuffices(reg, q, key, protocol);
    var k := NextNameIsLeastFree(reg.Keys);
    GrownByOne(reg, r, k);
    ReservedKept(reg, r);
  }

  lemma ReservedKept(reg: Instances, r: Record)
    requires DefaultPathReserved(reg) && r.interface != DEFAULT_INTERFACE
    ensures DefaultPathReserved(reg[r.interface := r])
  {
  }

  lemma GrownByOne(reg: Instances, r: Record, k: nat)
    requires Grown(reg) && k >= 1 && r.interface == InterfaceName(k) && r.interface !in reg
    requires r.keyPath == KeyPathFor(r.interface)
    ensures Grown(reg[r.interface := r])
  {
    assert IsPositiveName(r.interface);
  }

  lemma FewerStayValid(reg: Instances, d: Device)
    requires ValidRegistry(reg)
    ensures ValidRegistry(reg - {d})
  {
  }

  /** Over every run from a default trunk whose key file has a reserved name, the registry
      stays valid, wg0 stays registered unchanged, and no two trunks share a key file. */
  lemma {:induction false} RegistrySafeOverRuns(reg: Instances, actions: seq<Action>)
    requires ValidRegistry(reg) && reg.Keys == {DEFAULT_INTERFACE} && DefaultPathReserved(reg)
    ensures var final := Run(reg, actions);
            && RegistryInv(final) && PathsInjective(final)
            && final[DEFAULT_INTERFACE] == reg[DEFAULT_INTERFACE]
  {
    if actions == [] {
    } else {
      var before := Run(reg, actions[..|actions| - 1]);
      RegistrySafeOverRuns(reg, actions[..|actions| - 1]);
      InvKept(before, actions[|actions| - 1]);
    }
    InvMakesPathsInjective(Run(reg, actions));
  }

  /** The name is needed: when the default trunk was bootstrapped with the key path that the
      next trunk will use, and only then, one more provisioned trunk shares a key file. */
  lemma SharingIsExact(reg: Instances, a: Action)
    requires Grown(reg) && PathsInjective(reg) && a.Provision? && Admissible(reg, a)
    ensures PathsInjective(After(reg, a)) <==>
            reg[DEFAULT_INTERFACE].keyPath != KeyPathFor(NextName(reg.Keys))
  {
    var name := NextName(reg.Keys);
    var r := NewRecord(reg, a.request, a.key, a.protocol);
    var _ := NextNameIsLeastFree(reg.Keys);
    PathsWithOneMore(reg, r);
    forall n | n in reg && n != DEFAULT_INTERFACE ensures reg[n].keyPath != r.keyPath {
      assert reg[n].keyPath == KeyPathFor(n) && n != name;
    }
  }

  lemma FirstTrunkIsWg1(reg: Instances)
    requires reg.Keys == {DEFAULT_INTERFACE}
    ensures NextName(reg.Keys) == Wg("1") && KeyPathFor(NextName(reg.Keys)) == InKeyRoot(TrunkKey("1"))
  {
    var k := NextNameIsLeastFree(reg.Keys);
    assert IsInterfaceName(DEFAULT_INTERFACE) && InterfaceIndex(DEFAULT_INTERFACE) == 0;
    assert k == 1;
  }

  lemma SlashSixteen(a: int)
    requires 0 <= a < ADDRESS_SPACE && a % 0x1_0000 == 0
    ensures Network(a, 16).Valid() && Network(a, 16).Last() == a + 0xFFFF
    ensures ParseNetwork(Ipv4(a, 16)) == Network(a, 16)
  {
    Pow2Values();
    ClearMeansMultiple(a, 16);
    MaskBase(a, 16);
  }

  const EXAMPLE_DEFAULT := Record(DEFAULT_INTERFACE, 51820, Network(0x0AFA_0000, 16),
    Interface(0x0AFA_0001, 16), InKeyRoot(TrunkKey("1")), PublicKeyOf(0), 186)

  const EXAMPLE_REQUEST := Request(51821, Ipv4(0x0AFB_0000, 16), Ipv4(0x0AFB_0001, 16))

  lemma ExampleIsAdmissible()
    ensures RecordOk(EXAMPLE_DEFAULT)
    ensures Admissible(map[DEFAULT_INTERFACE := EXAMPLE_DEFAULT], Provision(EXAMPLE_REQUEST, PublicKeyOf(1), 186))
  {
    SlashSixteen(0x0AFA_0000);
    SlashSixteen(0x0AFB_0000);
  }

  lemma DefaultAlone(r: Record)
    requires RecordOk(r) && r.interface == DEFAULT_INTERFACE
    ensures var reg := map[DEFAULT_INTERFACE := r]; ValidRegistry(reg) && Grown(reg) && PathsInjective(reg)
  {
  }

  /** An input on which key files are shared: wg0 at 10.250.0.0/16 with the key file
      vpnhub-wg1.key, then a trunk at 10.251.0.0/16. */
  lemma SharedKeyFile()
    ensures var reg := map[DEFAULT_INTERFACE := EXAMPLE_DEFAULT];
            ValidRegistry(reg) && !PathsInjective(After(reg, Provision(EXAMPLE_REQUEST, PublicKeyOf(1), 186)))
  {
    var reg := map[DEFAULT_INTERFACE := EXAMPLE_DEFAULT];
    ExampleIsAdmissible();
    DefaultAlone(EXAMPLE_DEFAULT);
    FirstTrunkIsWg1(reg);
    SharingIsExact(reg, Provision(EXAMPLE_REQUEST, PublicKeyOf(1), 186));
  }

  lemma PathsWithOneMore(reg: Instances, r: Record)
    requires PathsInjective(reg) && r.interface !in reg
    ensures PathsInjective(reg[r.interface := r]) <==> forall n :: n in reg ==> reg[n].keyPath != r.keyPath
  {
    var next := reg[r.interface := r];
    if PathsInjective(next) {
      forall n | n in reg ensures reg[n].keyPath != r.keyPath {
        assert next[n].keyPath != next[r.interface].keyPath;
      }
    }
  }

  /** Unprovisioning a fresh trunk gives back the registry it was added to. */
  lemma UnprovisionUndoesProvision(reg: Instances, q: Request, key: Key, protocol: int)
    ensures After(After(reg, Provision(q, key, protocol)), Unprovision(NextName(reg.Keys))) == reg
  {
    var _ := NextNameIsLeastFree(reg.Keys);
  }

  /** Ports are registered once, so at most one record matches a request. */
  lemma MatchIsUnique(reg: Instances, q: Request, a: Record, b: Record)
    requires ValidRegistry(reg) && RequestOk(q) && a in reg.Values && b in reg.Values
    requires Matches(a, q) && Matches(b, q)
    ensures a == b
  {
    var m :| m in reg && reg[m] == a;
    var n :| n in reg && reg[n] == b;
    assert m != n ==> Compatible(reg[m], reg[n]);
  }

  // ----- the actions of the controller

  /** The route table, as far as a new pool is concerned: no row except the default meets it. */
  predicate PoolUnrouted(hostRoutes: seq<Network>, pool: Network) {
    forall dst :: dst in hostRoutes && dst != DEFAULT_ROUTE ==> !Overlaps(pool, dst)
  }

  predicate HasMatch(reg: Instances, q: Request) {
    RequestOk(q) && exists n :: n in reg && Matches(reg[n], q)
  }

  /** The registered trunks; a file that does not validate registers none. */
  function Contents(file: File): Instances {
    if FileOk(file) then Loaded(file) else map[]
  }

  /** A request for which a trunk is created, as far as the registry is concerned. */
  predicate Registrable(file: File, q: Request, protocol: int) {
    && FileOk(file) && RequestOk(q)
    && !HasMatch(Contents(file), q)
    && PoolIsNew(Contents(file), q)
    && 1 <= Effective(protocol) <= 255
  }

  /** And as far as these routes of the host are concerned. */
  predicate Creatable(file: File, q: Request, hostRoutes: seq<Network>, protocol: int) {
    Registrable(file, q, protocol) && PoolUnrouted(hostRoutes, ParseNetwork(q.vpnPool))
  }

  /** The secret that a key file holds after ensure_private_key. */
  function SecretAt(keyFiles: map<KeyPath, nat>, path: KeyPath, generated: nat): nat {
    if path in keyFiles then keyFiles[path] else generated
  }

  /** What a repeated request is answered. */
  function Repeated(m: Record, keyFiles: map<KeyPath, nat>, generated: nat): Result<(bool, Record), RegistryError> {
    if PublicKeyOf(SecretAt(keyFiles, m.keyPath, generated)) == m.publicKey then Ok((false, m)) else Err(KeyMismatch)
  }

  predicate HoldsKey(keyFiles: map<KeyPath, nat>, m: Record) {
    m.keyPath in keyFiles && PublicKeyOf(keyFiles[m.keyPath]) == m.publicKey
  }

  /** No key file is removed or overwritten. */
  predicate KeysKept(before: map<KeyPath, nat>, after: map<KeyPath, nat>) {
    forall path :: path in before ==> path in after && after[path] == before[path]
  }

  function Effective(protocol: int): int {
    if protocol == 0 then 186 else protocol
  }

  lemma NewRecordNormalizes(reg: Instances, q: Request, key: Key, protocol: int)
    requires RequestOk(q) && ValidKey(key)
    ensures var raw := RawRecord(NextName(reg.Keys), q.listenPort, Show(ParseNetwork(q.vpnPool)),
                                 q.serverAddress, KeyPathFor(NextName(reg.Keys)), key, protocol);
            NormalizeRecord(raw) == if 1 <= Effective(protocol) <= 255
                                    then Ok(NewRecord(reg, q, key, Effective(protocol)))
                                    else Err(BadProtocol)
  {
    ShowRoundTrip(ParseNetwork(q.vpnPool));
  }

  /** The controller's persistent state: the registry file and the private-key files. */
  class Store {
    var file: File
    var keyFiles: map<KeyPath, nat>
    const routeProtocol: int

    constructor (file: File, keyFiles: map<KeyPath, nat>, routeProtocol: int)
      ensures this.file == file && this.keyFiles == keyFiles && this.routeProtocol == routeProtocol
    {
      this.file, this.keyFiles, this.routeProtocol := file, keyFiles, routeProtocol;
    }

    /** ensure_private_key: generates the file only when it is missing. */
    method EnsurePrivateKey(path: KeyPath, generated: nat) returns (key: Key)
      modifies this`keyFiles
      ensures keyFiles == old(keyFiles)[path := SecretAt(old(keyFiles), path, generated)]
      ensures path in old(keyFiles) ==> keyFiles == old(keyFiles)
      ensures path !in old(keyFiles) ==> keyFiles == old(keyFiles)[path := generated]
      ensures key == PublicKeyOf(SecretAt(old(keyFiles), path, generated)) == PublicKeyOf(keyFiles[path])
    {
      if path !in keyFiles {
        keyFiles := keyFiles[path := generated];
      }
      key := PublicKeyOf(keyFiles[path]);
    }

    /** _existing_matching_instance */
    method FindMatching(reg: Instances, q: Request) returns (found: Option<Record>)
      requires RequestOk(q)
      ensures found.None? <==> !HasMatch(reg, q)
      ensures found.Some? ==> found.value in reg.Values && Matches(found.value, q)
    {
      var names := Listing(reg.Keys);
      for i := 0 to |names|
        invariant forall j :: 0 <= j < i ==> !Matches(reg[names[j]], q)
      {
        if Matches(reg[names[i]], q) {
          return Some(reg[names[i]]);
        }
      }
      return None;
    }

    /** _validate_new_pool */
    method ValidateNewPool(reg: Instances, q: Request, hostRoutes: seq<Network>)
      returns (refusal: Option<RegistryError>)
      requires RequestOk(q)
      ensures refusal.None? <==> PoolIsNew(reg, q) && PoolUnrouted(hostRoutes, ParseNetwork(q.vpnPool))
    {
      var pool := ParseNetwork(q.vpnPool);
      var names := Listing(reg.Keys);
      for i := 0 to |names|
        invariant forall j :: 0 <= j < i ==>
          reg[names[j]].listenPort != q.listenPort && !Overlaps(pool, reg[names[j]].vpnPool)
      {
        if reg[names[i]].listenPort == q.listenPort {
          return Some(PortTaken);
        }
        if Overlaps(pool, reg[names[i]].vpnPool) {
          return Some(PoolTaken);
        }
      }
      for i := 0 to |hostRoutes|
        invariant forall j :: 0 <= j < i && hostRoutes[j] != DEFAULT_ROUTE ==> !Overlaps(pool, hostRoutes[j])
      {
        if hostRoutes[i] != DEFAULT_ROUTE && Overlaps(pool, hostRoutes[i]) {
          return Some(PoolRouted);
        }
      }
      return None;
    }

    /** The answer to a request that matches a registered record: the record, as long as its key
        file still fits. */
    method Repeat(existing: Record, generated: nat) returns (r: Result<(bool, Record), RegistryError>)
      modifies this`keyFiles
      ensures keyFiles == old(keyFiles)[existing.keyPath := SecretAt(old(keyFiles), existing.keyPath, generated)]
      ensures r == Repeated(existing, old(keyFiles), generated)
    {
      var key := EnsurePrivateKey(existing.keyPath, generated);
      r := if key == existing.publicKey then Ok((false, existing)) else Err(KeyMismatch);
    }

    /** The rest of provision_instance, for a request without a match. */
    method Create(reg: Instances, q: Request, hostRoutes: seq<Network>, generated: nat)
      returns (r: Result<Record, RegistryError>)
      requires ValidRegistry(reg) && RequestOk(q)
      modifies this
      ensures r.Ok? <==> && PoolIsNew(reg, q) && PoolUnrouted(hostRoutes, ParseNetwork(q.vpnPool))
                         && 1 <= Effective(routeProtocol) <= 255
      ensures r.Err? ==> file == old(file)
      ensures r.Ok? ==>
        && HoldsKey(keyFiles, r.value)
        && r.value == NewRecord(reg, q, r.value.publicKey, Effective(routeProtocol))
        && FileOk(file) && Loaded(file) == reg[r.value.interface := r.value]
        && keyFiles == old(keyFiles)[r.value.keyPath := SecretAt(old(keyFiles), r.value.keyPath, generated)]
      ensures KeysKept(old(keyFiles), keyFiles)
    {
      var refusal := ValidateNewPool(reg, q, hostRoutes);
      if refusal.Some? {
        return Err(refusal.value);
      }
      var interface := NextInterface(reg.Keys);
      var key := EnsurePrivateKey(KeyPathFor(interface), generated);
      NewRecordNormalizes(reg, q, key, routeProtocol);
      r := NormalizeRecord(RawRecord(interface, q.listenPort, Show(ParseNetwork(q.vpnPool)),
        q.serverAddress, KeyPathFor(interface), key, routeProtocol));
      if r.Ok? {
        SaveAddition(reg, q, r.value);
        Save(reg[interface := r.value]);
      }
    }

    /** provision_instance.  The first component of the result says whether a trunk was created. */
    method Provision(q: Request, hostRoutes: seq<Network>, generated: nat)
      returns (r: Result<(bool, Record), RegistryError>)
      modifies this
      ensures r.Ok? ==> FileOk(file)
      ensures r.Ok? && r.value.0 <==> Creatable(old(file), q, hostRoutes, routeProtocol)
      // a repeated request returns the registered record, as long as its key file still fits
      ensures forall m :: m in Contents(old(file)).Values && RequestOk(q) && Matches(m, q) ==>
        r == Repeated(m, old(keyFiles), generated)
      ensures r.Ok? && !r.value.0 ==> r.value.1 in Contents(file).Values
      ensures r.Ok? ==>
        && RequestOk(q) && r.value.1.listenPort == q.listenPort
        && r.value.1.vpnPool == ParseNetwork(q.vpnPool)
        && r.value.1.serverAddress == ParseInterface(q.serverAddress)
      ensures r.Ok? ==> HoldsKey(keyFiles, r.value.1)
      // the file changes by the new record or not at all, and no key file is overwritten
      ensures !(r.Ok? && r.value.0) ==> file == old(file)
      ensures r.Ok? && r.value.0 ==>
        && RequestOk(q)
        && r.value.1 == NewRecord(Contents(old(file)), q, r.value.1.publicKey, Effective(routeProtocol))
        && Contents(file) == After(Contents(old(file)),
             Action.Provision(q, r.value.1.publicKey, Effective(routeProtocol)))
      ensures KeysKept(old(keyFiles), keyFiles)
      ensures r.Ok? ==>
        keyFiles == old(keyFiles)[r.value.1.keyPath := SecretAt(old(keyFiles), r.value.1.keyPath, generated)]
    {
      var loaded := ValidateRegistry(file);
      if loaded.Err? {
        return Err(loaded.error);
      }
      var reg := loaded.value;
      if !RequestOk(q) {
        return Err(BadRequest);
      }
      var existing := FindMatching(reg, q);
      if existing.Some? {
        forall m | m in reg.Values && Matches(m, q) ensures m == existing.value {
          MatchIsUnique(reg, q, m, existing.value);
        }
        r := Repeat(existing.value, generated);
        return;
      }
      var created := Create(reg, q, hostRoutes, generated);
      r := if created.Ok? then Ok((true, created.value)) else Err(created.error);
    }

    /** validate_registry followed by save_registry; after a checked change it cannot fail. */
    method Save(reg: Instances)
      requires ValidRegistry(reg)
      modifies this`file
      ensures file == Saved(reg) && FileOk(file) && Loaded(file) == reg
    {
      SaveLoad(reg);
      var checked := ValidateRegistry(Saved(reg));
      assert checked.Ok?;
      file := Saved(checked.value);
    }

    /** unprovision_instance, for an interface that has Peers in the kernel or not. */
    method Unprovision(interface: Device, peersActive: bool)
      returns (r: Result<bool, RegistryError>)
      modifies this
      ensures r.Ok? <==> && interface != DEFAULT_INTERFACE
                         && FileOk(old(file))
                         && (interface in old(file) ==> !peersActive)
      ensures r == Ok(true) <==> && interface != DEFAULT_INTERFACE
                                 && FileOk(old(file))
                                 && interface in old(file) && !peersActive
      ensures r != Ok(true) ==> file == old(file) && keyFiles == old(keyFiles)
      ensures r == Ok(true) ==>
        && FileOk(file) && Contents(file) == After(Contents(old(file)), Action.Unprovision(interface))
        && interface in Contents(old(file))
        && keyFiles == old(keyFiles) - {Contents(old(file))[interface].keyPath}
      // no other trunk loses its key
      ensures RegistryInv(Contents(old(file))) ==>
        forall n :: n in Contents(file) && Contents(file)[n].keyPath in old(keyFiles) ==>
          Contents(file)[n].keyPath in keyFiles
    {
      if interface == DEFAULT_INTERFACE {
        return Err(DefaultIsPermanent);
      }
      var loaded := ValidateRegistry(file);
      if loaded.Err? {
        return Err(loaded.error);
      }
      var reg := loaded.value;
      if interface !in reg {
        return Ok(false);
      }
      if peersActive {
        return Err(PeersActive);
      }
      if RegistryInv(reg) {
        InvMakesPathsInjective(reg);
      }
      FewerStayValid(reg, interface);
      Save(reg - {interface});
      keyFiles := keyFiles - {reg[interface].keyPath};
      r := Ok(true);
    }
  }

  /** The new record matches the request it was made for. */
  lemma NewRecordMatches(reg: Instances, q: Request, key: Key, protocol: int)
    requires RequestOk(q) && PoolIsNew(reg, q) && ValidKey(key) && 1 <= protocol <= 255
    ensures var r := NewRecord(reg, q, key, protocol);
            Matches(r, q) && r in After(reg, Action.Provision(q, key, protocol)).Values
  {
    var r := NewRecord(reg, q, key, protocol);
    assert After(reg, Action.Provision(q, key, protocol))[r.interface] == r;
  }

  /** Two requests in a row: the second one, if it is the same, returns the record of the first
      and changes nothing, whatever the host's routes are by then. */
  method ProvisionTwice(store: Store, q: Request, hostRoutes: seq<Network>, generated: nat,
                        laterRoutes: seq<Network>, laterGenerated: nat)
    returns (first: Result<(bool, Record), RegistryError>, second: Result<(bool, Record), RegistryError>)
    modifies store
    ensures first.Ok? ==> second == Ok((false, first.value.1))
    ensures first.Ok? && first.value.0 ==>
      RequestOk(q) && Contents(store.file) == After(Contents(old(store.file)),
        Action.Provision(q, first.value.1.publicKey, Effective(store.routeProtocol)))
    ensures first.Ok? && !first.value.0 ==> store.file == old(store.file)
    ensures KeysKept(old(store.keyFiles), store.keyFiles)
  {
    first := store.Provision(q, hostRoutes, generated);
    if first.Ok? && first.value.0 {
      NewRecordMatches(Contents(old(store.file)), q, first.value.1.publicKey, Effective(store.routeProtocol));
    }
    second := store.Provision(q, laterRoutes, laterGenerated);
  }

  lemma NewNameIsRemovable(reg: Instances, q: Request, key: Key, protocol: int)
    requires RequestOk(q) && PoolIsNew(reg, q) && ValidKey(key) && 1 <= protocol <= 255
    ensures var name := NewRecord(reg, q, key, protocol).interface;
            && name != DEFAULT_INTERFACE
            && name in After(reg, Action.Provision(q, key, protocol))
            && After(After(reg, Action.Provision(q, key, protocol)), Action.Unprovision(name)) == reg
  {
    var _ := NextNameIsLeastFree(reg.Keys);
    UnprovisionUndoesProvision(reg, q, key, protocol);
  }

  lemma PutAndDrop(m: map<KeyPath, nat>, path: KeyPath, secret: nat)
    ensures m[path := secret] - {path} == m - {path}
  {
  }

  /** A trunk created and removed again, as instance_new does when its reconcile fails: the
      registered trunks are as they were, the trunk's key file is gone, and every other one is as it
      was. */
  method ProvisionAndRemove(store: Store, q: Request, hostRoutes: seq<Network>, generated: nat)
    returns (made: Result<(bool, Record), RegistryError>, removed: Result<bool, RegistryError>)
    modifies store
    ensures made.Ok? && made.value.0 ==>
      && removed == Ok(true) && FileOk(store.file)
      && Contents(store.file) == Contents(old(store.file))
      && made.value.1.keyPath !in store.keyFiles
      && store.keyFiles == old(store.keyFiles) - {made.value.1.keyPath}
    ensures !(made.Ok? && made.value.0) ==> store.file == old(store.file)
  {
    made := store.Provision(q, hostRoutes, generated);
    removed := Ok(false);
    if made.Ok? && made.value.0 {
      var path := made.value.1.keyPath;
      PutAndDrop(old(store.keyFiles), path, SecretAt(old(store.keyFiles), path, generated));
      NewNameIsRemovable(Contents(old(store.file)), q, made.value.1.publicKey, Effective(store.routeProtocol));
      removed := store.Unprovision(made.value.1.interface, false);
    }
  }

  lemma SaveAddition(reg: Instances, q: Request, r: Record)
    requires ValidRegistry(reg) && RequestOk(q) && PoolIsNew(reg, q)
    requires ValidKey(r.publicKey) && 1 <= r.routeProtocol <= 255
    requires r == NewRecord(reg, q, r.publicKey, r.routeProtocol)
    ensures ValidRegistry(reg[r.interface := r])
  {
    IncrementalCheckSuffices(reg, q, r.publicKey, r.routeProtocol);
  }
}
