// The root-owned registry of trunks (controller/registry.py) and the provisioning actions of
// the controller that change it (controller/vpnhub-controller.py, provision_instance and
// unprovision_instance).

module Records {
  import opened Seqs
  import opened Ipv4
  import Decimal

  /** A WireGuard key: an opaque identity and the number of bytes its text decodes to. */
  datatype Key = Key(id: nat, bytes: nat)

  predicate ValidKey(k: Key) {
    k.bytes == 32
  }

  /** `wg pubkey`, as a deterministic function of the private key. */
  function PublicKeyOf(secret: nat): (k: Key)
    ensures ValidKey(k)
  {
    Key(secret, 32)
  }

  /** The name of a network device: "wg" followed by a numeral, or any other text. */
  datatype Device = Wg(number: string) | Other(text: string)

  const DEFAULT_INTERFACE := Wg("0")

  /** A file name: "vpnhub-server.key", "vpnhub-wg<number>.key", or any other text. */
  datatype KeyName = ServerKey | TrunkKey(number: string) | OtherName(text: string)

  /** A resolved path: directly in /etc/wireguard, or somewhere else. */
  datatype KeyPath = InKeyRoot(name: KeyName) | Elsewhere(path: string)

  /** One entry of the registry file, before validation. */
  datatype RawRecord = RawRecord(
    interface: Device, listenPort: int, vpnPool: Text, serverAddress: Text,
    keyPath: KeyPath, publicKey: Key, routeProtocol: int)

  /** One validated entry. */
  datatype Record = Record(
    interface: Device, listenPort: int, vpnPool: Network, serverAddress: Interface,
    keyPath: KeyPath, publicKey: Key, routeProtocol: int)

  datatype RegistryError =
    | BadInterface | BadPort | BadAddress | NotIpv4 | PoolTooNarrow | ServerOutsidePool
    | BadKeyPath | BadPublicKey | BadProtocol
    | DuplicatePort | OverlappingPools
    | BadRequest | PortTaken | PoolTaken | PoolRouted | KeyMismatch | DefaultIsPermanent | PeersActive

  /** The pattern wg[0-9]+ of interface names. */
  predicate IsInterfaceName(d: Device) {
    d.Wg? && Decimal.IsNumeral(d.number)
  }

  function InterfaceIndex(d: Device): nat
    requires IsInterfaceName(d)
  {
    Decimal.Value(d.number)
  }

  function InterfaceName(n: nat): (d: Device)
    ensures IsInterfaceName(d) && InterfaceIndex(d) == n
  {
    Wg(Decimal.Numeral(n))
  }

  function KeyPathFor(d: Device): KeyPath
    requires IsInterfaceName(d)
  {
    InKeyRoot(TrunkKey(d.number))
  }

  predicate IsKeyPath(p: KeyPath) {
    p.InKeyRoot? && (p.name.ServerKey? || (p.name.TrunkKey? && Decimal.IsNumeral(p.name.number)))
  }

  /** What a validated record promises. */
  predicate RecordOk(r: Record) {
    && IsInterfaceName(r.interface)
    && 1 <= r.listenPort <= 65535
    && r.vpnPool.Valid() && r.vpnPool.len <= 24
    && r.serverAddress.Valid()
    && r.vpnPool.Contains(r.serverAddress.ip)
    && IsKeyPath(r.keyPath)
    && ValidKey(r.publicKey)
    && 1 <= r.routeProtocol <= 255
  }

  function NormalizeRecord(raw: RawRecord): (r: Result<Record, RegistryError>)
    ensures r.Ok? ==> RecordOk(r.value) && r.value.interface == raw.interface
  {
    if !IsInterfaceName(raw.interface) then Err(BadInterface)
    else if !(1 <= raw.listenPort <= 65535) then Err(BadPort)
    else if raw.vpnPool.Unparsable? || raw.serverAddress.Unparsable? then Err(BadAddress)
    else if raw.vpnPool.Ipv6? || raw.serverAddress.Ipv6? then Err(NotIpv4)
    else if !Parses(raw.vpnPool) || !Parses(raw.serverAddress) then Err(BadAddress)
    else
      var pool := ParseNetwork(raw.vpnPool);
      var server := ParseInterface(raw.serverAddress);
      if pool.len > 24 then Err(PoolTooNarrow)
      else if !pool.Contains(server.ip) then Err(ServerOutsidePool)
      else if !IsKeyPath(raw.keyPath) then Err(BadKeyPath)
      else if !ValidKey(raw.publicKey) then Err(BadPublicKey)
      else
        var protocol := if raw.routeProtocol == 0 then 186 else raw.routeProtocol;
        if !(1 <= protocol <= 255) then Err(BadProtocol)
        else Ok(Record(raw.interface, raw.listenPort, pool, server,
                       raw.keyPath, raw.publicKey, protocol))
  }

  function AsRaw(r: Record): RawRecord {
    RawRecord(r.interface, r.listenPort, Show(r.vpnPool), ShowInterface(r.serverAddress),
              r.keyPath, r.publicKey, r.routeProtocol)
  }

  /** The record that a raw entry stands for: a text with host bits names the network around its
      address, and an absent routing protocol is 186. */
  predicate Denotes(raw: RawRecord, r: Record) {
    && raw.interface == r.interface && raw.listenPort == r.listenPort
    && raw.vpnPool.Ipv4? && raw.vpnPool.len == r.vpnPool.len && r.vpnPool.Contains(raw.vpnPool.addr)
    && raw.serverAddress == Text.Ipv4(r.serverAddress.ip, r.serverAddress.len)
    && raw.keyPath == r.keyPath && raw.publicKey == r.publicKey
    && (raw.routeProtocol == r.routeProtocol || (raw.routeProtocol == 0 && r.routeProtocol == 186))
  }

  /** An entry normalizes to a record exactly when the record is well formed and the entry stands
      for it. */
  lemma NormalizeExactly(raw: RawRecord, r: Record)
    ensures NormalizeRecord(raw) == Ok(r) <==> RecordOk(r) && Denotes(raw, r)
  {
    if RecordOk(r) && Denotes(raw, r) {
      NetworkFits(r.vpnPool);
      NetworkAround(r.vpnPool, ParseNetwork(raw.vpnPool), raw.vpnPool.addr);
    }
  }

  /** A record is accepted unchanged exactly when it has the form that validation produces, so
      validating a second time never fails and never changes anything. */
  lemma NormalizeFixpoint(r: Record)
    ensures NormalizeRecord(AsRaw(r)) == Ok(r) <==> RecordOk(r)
  {
    if RecordOk(r) {
      ShowRoundTrip(r.vpnPool);
    }
  }

  lemma NormalizeIdempotent(raw: RawRecord)
    requires NormalizeRecord(raw).Ok?
    ensures NormalizeRecord(AsRaw(NormalizeRecord(raw).value)) == NormalizeRecord(raw)
  {
    NormalizeFixpoint(NormalizeRecord(raw).value);
  }
}

module Registry {
  import opened Seqs
  import opened Ipv4
  import opened Records

  type File = map<Device, RawRecord>
  type Instances = map<Device, Record>

  /** Two trunks that may be registered side by side. */
  predicate Compatible(a: Record, b: Record) {
    a.listenPort != b.listenPort && !Overlaps(a.vpnPool, b.vpnPool)
  }

  predicate ValidRegistry(reg: Instances) {
    && (forall n :: n in reg ==> reg[n].interface == n && RecordOk(reg[n]))
    && (forall m, n :: m in reg && n in reg && m != n ==> Compatible(reg[m], reg[n]))
  }

  type Entries = map<Device, Result<Record, RegistryError>>

  /** Every entry of the file, normalized under its own name. */
  function EntriesOf(file: File): Entries {
    map n | n in file :: NormalizeRecord(file[n].(interface := n))
  }

  predicate EntriesOk(entries: Entries) {
    && (forall n :: n in entries ==> entries[n].Ok?)
    && (forall m, n :: m in entries && n in entries && m != n ==>
          Compatible(entries[m].value, entries[n].value))
  }

  predicate FileOk(file: File) {
    EntriesOk(EntriesOf(file))
  }

  function Values(entries: Entries): Instances
    requires EntriesOk(entries)
  {
    map n | n in entries :: entries[n].value
  }

  function Loaded(file: File): (reg: Instances)
    requires FileOk(file)
    ensures ValidRegistry(reg)
  {
    Values(EntriesOf(file))
  }

  function Saved(reg: Instances): File {
    map n | n in reg :: AsRaw(reg[n])
  }

  /** Saving a valid registry and loading it again gives it back. */
  lemma SaveLoad(reg: Instances)
    ensures ValidRegistry(reg) ==> FileOk(Saved(reg)) && Loaded(Saved(reg)) == reg
  {
    if ValidRegistry(reg) {
      forall n | n in reg ensures EntriesOf(Saved(reg))[n] == Ok(reg[n]) {
        NormalizeFixpoint(reg[n]);
        assert Saved(reg)[n].(interface := n) == AsRaw(reg[n]);
      }
    }
  }

  /** The first `k` entries are acceptable so far. */
  ghost predicate Checked(entries: Entries, names: seq<Device>, k: int)
  {
    && 0 <= k <= |names|
    && (forall n :: n in names ==> n in entries)
    && (forall i :: 0 <= i < k ==> entries[names[i]].Ok?)
    && (forall i, j :: 0 <= i < j < k ==>
          Compatible(entries[names[i]].value, entries[names[j]].value))
  }

  lemma CheckedAll(entries: Entries, names: seq<Device>)
    requires Distinct(names) && (forall n :: n in names <==> n in entries)
    ensures Checked(entries, names, |names|) <==> EntriesOk(entries)
  {
    if Checked(entries, names, |names|) {
      forall m, n | m in entries && n in entries && m != n
        ensures entries[m].Ok? && entries[n].Ok?
        ensures Compatible(entries[m].value, entries[n].value)
      {
        var i :| 0 <= i < |names| && names[i] == m;
        var j :| 0 <= j < |names| && names[j] == n;
        if j < i {
          assert Compatible(entries[names[j]].value, entries[names[i]].value);
        }
      }
      forall n | n in entries ensures entries[n].Ok? {
        var i :| 0 <= i < |names| && names[i] == n;
      }
    }
  }

  /** What the three accumulators hold after `k` entries. */
  ghost predicate Collected(entries: Entries, names: seq<Device>, k: int,
                            ports: set<int>, pools: seq<Network>, normalized: Instances)
  {
    && Checked(entries, names, k)
    && ports == (set i | 0 <= i < k :: entries[names[i]].value.listenPort)
    && pools == seq(k, i requires 0 <= i < k => entries[names[i]].value.vpnPool)
    && normalized == map n | n in names[..k] :: entries[n].value
  }

  lemma CollectedStep(entries: Entries, names: seq<Device>, k: int,
                      ports: set<int>, pools: seq<Network>, normalized: Instances)
    requires k < |names| && Collected(entries, names, k, ports, pools, normalized)
    ensures Checked(entries, names, k + 1) <==>
            && entries[names[k]].Ok?
            && entries[names[k]].value.listenPort !in ports
            && forall q :: q in pools ==> !Overlaps(entries[names[k]].value.vpnPool, q)
    ensures Checked(entries, names, k + 1) ==>
            var record := entries[names[k]].value;
            Collected(entries, names, k + 1, ports + {record.listenPort},
                      pools + [record.vpnPool], normalized[names[k] := record])
  {
    if entries[names[k]].Ok? {
      var record := entries[names[k]].value;
      forall i | 0 <= i < k
        ensures Compatible(entries[names[i]].value, record) <==>
                record.listenPort != entries[names[i]].value.listenPort && !Overlaps(record.vpnPool, pools[i])
      {
        OverlapsSymmetric(record.vpnPool, pools[i]);
      }
      forall q | q in pools && Checked(entries, names, k + 1)
        ensures !Overlaps(record.vpnPool, q)
      {
        var i :| 0 <= i < k && pools[i] == q;
        assert Compatible(entries[names[i]].value, record);
      }
    }
  }

  /** Does the network meet one collected so far? */
  method MeetsAny(pool: Network, used: seq<Network>) returns (meets: bool)
    ensures meets <==> exists q :: q in used && Overlaps(pool, q)
  {
    for i := 0 to |used|
      invariant forall j :: 0 <= j < i ==> !Overlaps(pool, used[j])
    {
      if Overlaps(pool, used[i]) {
        return true;
      }
    }
    return false;
  }

  /** The checks of one iteration against the collected ports and pools. */
  method RefuseEntry(entry: Result<Record, RegistryError>, ports: set<int>, pools: seq<Network>)
    returns (refusal: Option<RegistryError>)
    ensures refusal.None? <==>
            && entry.Ok?
            && entry.value.listenPort !in ports
            && forall q :: q in pools ==> !Overlaps(entry.value.vpnPool, q)
  {
    if entry.Err? {
      return Some(entry.error);
    }
    if entry.value.listenPort in ports {
      return Some(DuplicatePort);
    }
    var meets := MeetsAny(entry.value.vpnPool, pools);
    return if meets then Some(OverlappingPools) else None;
  }

  /** validate_registry: comparing each entry with the collected ports and pools amounts to
      comparing every pair. */
  method ValidateRegistry(file: File) returns (r: Result<Instances, RegistryError>)
    ensures r.Ok? <==> FileOk(file)
    ensures r.Ok? ==> r.value == Loaded(file)
  {
    var names := Listing(file.Keys);
    ghost var entries := EntriesOf(file);
    CheckedAll(entries, names);
    var usedPorts: set<int> := {};
    var usedPools: seq<Network> := [];
    var normalized: Instances := map[];
    for k := 0 to |names|
      invariant Collected(entries, names, k, usedPorts, usedPools, normalized)
    {
      CollectedStep(entries, names, k, usedPorts, usedPools, normalized);
      var entry := NormalizeRecord(file[names[k]].(interface := names[k]));
      var refusal := RefuseEntry(entry, usedPorts, usedPools);
      if refusal.Some? {
        CheckedShorter(entries, names, k + 1);
        return Err(refusal.value);
      }
      usedPorts := usedPorts + {entry.value.listenPort};
      usedPools := usedPools + [entry.value.vpnPool];
      normalized := normalized[names[k] := entry.value];
    }
    CollectedAll(entries, names, usedPorts, usedPools, normalized);
    r := Ok(normalized);
  }

  lemma CollectedAll(entries: Entries, names: seq<Device>, ports: set<int>, pools: seq<Network>,
                     normalized: Instances)
    requires Distinct(names) && (forall n :: n in names <==> n in entries)
    requires Collected(entries, names, |names|, ports, pools, normalized)
    ensures EntriesOk(entries) && normalized == Values(entries)
  {
    CheckedAll(entries, names);
    assert names[..|names|] == names;
  }

  lemma CheckedShorter(entries: Entries, names: seq<Device>, k: int)
    requires 0 <= k <= |names|
    ensures Checked(entries, names, |names|) ==> Checked(entries, names, k)
  {
  }
}
