# VPNHub in Dafny

VPNHub is a portal and a root controller. The portal keeps trunks, Sites, Networks and Peers in a
database; the controller turns the desired state of that database into WireGuard configurations,
kernel routes and one nftables table. This project models that path from end to end and proves what
it promises.

| file | what it models |
|---|---|
| Seqs.dfy, Decimal.dfy | sequences, options and results, numerals |
| Ipv4.dfy | networks as base and prefix length (section 3.1 of RFC 4632), `overlaps`, parsing |
| Registry.dfy | registry records, `normalize_record`, `validate_registry` |
| Provisioning.dfy | `next_interface`, `provision_instance`, `unprovision_instance`, runs of them |
| Validation.dfy, ValidationFacts.dfy | the payload, `validate_state`, what acceptance means |
| Nftables.dfy | the policy compiler `render_nftables`, the meaning of its ruleset, the isolation policy |
| Kernel.dfy | the host: links, routes, nft table, and the commands that change them and may fail |
| SyncSpec.dfy, Sync.dfy | `perform_sync` with its snapshot and rollback, and its specification on values |
| Rerun.dfy | synchronizing again: route conflicts after a run, idempotence |
| Ipam.dfy | the three allocators |
| Database.dfy | the tables, `desired_state`, and the payload's text form |
| PortalInvariant.dfy, Acceptance.dfy | the address plan, and that it is always accepted by the controller |
| Portal.dfy, PortalRuns.dfy | the handlers as transitions, and runs of them |
| TrunkCreation.dfy | provisioning a trunk on a live host |
| Confinement.dfy | isolation of Sites, on states |
| ClientConfig.dfy | client AllowedIPs against the firewall's sets; loadable interval sets |
| Hub.dfy | the database session, `_commit_with_reconcile`, and the handlers that use it |
| EndToEnd.dfy | isolation of Sites on the host, over any run of requests |
| Configuration.dfy | what is sent and what the links are configured with, row by row; deleted and replaced keys |
| Examples.dfy | inputs on which the code does less than it seems |

## How the model reads the code

- Text that `ipaddress` parses is a `Text` value: unparsable, IPv6, or an address with a length. Host
  bits are cleared as with `strict=False`. `Overlaps` is the library's test of the four endpoints.
- Interface names and key paths are values: "wg" with a numeral or other text, and a file name in
  /etc/wireguard or a path elsewhere. Two names with the same number, such as wg01 and wg1, differ.
- A WireGuard key is an identity and the length it decodes to; `wg pubkey` is a function.
- A checked command may fail at any point, before or after its effect; which one does is an arbitrary
  function of the command's number. The same holds for the flush, the reply and the commit.
- The route table has one stored route per destination. Connected routes follow from the addresses of
  the links that are up and are listed with the others. A link that loses its last address loses its
  routes; flushing a link without addresses changes nothing.
- A host may print names for some protocol numbers; which ones is part of its state.

## Assumptions

- A command run with `check=False` fails only when the kernel refuses it (a missing link, an address
  that is already there). What `wg showconf`, `ip` and `nft` report is complete.
- Generated keys are well formed and not yet in use. Requests are handled one at a time.
- The unique constraints of vpnhub/models.py hold for committed rows.

## Where the code does less than it seems

- `network_new` compares a new Network with those of its own Site by equality only; the controller
  refuses the candidate when they overlap (`PortalRuns.PortalChecksSuffice` gives the exact condition,
  `Examples.CrowdedSiteExample` an input).
- `instance_new` does not compare a new pool with any Network. On a host that carries the database
  the controller makes up for it when it provisions the trunk, because every Network has a route there
  (`TrunkCreation.CreatedTrunkAccepted`). Only where those routes are missing, as in a dry run, does
  the candidate arise and get refused (`PortalRuns.PortalChecksSuffice`, `Examples.ClashingPoolExample`).
- The rollback message of `perform_sync` says that the previous state was restored. That is guaranteed
  exactly when the registered links were up and carried managed routes only
  (`SyncSpec.RollbackGuaranteed`; inputs: `Examples.DownLinkComesUp`, `Examples.ForeignRouteIsLost`).
  `ip_forward` is not put back (`Sync.PerformSync`).
- The conflict check compares protocol numbers with the text that `ip` prints. On a host where `ip`
  has a name for the protocol of the trunks (iproute2 knows 186, the default, as "bgp"), the second
  run of any payload with a Network is refused (`Examples.ProtocolNameBlocksRerun`, and exactly when:
  `Rerun.SecondRunAccepted`).
- If wg0 was bootstrapped with the key file of a later trunk, two trunks share a key file
  (`Provisioning.SharedKeyFile`, and exactly then: `Provisioning.SharingIsExact`).
- A server address whose network is wider than its pool can make the second run of a payload fail on
  the trunk's own connected route (`Examples.WideServerNetworkBlocksRerun`, and exactly when:
  `Rerun.SecondRunAccepted`).
- Set names contain ids only, so two Sites with one id would reach each other
  (`Nftables.SharedSiteIdLeaks`); primary keys exclude it.

## Model

| member | source | states |
|---|---|---|
| Ipv4.OverlapsMeansShared | controller/vpnhub-controller.py:322-327 | the endpoint test of `overlaps` holds exactly when some address is in both networks |
| Ipv4.DisjointOrNested | controller/vpnhub-controller.py:316-329 | two networks share no address, or one contains the other |
| Ipv4.ShowRoundTrip | controller/vpnhub-controller.py:156-166 | the text of a network parses back to the same network |
| Records.NormalizeFixpoint | controller/registry.py:94-189 | a record is returned unchanged exactly when it already meets all conditions of a validated record |
| Records.NormalizeExactly | controller/registry.py:94-189 | an entry normalizes to a record exactly when the record is well formed and the entry stands for it: the same port, key file and key, the network of that length around the pool text's address, the server address, and protocol 186 where none is given |
| Records.NormalizeIdempotent | controller/registry.py:94-189 | normalizing a normalized record succeeds and changes nothing |
| Registry.ValidateRegistry | controller/registry.py:192-220 | the accumulating loop accepts exactly the files whose entries normalize and whose ports and pools differ pairwise, and returns the normalized entries |
| Registry.SaveLoad | controller/registry.py:57-91 | a valid registry that is saved loads again as itself |
| Provisioning.NextInterface | controller/registry.py:223-237 | the search loop ends for every registry and yields the name `NextName` |
| Provisioning.NextNameIsLeastFree | controller/registry.py:223-237 | that name is new, is not wg0, has the smallest free positive number, which exceeds the number of trunks by at most one |
| Provisioning.IncrementalCheckSuffices | controller/vpnhub-controller.py:1470-1521 | adding the new record keeps the registry valid exactly when `_validate_new_pool` passes against the registered trunks |
| Provisioning.NewRecordNormalizes | controller/vpnhub-controller.py:1589-1601 | the new record normalizes to itself exactly when the route protocol is in range |
| Provisioning.RegistrySafeOverRuns | controller/vpnhub-controller.py:1524-1668 | over every run of provisioning and unprovisioning the registry stays valid, wg0 stays as it was, and no two trunks share a key file |
| Provisioning.SharingIsExact | controller/vpnhub-controller.py:1584-1601 | provisioning makes two trunks share a key file exactly when wg0 already uses the new trunk's path |
| Provisioning.SharedKeyFile | scripts/bootstrap-controller-registry.py:33-76 | a concrete bootstrap and request after which two trunks share a key file |
| Provisioning.UnprovisionUndoesProvision | controller/vpnhub-controller.py:1603-1658 | unprovisioning a trunk just provisioned gives back the registry |
| Provisioning.Store.EnsurePrivateKey | controller/registry.py:240-283 | a a missing key file receives the generated key, an existing one is kept, and the public key of what is stored is returned |
| Provisioning.Store.FindMatching | controller/vpnhub-controller.py:1448-1467 | returns a registered record with the requested port, pool and address, or none exists |
| Provisioning.Store.ValidateNewPool | controller/vpnhub-controller.py:1470-1521 | passes exactly when port and pool are new among the trunks and no host route but the default meets the pool |
| Provisioning.Store.Provision | controller/vpnhub-controller.py:1524-1612 | creates a trunk exactly for an admissible new request and adds precisely its record; a request that matches a registered record returns it unchanged as long as its key file fits, and fails otherwise; no key file is overwritten |
| Provisioning.ProvisionTwice | controller/vpnhub-controller.py:1562-1606 | the same request a second time succeeds with the record of the first and changes nothing |
| Provisioning.Store.Save | controller/vpnhub-controller.py:1602-1606 | after a checked change `validate_registry` cannot fail, and the file then holds that registry |
| Provisioning.Store.Unprovision | controller/vpnhub-controller.py:1615-1668 | answers "removed" exactly for a registered trunk other than wg0 without active Peers in a valid registry; then exactly the trunk and its key file are gone, and no key another trunk uses; otherwise nothing changes |
| Provisioning.ProvisionAndRemove | vpnhub/routes.py:281-291 | a trunk created and then unprovisioned, as a failing `instance_new` does: the registered trunks and all other key files are as before, the new one is gone |
| Validation.CheckPeers | controller/vpnhub-controller.py:222-247 | passes exactly when no two Peers share a key or an AllowedIPs address |
| Validation.NormalizeInstance | controller/vpnhub-controller.py:171-272 | accepts a trunk exactly when it equals its registered record, its lists parse and its Peers are separate |
| Validation.CheckPools | controller/vpnhub-controller.py:316-329 | the loop that grows `pools` passes exactly when all pools are pairwise disjoint |
| Validation.CheckRoutes | controller/vpnhub-controller.py:331-356 | the loop that grows `routed` passes exactly when all routed Networks are pairwise disjoint and meet no pool |
| Validation.ValidateState | controller/vpnhub-controller.py:275-363 | accepts exactly the payloads that meet the declarative predicate, and returns them sorted by id |
| Validation.SortSorts | controller/vpnhub-controller.py:358-363 | the returned order is by id and loses no trunk |
| ValidationFacts.AcceptanceIgnoresOrder | controller/vpnhub-controller.py:275-363 | acceptance does not depend on the order of the trunks |
| ValidationFacts.DevicesDistinct | controller/vpnhub-controller.py:316-329 | a trunk listed twice is refused only because its pool overlaps itself |
| ValidationFacts.AcceptedMatchesRegistry | controller/vpnhub-controller.py:289-314 | an accepted state has each registered trunk once, with its registered record |
| ValidationFacts.AcceptedNamesOnce | controller/vpnhub-controller.py:289-314 | an accepted payload names exactly the registered interfaces, each once |
| Nftables.RenderNftables | controller/vpnhub-controller.py:542-657 | the appending loops produce the compiled ruleset, preceded by a deletion exactly when a table exists |
| Nftables.ForwardCorrect | controller/vpnhub-controller.py:610-649 | first-match evaluation of the forward chain equals the isolation policy on every packet |
| Nftables.InputCorrect | controller/vpnhub-controller.py:594-608 | the input chain drops exactly what enters a trunk from a non-Admin address |
| Nftables.ChainMeaning | controller/vpnhub-controller.py:615-649 | however many trunks precede the deciding block, the chain decides as the policy does |
| Nftables.DeclMeaning | controller/vpnhub-controller.py:557-592 | with distinct ids every set name denotes the elements of its one declaration |
| Nftables.SharedSiteIdLeaks | controller/vpnhub-controller.py:588-592 | with a shared Site id the compiled chain accepts a packet that the policy drops |
| Host.ExecKeepsOutside | controller/vpnhub-controller.py:833-889 | a command on some devices leaves the links and routes of all others as they are |
| Host.Kernel.Run | controller/vpnhub-controller.py:49-64 | a command has its effect when it succeeds; when a checked one fails it had that effect or none; devices outside the given ones are untouched |
| Host.Kernel.HostRoutes | controller/vpnhub-controller.py:366-377 | lists exactly the stored and the connected routes |
| Sync.CheckRouteConflicts | controller/vpnhub-controller.py:380-443 | passes exactly when no wanted destination overlaps a protected row, where a row's protocol is the text that `ip` prints |
| Sync.PrepareFiles | controller/vpnhub-controller.py:683-730 | yields the configuration of every enabled trunk and a table that loads, and changes nothing |
| Sync.EnsureKernelState | controller/vpnhub-controller.py:446-475 | on success the link exists, is up and has the server address added |
| Sync.ApplyRoutes | controller/vpnhub-controller.py:833-860 | on success the trunk's managed routes are replaced by its routes, taking them from whoever held them |
| Sync.DeactivateInstance | controller/vpnhub-controller.py:863-889 | the link and every route through it are gone |
| Sync.Apply | controller/vpnhub-controller.py:1206-1227 | on success links, routes, table and forwarding are those of the state; on failure nothing outside the registry has changed |
| Sync.CaptureRuntimeState | controller/vpnhub-controller.py:733-830 | the snapshot holds existence, configuration, addresses and managed routes of every trunk, and the table |
| Sync.RestoreInterface | controller/vpnhub-controller.py:892-1015 | whatever the interface looked like, it is put back from the snapshot |
| Sync.RestoreRuntimeState | controller/vpnhub-controller.py:1018-1057 | from any partial state that differs only inside the registered devices and has no foreign route that was not there, the host is rolled back |
| Sync.PerformSync | controller/vpnhub-controller.py:1170-1277 | every run changes nothing, synchronizes completely, or rolls back; devices outside the registry are untouched in every outcome; after a rollback the forwarding switch stays on once its command has had its effect |
| SyncSpec.SyncedStep | controller/vpnhub-controller.py:1213-1225 | activating or deactivating one more trunk extends the synchronized part, even when it takes a prefix from another trunk |
| SyncSpec.WantedIsFree | controller/vpnhub-controller.py:380-443 | after the conflict check no wanted destination belongs to a route outside the registry |
| SyncSpec.RestoredIsRolledBack | controller/vpnhub-controller.py:1018-1057 | restoring every registered interface, with nothing outside changed, determines links, table and all routes, except a foreign route on a trunk's device that had no address |
| SyncSpec.RollbackExactness | controller/vpnhub-controller.py:892-1015 | a rolled-back host is as it was exactly when the registered links were up and every foreign route on them stayed; on a link with an address none stays |
| SyncSpec.RollbackGuaranteed | controller/vpnhub-controller.py:892-1015 | whatever command failed, the rollback gives back the host exactly when the registered links were up and carried managed routes only |
| Examples.DownLinkComesUp | controller/vpnhub-controller.py:892-1015 | a concrete host with wg0 down that no rollback of an accepted payload gives back |
| Examples.ForeignRouteIsLost | controller/vpnhub-controller.py:892-1015 | a concrete host with a foreign route on wg0, which no rollback of an accepted payload gives back |
| Examples.ForeignRouteIsLostAgain | controller/vpnhub-controller.py:892-1015 | on that host a second run that fails does not give back what the first left |
| SyncSpec.AppliedRealizes | controller/vpnhub-controller.py:1213-1227 | after success the managed routes of each enabled trunk are exactly the desired ones, none is left on a disabled one, and the table is the compiled one |
| SyncSpec.RealizesRestored | controller/vpnhub-controller.py:1229-1237 | a rollback keeps the host in agreement with the state it carried before |
| Rerun.SecondRunChangesNothing | controller/vpnhub-controller.py:1170-1227 | a second run of the same payload that succeeds leaves the host unchanged |
| Rerun.FailedRerunKeeps | controller/vpnhub-controller.py:892-1015 | a second run that fails rolls back to what the first left, exactly when the first found only managed or wanted routes on the trunks' devices |
| Rerun.SecondRunAccepted | controller/vpnhub-controller.py:380-443 | after a success the payload passes the conflict check exactly when none of its Networks meets the network of a server address, or of an address a trunk's link had while it was down, and `ip` prints no foreign name for the protocol of its routes |
| Examples.ProtocolNameBlocksRerun | controller/vpnhub-controller.py:380-402 | where `ip` calls protocol 186 "bgp", a concrete payload is accepted on an empty host and refused after its first success |
| Rerun.AcceptedAfter | controller/vpnhub-controller.py:380-443 | the same for any payload of the registry after the run of any other |
| Rerun.RepeatedRunAccepted | controller/vpnhub-controller.py:380-443 | when each server network lies inside its pool, the host prints protocol numbers and no trunk's link was down, a second run is never refused, whatever other addresses the links have |
| Rerun.SyncTwice | controller/vpnhub-controller.py:1170-1277 | two runs of one payload: when the second is refused, that it changes nothing when it succeeds, and what it leaves when it fails |
| Examples.WideServerNetworkBlocksRerun | controller/vpnhub-controller.py:404-443 | the payload of a concrete planned database, accepted on an empty host and refused after its first success |
| Ipam.AllocateSiteCidr | vpnhub/ipam.py:17-34 | the search yields the first free Site block |
| Ipam.SubnetInPool | vpnhub/ipam.py:6-14 | the /24 blocks are networks inside the pool |
| Ipam.SubnetsDisjoint | vpnhub/ipam.py:6-14 | different blocks share no address |
| Ipam.SiteBlockIsLowestFree | vpnhub/ipam.py:17-34 | the lowest free block is allocated, and allocation fails exactly when all 2^(24-p)-1 are taken |
| Ipam.AllocateHost | vpnhub/ipam.py:37-50 | the search yields the first free host from .10 |
| Ipam.AllocateAdminIp | vpnhub/ipam.py:53-70 | the same search in the first block of the pool |
| Ipam.HostIsLowestFree | vpnhub/ipam.py:37-70 | the lowest free address from .10 to .254 is allocated, and allocation fails exactly when all 245 are taken |
| Database.BuildTrunkState | vpnhub/sync.py:34-128 | the loops build the trunk's Peers, Sites, Admin addresses and routes |
| Acceptance.AllowedIpIs | vpnhub/sync.py:24-31 | a Peer owns its address, and a gateway also exactly the Networks of its Site |
| Database.WireRoundTrip | vpnhub/sync.py:110-137 | a trunk state written to the payload is accepted by the controller and read back unchanged |
| PortalInvariant.SitesDisjoint | vpnhub/ipam.py:17-34 | in a planned database no two Site blocks share an address |
| PortalInvariant.AddressesUnique | vpnhub/ipam.py:37-70 | all Peer and Admin addresses differ, and none is the server address that `instance_new` chooses |
| Acceptance.PeersDoNotShare | vpnhub/sync.py:24-31 | AllowedIPs of different Peers never overlap |
| Acceptance.PlannedIsAccepted | vpnhub/sync.py:131-141 | the controller accepts the desired state of every planned database whose trunks are registered, and reads it back |
| Acceptance.AcceptedMatches | vpnhub/sync.py:131-141 | a registry that accepts the desired state of a planned database has exactly its trunks |
| Portal.AddSiteOutcome | vpnhub/routes.py:338-363 | `site_new` fails exactly for a missing name or trunk, a taken name or an exhausted pool, and otherwise adds one Site with the lowest free /24 of the pool but the first |
| Portal.AddPeerOutcome | vpnhub/routes.py:511-543 | `peer_new` fails exactly for a missing Site, a second gateway or 245 taken addresses, and otherwise adds one Peer with the lowest free address |
| Portal.AddAdminOutcome | vpnhub/routes.py:695-722 | `admin_peer_new` fails exactly for a missing trunk or 245 taken addresses, and otherwise adds one Admin Peer with the lowest free address of the first block |
| Portal.AddNetworkOutcome | vpnhub/routes.py:402-463 | `network_new` fails exactly for a missing Site, a text that is no network, an address shared with a pool or with a Network of another Site, or a repetition, and otherwise adds this one Network |
| Portal.AddTrunkOutcome | vpnhub/routes.py:208-278 | `instance_new` adds exactly one enabled trunk with the provisioned record, unless its interface or port is taken or its pool shares an address with another |
| Portal.DeletePeerOutcome | vpnhub/routes.py:679-687 | `peer_delete` removes exactly this Peer; every other row and table stays |
| Portal.DeleteAdminOutcome | vpnhub/routes.py:854-864 | `admin_peer_delete` removes exactly this Admin Peer |
| Portal.DeleteNetworkOutcome | vpnhub/routes.py:483-492 | `network_delete` removes exactly this Network |
| Portal.DeleteSiteOutcome | vpnhub/routes.py:389-398 | `site_delete` removes exactly this Site, its Networks and its Peers |
| Portal.RekeyPeerOutcome | vpnhub/routes.py:635-661 | `peer_rekey` gives exactly this Peer the new key and preshared key, at its place in the table, and keeps its Site, type and address; the former key is in no row |
| Portal.RekeyAdminOutcome | vpnhub/routes.py:808-850 | `admin_peer_rekey` does the same for an Admin Peer |
| Portal.SiteKeepsInv | vpnhub/routes.py:338-367 | a new Site keeps the address plan |
| Portal.NetworkKeepsInv | vpnhub/routes.py:402-463 | a new Network keeps the plan exactly when it meets no other Network of its Site |
| Portal.PeerKeepsInv | vpnhub/routes.py:497-547 | a new Peer keeps the plan |
| Portal.AdminKeepsInv | vpnhub/routes.py:695-722 | a new Admin Peer keeps the plan |
| Portal.TrunkKeepsInv | vpnhub/routes.py:208-278 | a new trunk keeps the plan exactly when its pool meets no Network |
| Portal.ShrinkingKeepsInv | vpnhub/routes.py:389-398 | deleting rows with what depends on them keeps the plan |
| Portal.RekeyPeerKeepsInv | vpnhub/routes.py:635-661 | new credentials keep the plan |
| PortalRuns.PortalChecksSuffice | vpnhub/routes.py:338-722 | the controller accepts the candidate of every operation, except exactly a Network that meets another of its Site and a trunk whose pool meets a Network |
| TrunkCreation.ProvisionOn | controller/vpnhub-controller.py:1502-1521 | a trunk is created exactly when, among other things, no listed route of the host but the default meets its pool |
| TrunkCreation.UnlistedPoolIsClear | controller/vpnhub-controller.py:1502-1521 | on a host that carries the database such a pool meets no Network |
| TrunkCreation.CreatedTrunkAccepted | vpnhub/routes.py:255-278 | a trunk created on such a host is accepted by the portal and, with the new registry, by the controller |
| Examples.CrowdedSiteExample | vpnhub/routes.py:434-453 | a concrete planned database and Network that pass `network_new` and that every registry refuses |
| Examples.ClashingPoolExample | vpnhub/routes.py:231-252 | a concrete planned database and trunk that pass `instance_new` and that every registry refuses |
| PortalRuns.CrowdedSiteIsRefused | controller/vpnhub-controller.py:331-345 | a Network nested in another of its own Site is refused by the controller |
| PortalRuns.ReachableIsPlanned | vpnhub/routes.py:178-865 | the address plan holds in every database reached from an installation by any run |
| PortalRuns.ProvisionedTrunkFits | vpnhub/routes.py:255-278 | a provisioned trunk passes the portal's checks, and database and registry match again |
| PortalRuns.OrphanBlocksSync | controller/vpnhub-controller.py:289-314 | a trunk that is registered but not in the database makes every synchronization fail |
| Confinement.SiteUnique | vpnhub/sync.py:95-108 | an address belongs to the ranges of one Site at most |
| Confinement.PeerWithinSite | vpnhub/sync.py:24-31 | a Peer owns addresses of its own Site only |
| Confinement.DeliveryExact | controller/vpnhub-controller.py:610-649 | a packet between two configured Peers is accepted exactly when both belong to the same trunk and it goes from a Site to itself, from an Admin Peer to a Site, or from a Site to an Admin Peer on established traffic |
| Confinement.PermittedExact | controller/vpnhub-controller.py:615-649 | between the owners of two addresses of one trunk the sets permit exactly those three cases |
| Confinement.HubReachExact | controller/vpnhub-controller.py:594-608 | a Peer reaches the hub itself through its trunk exactly when it is an Admin Peer |
| Confinement.ReachableConfinement | README.md:114-127 | the same equivalence in every database reached by any run |
| EndToEnd.HostConfinesSites | README.md:114-127 | on a host that carries a planned database, the loaded table accepts a packet of a Site's Peer exactly when its owner is a Peer of that Site, or an Admin Peer of that trunk on established traffic |
| EndToEnd.HostAdminsReachSites | README.md:114-127 | and a packet of an Admin Peer exactly when its owner is a Site Peer of that trunk |
| EndToEnd.HostKeepsTrunksApart | README.md:114-127 | on such a host nothing passes between a trunk and any other device |
| EndToEnd.HostReachedByAdmins | README.md:114-127 | a packet of a configured Peer reaches the hub itself exactly when the Peer is an Admin Peer of that trunk |
| EndToEnd.AgreementIsolates | vpnhub/sync.py:131-141 | all of this isolation (Sites, Admins, crossing traffic, the hub) on every host that agrees with a planned database |
| Configuration.PayloadIsTheDatabase | vpnhub/sync.py:34-128 | trunk k of the payload is instance k of the database: every Peer and Admin Peer row of the trunk has an entry with its key, its preshared key, its kind and exactly its addresses, every entry is one of these rows, and Sites, Admin addresses and routes are exactly those of its rows |
| Configuration.AgreementServes | controller/vpnhub-controller.py:478-521 | on every host that agrees with a planned database each trunk's link is up with its server address, its port and the key of its key file; every Peer and Admin Peer row of the trunk is configured there with its key, preshared key and exactly its addresses; every configured Peer is exactly one row; and its routes are exactly its Networks |
| Configuration.GoneKeyIsOffHost | controller/vpnhub-controller.py:502-517 | a key in no row is on no trunk's link of such a host |
| Configuration.DeletedPeerIsOff | vpnhub/routes.py:679-687 | a host that agrees after `peer_delete` has the Peer's key on no trunk |
| Configuration.DeletedAdminIsOff | vpnhub/routes.py:854-864 | nor an Admin Peer's after `admin_peer_delete` |
| Configuration.DeletedSiteIsOff | vpnhub/routes.py:389-398 | nor any of the Site's Peers after `site_delete` |
| Configuration.RekeyedPeerIsOn | vpnhub/routes.py:635-661 | a host that agrees after `peer_rekey` has the former key on no trunk, and the new key with the new preshared key on the Peer's trunk |
| Configuration.RekeyedAdminIsOn | vpnhub/routes.py:808-850 | the same after `admin_peer_rekey` |
| Configuration.CompletedDelete | vpnhub/routes.py:70-85 | when the handler of a deletion has completed, outside a dry run, the host it leaves does not know the Peer's key |
| Configuration.CompletedRekey | vpnhub/routes.py:635-669 | when `peer_rekey` has completed, the host it leaves has the new keys and not the former one |
| EndToEnd.TraceFollows | vpnhub/routes.py:63-85 | after any run of requests, whatever fails, the host carries the committed database, or the candidate of a request whose reply was lost or whose commit failed and whose restoring reconcile failed |
| EndToEnd.TraceAgrees | vpnhub/routes.py:63-85 | when no reply is lost and no commit fails, the host agrees with the committed database after every run, whatever commands fail |
| EndToEnd.TraceFits | vpnhub/routes.py:63-85 | where commands work and a second run is never refused, the host agrees with the committed database after every run, whatever replies are lost and commits fail |
| EndToEnd.RunIsolates | README.md:114-127 | after any run of requests the host isolates the Sites of the database it carries, and those of the committed one unless a reply is lost or a commit fails |
| EndToEnd.Serve | vpnhub/routes.py:338-865 | requests handled one after the other, including those that fail in their try block and reconcile, make such a run |
| ClientConfig.RenderAdminAllowed | vpnhub/wireguard.py:74-93 | the loop collects the server address and all Site ranges without repetition |
| ClientConfig.AdminConfigAgrees | vpnhub/wireguard.py:74-93 | an Admin configuration routes exactly the server address and the addresses of the trunk's `sites_<id>` |
| ClientConfig.SiteConfigAgrees | vpnhub/wireguard.py:49-59 | a Site client's configuration routes exactly the addresses of its `site_<id>` |
| ClientConfig.GatewayConfigCovers | vpnhub/wireguard.py:52-53 | a gateway's configuration routes exactly the pool of its trunk |
| ClientConfig.PlannedIsLoadable | controller/vpnhub-controller.py:524-592 | no rendered interval set of a planned database has overlapping elements |
| Hub.RollbackKeepsAgreement | controller/vpnhub-controller.py:1229-1237 | a failed synchronization leaves the host in agreement with the database it carried |
| Hub.FailureKeepsAgreements | controller/vpnhub-controller.py:1229-1237 | the same for every database, whatever the failure |
| Hub.SuccessAgrees | vpnhub/sync.py:140-141 | after a successful synchronization the host carries the session's desired state |
| Hub.HandledIsStep | vpnhub/routes.py:70-85 | a handler leaves the previous database or the accepted candidate, and the plan holds |
| Hub.PlannedPasses | vpnhub/sync.py:140-141 | for a planned, registered database only a route conflict or a missing private key speaks against its synchronization |
| Hub.AppliedKeepsFits | controller/vpnhub-controller.py:404-443 | with server networks inside pools, a synchronization never makes another database impossible to synchronize |
| Hub.CommitCancelled | vpnhub/routes.py:76-85 | what two reconciles in a row, the second of the previous database, do to the host |
| Hub.FailsInTryExactly | vpnhub/routes.py:511-556 | for a fresh key, a request fails inside its try block exactly when its Site's or trunk's 245 addresses are taken (for a Site, unless a second gateway is refused first); no deletion and no new Site or Network does |
| Hub.CompletedExactly | vpnhub/routes.py:70-85 | where commands work, an operation is completed exactly when it has a candidate, the controller has nothing to refuse, no route conflicts, no key is missing and no mishap occurs |
| Hub.Session.Reconcile | vpnhub/sync.py:140-141 | success means agreement with the session, and an effective synchronization is reported as success unless the reply is lost; failure preserves whatever was carried; where commands work it succeeds exactly when nothing speaks against the payload |
| Hub.Session.CommitWithReconcile | vpnhub/routes.py:63-85 | a cancelled operation leaves the database unchanged; the host then carries a candidate that was not committed only if a reply was lost or the commit failed, and the restoring reconcile failed; where commands work only a mishap or a refusal cancels, and the host is restored |
| Hub.Session.CheckNetwork | vpnhub/routes.py:420-453 | the two loops pass exactly when the Network meets no pool, equals none of its Site and meets none of another Site |
| Hub.Session.Handle | vpnhub/routes.py:338-865 | every handler commits its accepted candidate or nothing, keeps the plan, and does to the host what `_commit_with_reconcile` does; a request that fails in its try block reconciles the committed database, any other without a candidate leaves the host alone; where commands work it completes exactly the operations named above |

## Left out

- Sorting of address lists: `sorted(set(…))` is modelled as removing repetitions in first-seen order; no property depends on the order. Trunks are sorted by id.
- Which message a failure carries: validation and commands fail with a reason, but the contracts say only when they fail.
- Rendered text, temporary files, JSON, sockets, SO_PEERCRED, fsync and file modes.
- Registry.ValidateRegistry: interface names are taken without surrounding blanks, which the source strips from a name but not from its key in the file (controller/registry.py:94-95, 215); a file with such keys is refused here.
- The reads of the controller (`ip route show`, `nft list table`, `wg showconf`) are assumed to succeed.
- firewalld, which is configured after the apply block. It produces warnings; the one command that can fail there (controller/vpnhub-controller.py:1082-1088) leaves the host changed and unrestored, and reaches the portal as a reply lost after the effect, which `Hub.Session.Reconcile` models.
- IPv6 and `translated_cidr`, which no handler sets; disabling Sites, Peers or trunks, which no handler does.
- `instance_new` on the host: its effect on the database and the registry is modelled, and its failure path unprovisions instead of reconciling. The runs of Hub.dfy and EndToEnd.dfy consist of the other operations.
- Sub-path resolution of key files: paths are taken as resolved.
- The kernel half of `unprovision_instance` is `Sync.DeactivateInstance`; the registry half does not repeat it.
- Generation of keys, Fernet encryption of preshared keys, and the text of client configurations beyond AllowedIPs.
- One id sequence serves all tables; only its freshness is used.
- Login, sessions, templates, status telemetry, migrations and installation scripts, except the registry's bootstrap as initial state.
