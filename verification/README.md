# The control plane of an EC2-like service, modelled and proved

This project models the control-plane state machines of the service and proves what they keep:
the two-level address allocator, the provisioning saga with its lease ledger, the agent rollout,
the substitution of template parameters, the autoscaler, the volume operations, the host registry
and the scheduler. `dafny verify dfyconfig.toml` checks everything.

## How it is modelled

The database is a set of in-memory tables; the `WHERE` clauses and `UNIQUE` constraints are the
guards of its statements. Calls into libvirt, ssh, HTTP and S3 are outcomes: parameters named
`io`, `ok`, `works` or gathered in `...IO` and `...Calls` records, over which every theorem
quantifies. Fresh ids, clocks and the list order of ties come from outside in the same way.

Concurrent code is a deterministic machine, `Step(state, event)`, where an event whose thread is
not at that point changes nothing; `Run` folds it over any sequence of events. A theorem about
`Run` for all sequences therefore speaks about every interleaving with every outcome. Where the
source works by changing things step by step there is also a class or a method with loops, proved
against the same functions:

| part | machine and theorems | objects and loops |
|---|---|---|
| address allocator | `VpcTables`, `AddressAllocator`, `AllocatorTheorems` | `Cidr`, `Provisioner`, `VpcService` |
| template parameters | `UserData` | `UserData.ReplaceParameters` |
| agent rollout | `Rollout`, `RolloutTheorems`, `RolloutStatus`, `RolloutReports` | `RolloutStatus.RolloutRepository` |
| instance saga | `InstanceSaga`, `SagaInvariant`, `SagaTheorems` | `InstanceLifecycle` |
| move to another VPC | `InstanceMove` | `InstanceMoveService` |
| autoscaler | `ScaleOutBound`, `ScaleOutRuns` | `Autoscaler` |
| volumes | `Volumes`, `VolumeRaces`, `VolumeTurns` | `VolumeService` |
| hosts | `Hosts`, `Scheduler` | `Scheduler.HostService` |

`Text`, `Ipv4`, `Wrappers` and `Instances` hold what the others share: decimal text, splitting and
joining, addresses and their texts, results, statuses.

## What the proofs found

- Soft deletes never free a CIDR block. The list a create reads ignores deleted rows while the
  column is unique over all rows, so from the first deleted row on every later create fails at its
  INSERT; the rollback in `createVPC` whose comment says it frees the CIDR causes just that
  (`AllocatorTheorems.DeletedRowStopsCreates`).
- `EnsureNetwork` is documented as idempotent. If its first start fails, every later call finds the
  network, reports success and leaves it stopped (`Provisioner.EnsureIsIdempotent`).
- The user-data depends on Go's map order exactly when two keys that differ only in case have
  different values, or some value overlaps the placeholder of another name
  (`UserData.OrderIndependentIffSafe`; equal values under two spellings do no harm unless they overlap
  their own placeholder, `UserData.UntidyCollision`).
- A host whose id is no UUID and whose push fails leaves the rollout's collector waiting for ever, and
  nothing else does (`RolloutTheorems.CollectorFinishesIff`, `UnparsableFailureBlocks`). A failed push
  marks the status row of another host exactly when its own id parses to the text of the other's, which
  `uuid.Parse` allows as it accepts several spellings (`RolloutStatus.OwnFailuresIff`, `CrossMark`).
- `DeleteInstance` never gives a lease back, and does not even stick while the create or its build
  still has its full-row write ahead of it; `SagaTheorems.DeleteSticksIffNoWritePending` is the exact
  condition. The same stale write lets the autoscaler exceed its bound, from every world
  below its limit (`ScaleOutRuns.EveryLimitBreaks`, `PoliteIffNeverStale`).
- The limit of the autoscaler counts instances in the base's VPC, while new ones go to the tenant's
  default VPC. For a base in another VPC it stops everything or nothing: with fewer than max_capacity
  counted there at the start, the base among them, it creates without end
  (`ScaleOutRuns.ForeignLimitIff`).
- The comment in `GetBestHosts` says five minutes; the code keeps hosts for twelve hours. The model
  follows the code.
- `AssignVPC` skips the release when `vpc_id` is empty, so a first move that fails after its
  reservation can never be completed (`InstanceMove.HalfMoveIsStuck`); and since `GetInstance` puts
  the host's address in place of its id, a successful move normally prevents the next one
  (`InstanceMove.SecondMoveNeedsAddressAsId`).
- Reserving or expanding an attached volume, a forced delete whose file or row stays, and two
  attaches of one volume at a time all make rows and hypervisor disagree
  (`Volumes.StepAgreesIff`, `VolumeRaces.TwoAttachesPlugTwice`); requests on different volumes do not,
  even where they choose the same device of one VM (`VolumeTurns.TurnsAgree`).

## Assumptions the theorems carry

- Saga: `Update` reads the struct shared by a request and its build goroutine atomically. Leasing an
  address is one step there; its interleavings are `AddressAllocator`'s. Request numbers are never
  reused; instance ids may be.
- `AllocatorTheorems`: fresh ids come from outside and may even repeat; the tables' keys guard them.
- `ScaleOutBound`: new instances of the base's kind come from scale-out handlers only; older ones may
  be in any VPC. The runs constructed in `ScaleOutRuns` need a further id of the kind each time
  (`Endless`).
- `RolloutStatus.OwnFailuresIff` and `FailedRowsCounted`: nobody else writes failures for this version.
- `VolumeRaces`: no instance has the empty id (the request binding requires one).
- A hypervisor call on a disk that reports failure has done nothing.

## Model

| member | source | states |
|---|---|---|
| `Ipv4.AddressRoundTrip` | internal/vpcpkg/cidr.go:46-58 | printing an IPv4 address and parsing the text gives the address back |
| `Ipv4.DottedInjective` | internal/vpcpkg/cidr.go:74-98 | two addresses with the same text are the same address, so string-keyed used sets are exact |
| `Ipv4.ParseAddressIff` | internal/vpcpkg/cidr.go:74-82 | an address parses from its own dotted text and from no other: no leading zeros, no field above 255 |
| `Ipv4.CIDROfText` | internal/vpcpkg/cidr.go:46-58 | address, slash and length parse exactly up to length 32, with the host bits cleared |
| `Ipv4.HighBits` | internal/vpcpkg/cidr.go:46-58 | clearing the host bits of an octet gives the multiple of the power of two just below it |
| `Cidr.AllocateNextCIDR` | internal/vpcpkg/cidr.go:18-42 | the loop over a filled set computes the block search that the lemmas below characterise |
| `Cidr.BlockAt` | internal/vpcpkg/cidr.go:28-39 | the scan visits the blocks 10.s.t.0 with t from 1 to 254, each once, by s and then by t |
| `Cidr.ChooseBlockIsLowest` | internal/vpcpkg/cidr.go:28-39 | the search fails exactly when all 65024 blocks (256 * 254) are listed, and otherwise returns the lowest unlisted one |
| `Cidr.CandidateParses` | internal/vpcpkg/cidr.go:34 | every block the search can return parses back to its octets and /24, and fits VARCHAR(18) |
| `Cidr.CandidateInjective` | internal/vpcpkg/cidr.go:28-39 | different positions of the enumeration print differently |
| `Cidr.HostTextInjective` | internal/vpcpkg/cidr.go:84-95 | host addresses in different blocks or at different hosts print differently |
| `Cidr.NextAvailableIP` | internal/vpcpkg/cidr.go:74-98 | the host loop computes the search that ChooseHostIsLowest characterises, for any CIDR text |
| `Cidr.ChooseHostIsLowest` | internal/vpcpkg/cidr.go:74-98 | in an allocated block the search fails exactly when .10 to .254 are all used, and otherwise returns the lowest free address |
| `Cidr.ChooseHostOfCIDR` | internal/vpcpkg/cidr.go:74-98 | for any CIDR text: an error for one that does not parse, else exhaustion exactly when .10 to .254 are used and the lowest free address otherwise |
| `Cidr.GatewayOfCIDR` | internal/vpcpkg/cidr.go:46-58 | a CIDR text has a gateway exactly when it parses, the .1 of its network part |
| `Cidr.GatewayOfCandidate` | internal/vpcpkg/cidr.go:46-58 | the gateway of every allocated block is its .1 and is never an address NextAvailableIP returns |
| `Cidr.BridgeNameFromVPCID` | internal/vpcpkg/cidr.go:63-69 | a bridge name is "vbr-" with the id or its first eleven characters, so it fits the 15 characters Linux and the column allow |
| `Cidr.BridgeNameCollision` | internal/vpcpkg/cidr.go:63-69 | two VPC ids collide on bridge_name exactly when their first eleven characters agree |
| `Provisioner.GatewayToBase` | internal/vpcpkg/provisioner.go:124-131 | the backward scan for the last dot cuts the text there |
| `Provisioner.DhcpEndpoints` | internal/vpcpkg/provisioner.go:92-120 | the DHCP range built from a block's gateway runs from its .10 to its .254 |
| `Provisioner.DhcpRangeIsLeasable` | internal/vpcpkg/provisioner.go:92-120 | an address is in the DHCP range of a block exactly when NextAvailableIP can return it for some used list |
| `Provisioner.GatewayOutsideDhcpRange` | internal/vpcpkg/provisioner.go:92-120 | the gateway is never in its own DHCP range |
| `Provisioner.HostNetworks.EnsureNetwork` | internal/vpcpkg/provisioner.go:23-58 | it succeeds exactly when the network is there or every call goes through; what it leaves in each case; no other network changes |
| `Provisioner.HostNetworks.DestroyNetwork` | internal/vpcpkg/provisioner.go:62-88 | the same for DestroyNetwork: exactly when it succeeds, and what each failure leaves |
| `VpcTables.UsedCIDRs` | internal/infra/repository/vpc_repository.go:93-99 | the query lists exactly the blocks of rows that are not deleted |
| `VpcTables.AllocatedIPs` | internal/infra/repository/vpc_repository.go:103-109 | the query lists exactly the addresses leased in that VPC |
| `VpcTables.LiveVpcs` | internal/infra/repository/vpc_repository.go:37-48 | a lookup by id finds only rows that are not deleted |
| `VpcTables.LiveDefaults` | internal/infra/repository/vpc_repository.go:23-35 | the default-VPC query finds exactly the tenant's live default rows |
| `VpcTables.InsertVpcKeeps` | migrations/012_add_vpc_id_to_instances.sql:17-34 | an accepted VPC insert keeps every unique constraint and foreign key |
| `VpcTables.SetStatusKeeps` | internal/infra/repository/vpc_repository.go:72-84 | so does a status update, including the partial unique index on live defaults |
| `VpcTables.InsertLeaseKeeps` | migrations/012_add_vpc_id_to_instances.sql:39-52 | so does an accepted lease insert |
| `VpcTables.DeleteLeaseKeeps` | internal/infra/repository/vpc_repository.go:119-124 | so does a release |
| `VpcTables.ReleaseRemovesOne` | internal/infra/repository/vpc_repository.go:119-124 | a release removes exactly one lease if the instance has one and none otherwise |
| `AddressAllocator.StepKeeps` | internal/vpcpkg/service.go:51-184 | every statement of every client keeps the allocator invariant: constraints, block enumeration, each lease inside the block of its VPC row, and what each client relies on |
| `AddressAllocator.RunKeeps` | internal/vpcpkg/service.go:51-184 | so does every interleaving of any number of creates, leases, releases and deletes, split into read, choose and insert |
| `AddressAllocator.ChosenBlockIsNewIffComplete` | internal/vpcpkg/service.go:131-151 | the block chosen from a list is unused exactly when the list names every row, deleted ones included, and is then the next of the enumeration |
| `AllocatorTheorems.BlocksArePrefix` | internal/vpcpkg/service.go:131-184 | in every reachable state the i-th row ever inserted, deleted or not, holds the i-th block of the enumeration |
| `AllocatorTheorems.InsertPassesIffListComplete` | internal/vpcpkg/service.go:131-168 | an INSERT passes the CIDR constraint exactly when the list read at the start named every row now there |
| `AllocatorTheorems.DeletedRowStopsCreates` | internal/vpcpkg/service.go:131-175 | a create that begins while any row is soft-deleted never gets its row in, under any continuation, so the rollback does not free the block |
| `AllocatorTheorems.OneLiveDefault` | migrations/012_add_vpc_id_to_instances.sql:31-34 | in every reachable state a tenant has at most one live default VPC |
| `AllocatorTheorems.LeaseAddressesDistinct` | internal/vpcpkg/service.go:51-101 | in every reachable state all leases have different address texts, across VPCs and including those of deleted VPCs |
| `AllocatorTheorems.AtMost245Leases` | internal/vpcpkg/cidr.go:84-97 | no VPC ever holds more than 245 leases |
| `AllocatorTheorems.RefusedLeaseMeansNewcomer` | internal/vpcpkg/service.go:62-82 | a refused lease insert means a used lease id, an instance that has a lease, or a lease of that very address inserted after the client read its list |
| `AllocatorTheorems.TextsFitColumns` | migrations/012_add_vpc_id_to_instances.sql:17-43 | every CIDR, gateway and address written fits its column in every reachable state |
| `VpcService.VpcRepository.CreateVPC` | internal/infra/repository/vpc_repository.go:61-70 | the insert succeeds exactly when it reaches the database and passes every unique constraint |
| `VpcService.VpcRepository.UpdateVPCStatus` | internal/infra/repository/vpc_repository.go:72-77 | an unguarded status write, refused only by the partial unique index |
| `VpcService.VpcRepository.AllocateIP` | internal/infra/repository/vpc_repository.go:111-117 | the lease insert under its keys, the unique instance and the unique (vpc, ip) |
| `VpcService.VpcRepository.ReleaseIP` | internal/infra/repository/vpc_repository.go:119-124 | deletes the leases of the instance and nothing else |
| `VpcService.Service.CreateVPC` | internal/vpcpkg/service.go:131-184 | it succeeds exactly when every call goes through and the table has room (no row deleted, a block left, id and bridge name new, no other live default); row, status and network in every case; and run alone it is one run of the protocol |
| `VpcService.NewRowFits` | internal/vpcpkg/service.go:131-168 | the row built from the list read passes every constraint exactly when the table has room, and is then the next block with its .1 as gateway |
| `VpcService.Service.GetOrCreateDefaultVPC` | internal/vpcpkg/service.go:26-41 | a tenant with a live default gets it exactly when the query works and its network can be ensured, and the tables stay; one without gets a new active default row exactly when query and create go through and the table has room |
| `VpcService.Service.AllocateInstanceNetwork` | internal/vpcpkg/service.go:51-92 | succeeds exactly when every call goes through, the VPC is live with fewer than 245 leases, and instance and lease id are new; then it adds one lease with an address no lease carries; a failure adds none |
| `VpcService.Service.ReleaseInstanceNetwork` | internal/vpcpkg/service.go:95-101 | removes exactly the instance's leases when the statement reaches the database |
| `VpcService.Service.DeleteVPC` | internal/vpcpkg/service.go:104-122 | refused while instances are counted; it succeeds exactly when every call goes through, deletes the rows of that id only and leaves no network; leases stay |
| `VpcService.RoomMeansFreeHost` | internal/vpcpkg/cidr.go:84-97 | a VPC with fewer than 245 leases has an address NextAvailableIP returns |
| `UserData.ReplaceParameters` | internal/infra/libvirt/libvirt_client.go:454-458 | the loop does the replacements in some order of the keys; where keys of one name agree and values are safe, every slot named by the capitals of a key shows that key's value, every other slot stays as written, and the fixed text stays |
| `UserData.ToUpperIsCapitals` | internal/infra/libvirt/libvirt_client.go:455 | the name of a key is the key with each letter from a to z replaced by the capital at its place in the alphabet and every other character kept |
| `UserData.SafeMeansSimultaneous` | internal/infra/libvirt/libvirt_client.go:454-458 | with such values every order of sequential ReplaceAll over the keys of the map equals one simultaneous substitution on the token list |
| `UserData.OrderIndependentIffSafe` | internal/infra/libvirt/libvirt_client.go:454-458 | for a parameter map with brace-free keys, over all orders of the keys and all templates the text is the same if and only if keys that differ only in case have the same value and no value overlaps the placeholder of another name |
| `UserData.UnsafeMeansOrderMatters` | internal/infra/libvirt/libvirt_client.go:454-458 | for every two keys of which one's value overlaps the other's placeholder, a template and two orders of the whole map that give different texts |
| `UserData.CollidingValuesMatter` | internal/infra/libvirt/libvirt_client.go:454-458 | for every two keys that differ only in case and have different values, a template and two orders of the whole map that show the one value and the other |
| `UserData.UntidyCollision` | internal/infra/libvirt/libvirt_client.go:454-458 | where keys of one name agree but their value is an open half of their placeholder, a third value can close it, and the order matters: the family the if-and-only-if leaves out |
| `UserData.QuietValuesAreSafe` | internal/infra/libvirt/libvirt_client.go:454-458 | values in which no double brace begins are safe |
| `UserData.QuietOrderIndependentIffAgreeing` | internal/infra/libvirt/libvirt_client.go:454-458 | so with values in which no double brace begins the map order is harmless if and only if keys that differ only in case have the same value |
| `RolloutTheorems.Conservation` | internal/application/host_service.go:137-181 | under every schedule, when the collector has finished OK + Failed = Total = len(Results) and every host is reported exactly once |
| `RolloutReports.ReportsAreTrue` | internal/application/host_service.go:149-181 | at the end of every schedule each host's result has its id and address and is good with no error exactly when its push was made and worked, else carries the push's error or the abort text; so OK counts the pushes that worked |
| `RolloutReports.CheckDecides` | internal/application/host_service.go:149-154 | a goroutine whose check sees the flag never pushes, however the run goes on; one whose check does not is at its push |
| `RolloutReports.CancelStopsPushes` | internal/application/host_service.go:129-154 | once the caller cancels, only goroutines already at their push still push |
| `RolloutReports.NoErrorMeansAllPushed` | internal/application/host_service.go:141-155 | a finished rollout with no S3 error that the caller did not cancel has pushed to every host |
| `RolloutReports.ErrorIsAProbes` | internal/application/host_service.go:143-146 | a summary's S3 error is the text of a re-validation of this rollout that failed |
| `RolloutTheorems.Terminates` | internal/application/host_service.go:137-181 | every schedule makes at most 9N + 1 effective steps |
| `RolloutTheorems.StuckIsFinishedUnlessDropped` | internal/application/host_service.go:154-181 | a rollout that can go no further has finished exactly when no goroutine returned without sending |
| `RolloutTheorems.CollectorFinishesIff` | internal/application/host_service.go:137-181 | every schedule taken as far as it goes has finished if and only if each host's id parses as a UUID or its push did not fail |
| `RolloutTheorems.UnparsableFailureBlocks` | internal/application/host_service.go:157-162 | once the push to a host whose id does not parse has failed, no continuation finishes |
| `RolloutTheorems.ProbesAtEnd` | internal/application/host_service.go:141-152 | exactly the numbers 10, 20, ... were re-validated, N/10 of them; S3Error is non-empty exactly when one failed; each failing prober reports itself aborted |
| `RolloutTheorems.FirstErrorStays` | internal/application/host_service.go:143-146 | the first-error cell and the cancel flag never change once set |
| `RolloutTheorems.StepKeeps` | internal/application/host_service.go:129-190 | every step of every goroutine and of the collector keeps the rollout invariant |
| `RolloutStatus.RolloutRepository.CreateRollout` | internal/infra/repository/agent_repo.go:22-30 | inserts one rollout row under its primary key |
| `RolloutStatus.RolloutRepository.InsertUpdateStatus` | internal/infra/repository/agent_repo.go:40-47 | inserts one pending row |
| `RolloutStatus.RolloutRepository.UpdateStatusByHostAndVersion` | internal/infra/repository/agent_repo.go:50-62 | changes only pending rows of that host in rollouts of that version |
| `RolloutStatus.RolloutRepository.UpdateRolloutSummary` | internal/infra/repository/agent_repo.go:32-38 | writes the counts and the error (NULL when empty) of one rollout and touches no status |
| `RolloutStatus.UpdateSeenByRollout` | internal/infra/repository/agent_repo.go:50-62 | what the join on version means for the rows of one rollout |
| `RolloutStatus.RowsAbsorb` | internal/infra/repository/agent_repo.go:50-62 | over any run of pushes and pings a row that is not pending never changes, and rows neither come nor go |
| `RolloutStatus.OwnFailuresIff` | internal/application/host_service.go:154-171 | with no other writer of failures, over all inserted rows and all schedules a failed row means that host's own push failed, if and only if no host's id parses to the text of another's |
| `RolloutStatus.CrossMark` | internal/application/host_service.go:160-166 | for any two hosts one of whose ids parses to the text of the other's, the schedule in which the failed push to the one marks the other's row before its goroutine has begun |
| `RolloutStatus.FailedRowsCounted` | internal/application/host_service.go:154-181 | whatever the ids, with no other writer of failures the failed rows at the end are at most summary.Failed |
| `RolloutStatus.AbortedHostStaysPending` | internal/application/host_service.go:149-152 | a goroutine whose check sees the cancel flag never pushes, however the run goes on; with no pings and no such pair of ids its host's row stays pending |
| `RolloutReports.RowsAtEnd` | internal/application/host_service.go:157-171 | at the end, if every mark arrived and no agent pinged and no id parses to another host's: a host's row is failed exactly when its own push failed and its id parses to itself, else pending |
| `RolloutReports.PingIsFinal` | internal/infra/repository/agent_repo.go:50-62 | an agent's ping on a pending row is never overwritten |
| `SagaInvariant.StepMoves` | internal/application/instance_lifecycle.go:89-171 | every statement of a request or its build touches only the row and lease that request owns |
| `SagaInvariant.RunKeeps` | internal/application/instance_lifecycle.go:301-524 | every interleaving of creates, builds, rollbacks and deletes keeps the saga invariant |
| `SagaTheorems.LiveRowIsLeased` | internal/application/instance_support.go:71-85 | in every reachable state a non-terminated row has its lease, with the row's VPC and address, unless its rollback could not write the row but released the lease |
| `SagaTheorems.OutlivedHasNoLease` | internal/application/instance_support.go:71-85 | such a row has no lease of its own: one under its id belongs to another request |
| `SagaTheorems.LiveRowsNeverShare` | internal/application/instance_lifecycle.go:62-84 | so two such rows never show the same address of the same VPC |
| `SagaTheorems.UnendedRowShares` | internal/application/instance_support.go:72-84 | a run in which the terminating Update fails and two rows show the same address |
| `SagaTheorems.LedgerIsExact` | internal/application/instance_service.go:119-168 | an instance has a lease exactly when a request in progress holds it, its row is not terminated, or it is one of four leaks: no host, no keys, failed release, ended by DeleteInstance |
| `SagaTheorems.OneHolder` | internal/application/instance_lifecycle.go:62-84 | two requests that account for leases have different instances and different addresses |
| `SagaTheorems.LeakIsForever` | internal/application/instance_service.go:134-152 | a leaked lease stays under every continuation |
| `SagaTheorems.DeleteSticksIffNoWritePending` | internal/application/instance_service.go:296-329 | a deleted instance stays terminated in every continuation exactly when no thread of its create still has a write of another status ahead |
| `SagaTheorems.PendingWriteResurrects` | internal/application/instance_lifecycle.go:493-505 | a continuation in which such a stale write brings the instance back |
| `SagaTheorems.DeleteNeverReleases` | internal/application/instance_service.go:296-329 | deleting a built instance loses its lease for ever |
| `InstanceLifecycle.InstanceService.MarkTerminatedAndReleaseNetwork` | internal/application/instance_support.go:71-85 | terminated in the struct, in the row if the write succeeds, lease gone if the release succeeds; neither failure stops the other |
| `InstanceLifecycle.InstanceService.PersistAndLaunch` | internal/application/instance_lifecycle.go:89-171 | what each exit leaves in the table and the ledger, and that this is what its own statements, with the outcomes of its calls, do in the saga machine |
| `InstanceLifecycle.InstanceService.CreateInstance` | internal/application/instance_service.go:119-168 | for the whole create: exactly when it takes each exit, what that leaves in table and ledger, the host id written last, and that this is what its own statements do in the saga machine |
| `InstanceLifecycle.InstanceService.CreateVMAsync` | internal/application/instance_lifecycle.go:301-524 | the same for the build with each of its steps: running with the lease kept exactly when all of them work, else terminated and compensated |
| `InstanceLifecycle.InstanceService.DeleteInstance` | internal/application/instance_service.go:296-329 | terminates the row of a live instance and leaves the ledger alone |
| `InstanceMove.MoveAgrees` | internal/application/instance_service.go:599-618 | a successful AssignVPC leaves row and lease in agreement in the new VPC, the instance running, the host's address for its id |
| `InstanceMove.MovesIff` | internal/application/instance_service.go:404-618 | an attempt succeeds exactly for a live instance with a known host, asked for by its user or internally, to another VPC, with the old lease out of the way and every call going through |
| `InstanceMove.AttemptLease` | internal/application/instance_service.go:464-488 | what each refusal and each failure leaves in the ledger |
| `InstanceMove.FailuresKeepRow` | internal/application/instance_service.go:464-597 | after any number of failed attempts the row is as before, and the lease is the old one, none, or one a failed attempt reserved |
| `InstanceMove.RetryRestores` | internal/application/instance_service.go:464-618 | for a row with a VPC, after any failed attempts, the next one whose calls go through to another VPC succeeds and agrees |
| `InstanceMove.SameVpcNeverRepairs` | internal/application/instance_service.go:420-427 | attempts at the VPC the row names never change anything |
| `InstanceMove.CanEverMoveIff` | internal/application/instance_service.go:411-488 | some attempts can move an instance exactly when it is not terminated, its host_id names a host, and it does not hold a lease under an empty vpc_id |
| `InstanceMove.HalfMoveIsStuck` | internal/application/instance_service.go:464-488 | a first move of a row without a VPC that fails after the reservation can never be completed |
| `InstanceMove.SecondMoveNeedsAddressAsId` | internal/application/instance_service.go:178-192 | after a successful move another is possible only if the host's address is itself a host id |
| `InstanceMoveService.InstanceService.GetInstance` | internal/application/instance_service.go:178-192 | finds live rows of the user only, and hands out the host's address for its id |
| `InstanceMoveService.InstanceService.Relocate` | internal/application/instance_service.go:464-488 | the release and the reservation: exactly when they succeed, what the instance holds afterwards in every case, and that no other lease changes |
| `InstanceMoveService.InstanceService.Rebuild` | internal/application/instance_service.go:494-618 | the later steps: the first failure reported, the row written only at the end |
| `InstanceMoveService.InstanceService.AssignVPC` | internal/application/instance_service.go:404-618 | over the real lease service one call is one attempt of the model; exactly when it succeeds and the row it then writes; at most one lease on every exit, no other row or lease touched |
| `Autoscaler.HandleScaleOut` | internal/application/scaling_service.go:53-86 | creates exactly when there is no limit or fewer than max_capacity listed instances are running or pending in the base's VPC from its image |
| `Autoscaler.HandleScaleIn` | internal/application/scaling_service.go:88-112 | picks the oldest matching replica and never the base; none exactly when there is no replica |
| `ScaleOutBound.ListedIsCounted` | internal/application/scaling_service.go:57-77 | the set the loop counts is the set the machine counts |
| `ScaleOutBound.CheckIsHandleScaleOut` | internal/application/scaling_service.go:57-80 | over the listed instances the machine's check passes exactly when HandleScaleOut creates, without a limit too |
| `ScaleOutBound.CountStep` | internal/application/scaling_service.go:53-86 | only a stale full-row write, or a row INSERT of a handler past the check with the base in the default VPC, adds to the count |
| `ScaleOutBound.LoadGrowsIff` | internal/infra/repository/instance_repository.go:136-167 | a statement raises active instances plus waiting handlers exactly when it is a full-row write that brings a terminated row back |
| `ScaleOutBound.OvershootBound` | internal/application/scaling_service.go:53-86 | over every run without such a write and with at most k handlers waiting, active instances plus handlers past the check stay within the larger of the start and max_capacity - 1 + k |
| `ScaleOutBound.PoliteRunsAreOrderly` | internal/application/instance_service.go:296-329 | there is no such write in a run in which no delete of an instance the limit may count meets a create that still has a write ahead |
| `ScaleOutRuns.PoliteIffNeverStale` | internal/application/instance_service.go:296-329 | for a delete in any settled world: no polite continuation has a stale write if and only if the delete meets no pending write |
| `ScaleOutRuns.PendingWriteComesBack` | internal/application/instance_lifecycle.go:493-505 | the other half: an ended row whose create has a write ahead comes back by a stale write and is counted again, with no further delete |
| `ScaleOutBound.ForeignCountNeverGrows` | internal/application/scaling_service.go:63-70 | for a base in another VPC the counted instances, the base and any others already there included, are over every run without stale writes among those counted at the start |
| `ScaleOutRuns.ForeignLimitIff` | internal/application/scaling_service.go:57-77 | for such a base, from any world in which nobody is past its check: for every m a run makes m instances of its kind if and only if the count at the start, the base included, is below max_capacity |
| `ScaleOutRuns.RefusedUntilOneEnds` | internal/application/scaling_service.go:72-77 | for any base, as long as max_capacity counted rows stay, every check is refused and the instances of its kind stay the same |
| `ScaleOutRuns.LoneForeignBase` | internal/application/scaling_service.go:57-77 | a lone running base in another VPC is copied without end if and only if max_capacity is above one; with one the first check is refused |
| `ScaleOutRuns.BoundIsReached` | internal/application/scaling_service.go:53-86 | from every world in which nobody waits, the base in it, with fewer than max_capacity counted, and for every k, a run without stale writes that reaches max_capacity - 1 + k |
| `ScaleOutRuns.StaleWriteBreaksBound` | internal/application/instance_service.go:159-168 | from every world in which nobody waits and max_capacity are counted, one of them with a create that has a write ahead: a run with one handler at a time that ends with max_capacity + 1 |
| `ScaleOutRuns.EveryLimitBreaks` | internal/application/scaling_service.go:53-86 | so from every world in which nobody waits and fewer than max_capacity are counted, with one handler at a time, a run that ends with max_capacity + 1 |
| `Volumes.NextDeviceFree` | internal/application/volume_service.go:280-295 | the chosen device path is free exactly when some path is, so the fallback is refused by the hypervisor |
| `Volumes.NextDeviceFirst` | internal/application/volume_service.go:280-295 | no free path comes before the chosen one |
| `Volumes.PathNamesVolume` | internal/domain/instance/volume.go:48-50 | paths of one format are equal exactly for equal volume names |
| `Volumes.StepAgreesIff` | internal/application/volume_service.go:33-278 | from agreement every operation ends in agreement exactly when its outcomes are not of the listed kind: lost final writes, half-done forced deletes, taken names, Reserve or Expand of an attached volume |
| `Volumes.AttachAgrees` | internal/application/volume_service.go:144-189 | an attach breaks agreement exactly when the disk was plugged, the final write failed and the detach that undoes it failed |
| `Volumes.AttachEffect` | internal/application/volume_service.go:144-189 | exactly when an attach attaches, at which device, and what every failure leaves in row and disks |
| `Volumes.CreatedCanBeAttached` | internal/application/volume_service.go:33-65 | a volume whose file was made and whose row was written can be attached |
| `Volumes.DetachAgrees` | internal/application/volume_service.go:191-231 | a detach breaks agreement exactly when its last write fails and exactly one of the first write and the hypervisor call succeeded |
| `Volumes.DeleteAgrees` | internal/application/volume_service.go:233-278 | a delete breaks agreement exactly when it is forced, unplugged the disk, and then the file or the row was not deleted |
| `Volumes.HarmlessRunsAgree` | internal/application/volume_service.go:33-278 | over every serial run without such a step, whichever hypervisor calls fail, a row is attached exactly when its disk is plugged into the VM and at the device it names, and nowhere else |
| `Volumes.DisksOfOthersStay` | internal/application/volume_service.go:144-278 | no operation overwrites a slot in use or unplugs another volume's disk |
| `VolumeService.GetNextDevicePath` | internal/application/volume_service.go:280-295 | the two loops compute the choice above |
| `VolumeService.Hypervisor.ListAttachedDevices` | internal/infra/libvirt/volume_operations.go:181-206 | lists exactly the devices in use on the VM |
| `VolumeService.Hypervisor.AttachVolume` | internal/infra/libvirt/volume_operations.go:61-96 | plugs into a free slot or changes nothing |
| `VolumeService.Hypervisor.DetachVolume` | internal/infra/libvirt/volume_operations.go:98-121 | empties a slot in use or changes nothing |
| `VolumeService.VolumeService.Update` | internal/infra/repository/volume_repository.go:102-129 | writes the whole row if it is there |
| `VolumeService.VolumeService.CreateVolume` | internal/application/volume_service.go:33-65 | the new row is available exactly when the file was made and the last write arrived, deleting when the file was not, creating while that write is lost; nothing else changes |
| `VolumeService.VolumeService.ReserveVolume` | internal/application/volume_service.go:95-110 | succeeds exactly when row and write are there, and changes the status of that row only |
| `VolumeService.VolumeService.ExpandVolume` | internal/application/volume_service.go:112-142 | accepted exactly for a larger size; the size and the status each combination of outcomes leaves, and no other column |
| `VolumeService.VolumeService.AttachVolume` | internal/application/volume_service.go:144-189 | the operation of the model; succeeds exactly when the volume is available, every call but the first write goes through and one of the 26 devices is free; plugs exactly the slot it names |
| `VolumeService.VolumeService.DetachVolume` | internal/application/volume_service.go:191-231 | the operation of the model; exactly when it succeeds, never for the root disk of a running instance; row and slot emptied then, both as before on failure unless the last write is lost |
| `VolumeService.VolumeService.DeleteVolume` | internal/application/volume_service.go:233-278 | the operation of the model; exactly when it succeeds, an attached volume only with force; what the disks are in every case, whatever the detach did |
| `VolumeRaces.LocatedAlways` | internal/application/volume_service.go:33-278 | over every interleaving of all operations and completions with stale full-row writes, an attached or detaching row has a non-empty owner and a /dev/vd path |
| `VolumeRaces.AttachAlone` | internal/application/volume_service.go:144-189 | with nobody in between the six steps of an attach are the operation of the serial model |
| `VolumeRaces.DetachAlone` | internal/application/volume_service.go:191-231 | the same for a detach |
| `VolumeRaces.CreateAlone` | internal/application/volume_service.go:33-65 | with nobody in between, the two steps of a create whose insert went through are the operation of the serial model |
| `VolumeRaces.ReserveAlone` | internal/application/volume_service.go:95-110 | the same for the two steps of a reservation |
| `VolumeRaces.ExpandAlone` | internal/application/volume_service.go:112-142 | the same for the four steps of an expansion |
| `VolumeRaces.DeleteAlone` | internal/application/volume_service.go:233-278 | the same for the three steps of a delete |
| `VolumeRaces.TwoAttachesPlugTwice` | internal/application/volume_service.go:144-189 | two interleaved attaches of one volume with every call succeeding leave its disk in two VMs |
| `VolumeTurns.TurnsAgree` | internal/application/volume_service.go:33-278 | with at most one request at a time on each volume, requests on different volumes interleaved in any way on one VM or several, and no spoiling outcome: at every moment each volume nobody works on agrees with the hypervisor, and when nobody works at all everything does |
| `VolumeTurns.StepTurnsIff` | internal/application/volume_service.go:33-278 | under one request per volume a statement keeps that order of things if and only if its outcome is not one of the listed spoiling ones, the concurrent forms of those above |
| `Hosts.RowIsReplay` | internal/infra/repository/host_repository.go:48-82 | a host's row after any arrivals is the replay of its own heartbeats only |
| `Hosts.StoredUserIsHistory` | internal/infra/repository/host_repository.go:57-60 | the stored ssh_user is the first effective user that is neither empty nor root, else the last one |
| `Hosts.StoredKeyIsHistory` | internal/infra/repository/host_repository.go:61-64 | the stored key is the last non-empty one reported, else empty |
| `Hosts.SettledStays` | internal/infra/repository/host_repository.go:57-60 | a stored user that says something never changes, from any earlier row |
| `Hosts.RestIsLast` | internal/infra/repository/host_repository.go:55-73 | every other column is as the last heartbeat said |
| `Hosts.HostnameDecides` | internal/application/host_service.go:289-294 | a hostname of seven or more parts with a telling seventh decides the user |
| `Hosts.PlainHostname` | internal/application/host_service.go:289-294 | with fewer parts, or a seventh that is empty or root, the ssh_user field decides |
| `Hosts.StoredUserIsReported` | internal/infra/repository/host_repository.go:57-60 | so the stored ssh_user is, of what the heartbeats report by the parts of their hostnames, the first that is neither empty nor root, else the last |
| `Hosts.StoredUserOfPlainHost` | internal/infra/repository/host_repository.go:57-60 | for a host with plain hostnames: the first ssh_user sent that is neither empty nor root, else the last |
| `Scheduler.HostService.HandleHeartbeat` | internal/application/host_service.go:288-320 | the method is one arrival of the registry model |
| `Scheduler.HostService.Update` | internal/infra/repository/host_repository.go:48-82 | the upsert with its two sticky columns, for any ssh_user handed in |
| `Scheduler.HostService.GetBestHosts` | internal/infra/repository/host_repository.go:84-117 | answers the rows of the query, or fails exactly when the query does or one of those rows has a NULL ssh_user |
| `Scheduler.AnswerIsOrdered` | internal/infra/repository/host_repository.go:84-94 | every host answered has at least the free memory of each active fresh host after it or left out, then at most its used CPU, then at least its free disk |
| `Scheduler.HostService.SelectBestHost` | internal/application/host_service.go:322-339 | errs exactly when query or scan fails, finds nobody exactly when no host is active within twelve hours, else moves the offset by one modulo the answer and takes that host, with fewer than ten eligible ones strictly better |
| `Scheduler.PickIsGood` | internal/infra/repository/host_repository.go:84-117 | at most p eligible hosts are strictly better than the p-th answer |
| `Scheduler.EveryWindowOnce` | internal/application/host_service.go:337-338 | any k consecutive selections from a stable list of k hosts take each exactly once |
| `Scheduler.Balanced` | internal/application/host_service.go:337-338 | over m selections every host is taken m/k times or once more |
| `Scheduler.FairShares` | internal/application/host_service.go:337-338 | the shares of two hosts never differ by more than one |

## Left out

- IPv6: `net.ParseCIDR` and `net.ParseIP` also accept IPv6 text; the model parses IPv4 only, which is all the allocator writes.
- Unicode: upper-casing of parameter keys is modelled for ASCII letters.
- The three fixed `__NAME__` replacements before the parameter loop, and everything else in the cloud-init text.
- libvirt XML, ssh and scp, qemu-img, S3 and NATS bodies: each is a success or a failure with its stated effect. `CreateAndStartVM` may fail with the VM started, so nothing is claimed about VMs after an error.
- Database outcomes are known: a statement that reports an error has changed nothing.
- libvirt lookups that fail for another reason than absence, in EnsureNetwork and DestroyNetwork.
- `CountActiveInstances` reaches DeleteVPC as a number; its agreement with the instances table is not modelled.
- StopInstance, RestartInstance, StartInstance and AssignVPC inside the instance saga: the saga's claims are for runs without them. AssignVPC is modelled on its own.
- InstanceLifecycle.InstanceService.DeleteInstance: the host lookup of GetInstance, which dereferences nil for an unknown host, is part of the `works` outcome here; InstanceMoveService models it.
- `NetworkingService.AssignVPC`: a second variant that persists before it restarts the VM; same ledger steps, not modelled.
- ScaleOutBound.OvershootBound: holds for runs in which no full-row write revives an ended row; each such write does raise the load (ScaleOutBound.LoadGrowsIff), and from every world at its limit with such a write ahead a run exceeds the bound (ScaleOutRuns.StaleWriteBreaksBound).
- ScaleOutRuns.ForeignLimitIff: the size of the default VPC (245 addresses, AllocatorTheorems.AtMost245Leases) is not part of the scale-out machine; addresses come from outside there.
- UserData.OrderIndependentIffSafe: for maps in which two keys of one name, if there are any, have values that do not overlap their own placeholder; `UntidyCollision` shows that without it agreement of such keys does not suffice. Keys are free of braces; templates are sequences of slots and of literals in which no double brace begins and which end in no brace.
- Volumes.HarmlessRunsAgree: for serial runs; `VolumeTurns.TurnsAgree` is the form for interleavings, where each volume has one request at a time. With two on one volume agreement is false (VolumeRaces.TwoAttachesPlugTwice), and there only LocatedAlways is claimed.
- Volume columns no operation looks at (display name, type, zone, user) and the lengths of text columns of volumes and instances.
- Wall-clock time and time zones: the scheduler's clock is a number of seconds handed in.
- Host columns that are only copied (totals, templates) and the heartbeat's response.
- The order in which PostgreSQL answers ties: `Scheduler.IsBest` allows any.
- EnforceScaling's dispatch, HandleProvision, fleet overview, snapshots, templates, tags, SSH keys, security groups, public IPs, HTTP handlers and configuration: no property harder than the ones above.
