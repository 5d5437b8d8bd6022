# rgdevenv: verified model of the control plane and its data plane

rgdevenv is a development reverse proxy. Its state is a list of load balancers (a host name, a label, mappings from
listen ports to upstreams) and a list of port reservations. Management operations change that state one at a time;
the proxy, the health checker and the login limiter follow it. This project models those four stateful parts in Dafny
and proves what they keep over whole runs.

`dafny verify dfyconfig.toml` checks everything.

## How the model is built

The imperative code is modelled imperatively and tied to functions on values; the theorems are about those functions.

- **State and edits.** `Heap.StateObj` is the Go struct: slices are windows onto backing arrays, `append` writes into
  spare capacity, deleting shifts a tail down in place. `Edits` performs every management operation in place on a
  clone, and each is proved to do what the operation does to the value of the state (`Transactions`).
- **Startup.** `Manager.Start` loads, validates, frees orphaned reservations, publishes, builds server and tracker and
  applies, as `setupServer` and the first `applyAndTrack` do.
- **Transaction engine.** `Manager.Manager.Do` is one operation under the lock: clone, edit, reconcile, validate, save,
  publish, apply. Its contract gives the new state, the new disk, the disk at every step on the way, the listeners, the
  routes, the loop guard's ports and the health targets. Its frame names the store, the server, its listeners and the
  tracker only, so nothing reachable from a published snapshot can change; `Store.Store.Kept` says so outright.
- **Disk.** `Disk` models files, fsync, rename and directory fsync. A crash keeps what was synced, may ruin what was
  not, and keeps any subset of the renames since the last directory fsync. The state codec is taken as faithful: a
  complete file holds its state.
- **Outside world.** Host name canonicalization (not assumed idempotent), certificate coverage, CA files and the
  upstream allowlist are functions in `Config.Oracles`. The clock, the generated id, the step at which a save fails and
  the set of ports that cannot be bound are arguments of each operation, so the theorems hold for all of them.
- **Iteration over a Go map** is a loop that picks any remaining key.

The capstone is `System`: runs of the whole daemon, made of management operations, stops and starts, crashes between
operations or at any point of a Save, probe results and live failures, and reloads that change no oracle.

- `System.RunsAreGood`: throughout every run, whatever fails to save or to bind, every state that is published or that
  a start may load, now or after a crash, is valid in all rules, owned one to one, inside the pool and restarted from
  unchanged; every HTTP request that reaches an open port gets its one right answer (management, redirect, proxy or not
  found, `Answers.Answered`) from a plain scan of the published state; the loop guard protects every open port
  (`System.OpenPortsAreGuarded`); the health checker tracks exactly the upstreams in use (`System.TrackedAreInUse`).
- `Acceptance.AcceptedIff`: on a committed state, which every published state of these runs is, each operation is
  accepted if and only if its request is in order, and `Effects` says what an accepted one does.
- `System.DiskInRuns`: what a start may load is exactly the state published when a change was last accepted or a crash
  last decided, and the changes refused since because the directory fsync failed. The published state is among these,
  and it cannot be taken back if and only if there is no other.
- `System.SpeaksThroughoutIff`: every open port speaks the TLS mode of its mappings throughout if and only if no
  accepted operation replaces a mapping on an open port by one of the other mode.

## Where the code does not do what one would expect

Each is kept as the code has it, with the exact condition under which the expected property holds.

- A listener that is already open is skipped by `Reconcile` (`internal/proxy/listeners.go:54-57`), so replacing the
  only mapping of a port by one of the other TLS mode leaves the listener in its old mode until the port closes or the
  daemon restarts. Over whole runs this is the only way open ports come to disagree with their mappings
  (`System.SpeaksThroughoutIff`), and whether an operation does it can be told before calling it
  (`Modes.OperationFlipsIff`). `Modes.ModeChangeIsNotApplied` is such an operation.
- `https_port` equal to `http_port` passes `normalize`, and then the https port is bound plain (`Modes.HttpsIsTlsIff`,
  `Modes.HttpsIsPlain`), although the comment on `DesiredListeners` calls it the TLS port.
- When the directory fsync fails, `Save` reports an error after the rename. The operation is refused and the published
  state stays, but the file already shows the refused state, and a restart serves it although a crash may still take
  it back: `Recovery.ServedStateIsLost` is a run in which a state that readers saw is gone. So "no reader sees a state
  that was not durable" holds for accepted operations (`Store.Store.Install`, `System.AcceptedIsDurable`) but not for
  starts: `Recovery.StartIsDurableIff` says exactly for which, `Recovery.PublishedIsDurableIff` when the published state
  of a run is durable, and `Recovery.FileShowsPublishedIff` when the file shows it. The comment on `commitLocked` and
  the design document call the successful Save the commit point; for readers of the file the rename is.
- The free port count is right if and only if every reservation lies in the pool (`Ownership.FreeCountIff`); after
  the pool was reconfigured it is not (`Ownership.FreeCountIsWrong`).
- An empty generated id would break ownership in every accepted allocating put, and only an empty one does
  (`Ownership.OwnershipNeedsRealIds`); `defaultID` never returns one.
- Startup checks the structural rules only. On a state loaded under a changed configuration a removal can be refused
  because OTHER load balancers break a rule: it is accepted if and only if everything it does not remove obeys the
  rules (`Removal.RemovalAcceptedIff`, with `Removal.RemovalBlocked` a state in which that fails). On committed states
  removal never fails validation (`Removal.RemovalIsTotal`).
- On such a state two load balancers may have names that canonicalize alike, and then one mapping is neither routed
  nor reported (`Routing.OneIsLost`). All servable mappings of a state are routed if and only if no two different ones
  share canonical name and port (`Routing.AllRoutedIff`).
- Undoing an addition restores the state exactly if and only if it held no orphaned reservation
  (`Removal.CreateThenDeleteLB`, `Removal.PutThenDeleteMapping`); no state reached from a start does.
- `setupServer` edits the snapshot it has already published (`cmd/rgdevenv/serve.go:93`); no one reads it yet.
- The limiter keeps at most `limit` failures per window only when requests do not overlap; with k between check and
  record the exact bound is `limit + k - 1` (`Auth.WindowBound`, `Auth.BoundIsReached`).

## Model

| member | source | states |
|---|---|---|
| Structure.Validate | internal/store/model.go:63-116 | The one-pass map-building check accepts a state if and only if names are non-empty and unique, ports unique per load balancer, one TLS mode per port over all load balancers, allocation ids non-empty and unique, allocated ports unique, no dangling reference; a refusal names a fault the state has |
| Structure.ValidateBalancers | internal/store/model.go:64-90 | The nested loop establishes unique names, unique ports per load balancer and one mode per port globally, or exhibits the fault |
| Structure.ValidatePorts | internal/store/model.go:77-89 | One load balancer: its ports are unique and agree with the modes recorded for all earlier ones, or the reported fault is real |
| Structure.ValidateAllocations | internal/store/model.go:92-106 | Ids and ports of allocations are unique and ids non-empty, and the id set is exact, or the fault is real |
| Structure.ValidateReferences | internal/store/model.go:107-114 | No mapping names a missing allocation, or the reported one does |
| Structure.FaultMeansIllFormed | internal/store/model.go:63-116 | Every kind of reported fault contradicts well-formedness |
| Config.Normalize | internal/config/config.go:155-181 | Accepts exactly the configurations with ports in range, a non-empty pool holding no always-on or management port and a host name that canonicalizes; changes nothing but that name |
| Rules.Validate | internal/txn/validate.go:31-53 | The first error in scan order, structural errors first; what that is, `Rules.FirstErrorIsReported` and `Rules.IllFormedIsReported` say without the cascade |
| Rules.ValidateBalancers | internal/txn/validate.go:35-52 | The loop with early returns yields the first error of the list |
| Rules.ValidateMappings | internal/txn/validate.go:46-50 | The inner loop yields the first mapping error |
| Rules.AcceptsIff | internal/txn/validate.go:31-98 | A state is accepted if and only if it is well formed and every name and mapping obeys every rule |
| Rules.RulesOfMappings | internal/txn/validate.go:55-98 | The cascade accepts a mapping if and only if each rule holds by itself: port in range, outside the pool, not reserved, https only with TLS; upstream scheme, port, host and TLS mode usable; certificate covers the name |
| Rules.RulesOfNames | internal/txn/validate.go:36-45 | A name is in order if and only if it is its own canonical form and not a configured management host; which of the errors is reported otherwise |
| Rules.FirstBrokenIsReported | internal/txn/validate.go:55-98 | What is reported of a mapping is the first broken rule of the list of twelve, each with its error |
| Rules.FirstErrorIsReported | internal/txn/validate.go:35-52 | Of a state: the error of the first load balancer that breaks a rule, its name's or else its first faulty mapping's |
| Rules.IllFormedIsReported | internal/txn/validate.go:31-34 | A state is reported as invalid_state if and only if it is not well formed, whatever rules it breaks besides |
| Rules.CANamesAreSafe | internal/upstream/ca.go:18-26 | A valid CA name has no path separator and is not the parent directory; every alphanumeric word is valid |
| Rules.BalancersErrorIff | internal/txn/validate.go:35-52 | No error in the list if and only if no load balancer has one |
| Rules.MappingsErrorIff | internal/txn/validate.go:46-50 | No error in a load balancer if and only if no mapping has one |
| Registry.Reconcile | internal/registry/registry.go:10-28 | Returns the list without orphaned auto allocations, order kept, and reports a change if and only if there was an orphan |
| Registry.KeptExactly | internal/registry/registry.go:19-27 | What is kept is exactly the manual and the referenced allocations |
| Registry.KeptInOrder | internal/registry/registry.go:19-27 | ... in the order in which they stood |
| Registry.KeepIsIdentity | internal/registry/registry.go:19-27 | Reconciling changes nothing if and only if there is no orphan |
| Registry.KeepAllocsOk | internal/registry/registry.go:19-27 | Uniqueness of ids and ports survives reconciling |
| Registry.Grant | internal/registry/allocate.go:20-31 | The result is the least free port of the pool; exhausted if and only if every pool port is in use |
| Registry.Allocate | internal/registry/allocate.go:20-31 | Building the used map and scanning the pool grants just that port |
| Registry.Return | internal/registry/allocate.go:36-50 | Reports not-allocated if and only if no allocation has the port, else returns the others in order |
| Registry.WithoutPortExactly | internal/registry/allocate.go:36-50 | Exactly the allocations of other ports remain |
| Registry.IsAllocationReferenced | internal/registry/allocate.go:53-62 | True if and only if some mapping names the id |
| Registry.AllocationByPort | internal/registry/allocate.go:65-72 | Finds the first allocation of the port, or none if and only if there is none |
| Transactions.LBIndex | internal/txn/txn.go:258-274 | First load balancer of the name, none if and only if there is none |
| Transactions.MappingIndex | internal/txn/txn.go:276-283 | First mapping on the port, none if and only if there is none |
| Transactions.AttemptCommittable | internal/txn/txn.go:84-96 | Whatever is handed to Save is the edit itself and obeys every rule |
| Acceptance.AcceptedIff | internal/txn/txn.go:79-256 | On a committed state an operation is accepted if and only if its request is in order, for every operation, said of request, state, configuration and oracles only |
| Acceptance.CreateIff | internal/txn/txn.go:99-112 | Creating: if and only if the name has a canonical form that is its own, is not the configured management host and is not taken |
| Acceptance.LabelIff | internal/txn/txn.go:115-129 | Labelling: if and only if a load balancer has the canonical name |
| Acceptance.PutIff | internal/txn/txn.go:151-194 | Putting: if and only if the load balancer exists, has no mapping on the port or is asked to replace it, the port may be listened on in that mode, no other load balancer maps it in the other mode, the certificate covers a TLS name, and the upstream is allowed; or, to allocate, localhost is allowed, a pool port is free and the id is new (or empty, which the code accepts) |
| Acceptance.DeleteMappingIff | internal/txn/txn.go:197-216 | Deleting a mapping: if and only if the named load balancer has one on the port |
| Acceptance.AllocateIff | internal/txn/txn.go:219-240 | Reserving: if and only if a pool port is free and the id is new and not empty |
| Acceptance.ReturnIff | internal/txn/txn.go:243-256 | Returning: if and only if the port is reserved and no mapping names its reservation |
| Heap.Append | internal/txn/txn.go:110 | Appending, in place where capacity allows, adds one element and keeps the others |
| Heap.Delete | internal/txn/txn.go:144 | Shifting the tail down within the backing array removes exactly element i |
| Heap.StateObj.Clone | internal/store/clone.go:8-29 | An equal state none of whose objects and arrays existed before |
| Heap.CloneCells | internal/store/clone.go:13-23 | Every load balancer is copied and no two copies share a backing array |
| Heap.StateObj.FindLB | internal/txn/txn.go:258-274 | Finds the first load balancer of the name in the slices |
| Heap.StateObj.FindMapping | internal/txn/txn.go:276-283 | Finds the first mapping on the port in the slices |
| Heap.StateObj.RemoveLB | internal/txn/txn.go:144 | In place: the list without element i, everything else as before |
| Heap.StateObj.SetMapping | internal/txn/txn.go:188 | Writing through the pointer changes one mapping of one load balancer and nothing else |
| Heap.StateObj.AppendMapping | internal/txn/txn.go:190 | Adds one mapping to one load balancer and nothing else |
| Heap.StateObj.RemoveMapping | internal/txn/txn.go:213 | Removes one mapping of one load balancer and nothing else |
| Edits.Make | internal/txn/txn.go:99-256 | Cloning and editing in place yields what the operation does to the value, or its error, and touches nothing that existed before |
| Edits.CreateLB | internal/txn/txn.go:99-112 | In place: the new load balancer is appended, or invalid name or duplicate |
| Edits.UpdateLBLabel | internal/txn/txn.go:115-129 | In place: the label changes, or invalid name or not found |
| Edits.DeleteLB | internal/txn/txn.go:132-147 | In place: the load balancer and its orphaned reservations go, or invalid name or not found |
| Edits.PutMapping | internal/txn/txn.go:151-194 | In place: the mapping is placed or replaced, wired to a new reservation on request, orphans go; or one of the four errors, as the put on values says, of which `Effects.OperationReroutes` and `Effects.OperationAdds` give every field of the mapping and the reservation, and `Acceptance.PutIff` when it is accepted |
| Edits.DeleteMapping | internal/txn/txn.go:197-216 | In place: the mapping and its orphaned reservation go, or one of the three errors |
| Edits.AllocatePort | internal/txn/txn.go:219-240 | In place: a manual reservation of the least free port is appended and returned, or exhausted |
| Edits.ReturnPort | internal/txn/txn.go:243-256 | In place: the reservation goes, or not allocated or in use |
| Effects.OperationReroutes | internal/txn/txn.go:99-256 | An accepted operation changes what is found for exactly the named host and port: a put leaves a mapping as asked (own upstream, or localhost on the least free pool port), a delete leaves none, all else is as before |
| Effects.OperationIsServed | internal/proxy/server.go:85-151 | Once the accepted state is applied, requests on any open port change in exactly that way |
| Effects.OperationFrees | internal/txn/txn.go:131-216 | Cascades are exact: an old reservation survives an accepted operation unless it belongs to the removed load balancer, the removed or replaced mapping, or is the port returned |
| Effects.OperationAdds | internal/txn/txn.go:169-185 | What an accepted operation adds is exactly the one reservation asked for, in every field |
| Effects.GrantedIsAdded | internal/txn/txn.go:239 | The allocation AllocatePort returns is the one reservation it added, in every field |
| Effects.OnePlace | internal/txn/txn.go:181-184 | An automatic reservation is used on one port of its owner and nowhere else |
| Store.Store.Save | internal/store/store.go:64-95 | The disk goes through exactly the steps temp, write, sync, rename, directory sync up to the failing one; success if and only if none fails |
| Store.Store.WriteOut | internal/store/store.go:68-94 | Every intermediate disk of the early exits, and the temporary name removed on each |
| Store.Store.Publish | internal/store/store.go:45 | Swaps the pointer to any state; no earlier snapshot is withdrawn or changes |
| Store.Store.Install | internal/txn/txn.go:88-91 | Save then publish: on failure the published pointer and list are unchanged; on success the candidate is the new last one and no crash can take it back; no snapshot ever published changes |
| Store.Setup | cmd/rgdevenv/serve.go:82-100 | Over what the file reads as: a load error if and only if it is torn or of a version above 1; invalid if and only if it is otherwise not well formed; ready if and only if it is usable and needs no tidying or the save succeeds; then the published state has the file's load balancers, its version with 0 read as 1 and its needed reservations in order, and without a file is empty; if the save fails, which disk is left |
| Store.LoadableIff | internal/store/store.go:109-130 | A file can be started from if and only if it is missing, or complete, of version at most 1 and well formed; loading fails if and only if it is torn or newer; nothing is rewritten if and only if every automatic reservation is used |
| Store.StartBrings | cmd/rgdevenv/serve.go:82-100 | A start publishes exactly the file's load balancers and used reservations, or the empty state without a file |
| Store.FreeOrphans | cmd/rgdevenv/serve.go:92-100 | Edits the published snapshot in place, saves and republishes it, or changes nothing |
| Disk.CrashReadsExactly | internal/store/store.go:57-63 | The readings a crash can leave are exactly the durable state and those whose rename is pending |
| Disk.SaveIsCrashSafe | internal/store/store.go:64-107 | At every point of a Save, failing or not, a crash leaves a complete state: one readable before, or the new one and only after its rename was issued; after success only the new one |
| Disk.SaveTraceReadable | internal/store/store.go:64-107 | The exact set of possible readings at each point of a Save |
| Disk.SaveEnds | internal/store/store.go:64-107 | The visible file changes if and only if the rename happened, and no temporary name stays |
| Disk.SavedIsDurable | internal/store/store.go:91-95 | A Save that succeeds makes its state durable whatever the disk was like before |
| Disk.OnlyHoldsSurvives | internal/store/store.go:97-107 | A durable state is what is read now and after any crash |
| Recovery.LoadsInSave | internal/store/store.go:64-107 | What a start may load after a crash at each point of a Save, exactly |
| Recovery.LoadedIsSaved | internal/store/store.go:109-130 | A committed state is read back as it is and needs no reconciling |
| Recovery.StartIsDurableIff | cmd/rgdevenv/serve.go:82-100 | After a start nothing but the published state can come back if and only if it rewrote the file or nothing that could come back before read otherwise, pending renames and the durable file under them included |
| Recovery.StartMakesDurableIff | cmd/rgdevenv/serve.go:87-100 | Whatever valid file a first start finds: every later restart changes nothing if and only if it rewrote the file or all that could come back needs no rewriting |
| Recovery.SettledStartIsDurable | cmd/rgdevenv/serve.go:87-100 | Which is so on every disk without a pending rename |
| Recovery.RestartIsIdentity | cmd/rgdevenv/serve.go:82-100 | A restart, after a crash at any point or none, always succeeds, leaves the disk alone and publishes what it holds |
| Recovery.StepLoads | internal/txn/txn.go:84-96 | Each operation, restart or crash, exactly: what can be loaded afterwards, and that the published state was there before, was loaded or was being saved |
| Recovery.RunsAreDurable | cmd/rgdevenv/serve.go:82-100 | In every run of them every restart succeeds and changes nothing |
| Recovery.LoadsAreOrigins | internal/store/store.go:64-107 | Over every run a start may load exactly the last settled state and the candidates refused since with their rename issued |
| Recovery.PublishedIsDurableIff | internal/txn/txn.go:84-96 | Over every run the published state can be loaded, and nothing else can if and only if nothing else was exposed since things last settled |
| Recovery.FileShowsPublishedIff | internal/txn/txn.go:84-96 | Over every run the file shows the published state unless the last change was another one refused with its rename issued |
| Recovery.EditKeepsNoOrphans | internal/txn/txn.go:99-256 | No operation leaves an orphaned reservation, not even those that do not reconcile |
| Recovery.ServedStateIsLost | internal/store/store.go:91-107 | A run in which a refused change shows in the file, is served after a restart and is gone after a crash |
| Manager.Manager.Do | internal/txn/txn.go:98-256 | Any operation: reply with its allocation, state, disk, every disk on the way, listeners, routes, guard ports and health targets are as the transaction on values says; a refused one changes nothing, a failed save only the disk; no published snapshot changes |
| Manager.Manager.Commit | internal/txn/txn.go:84-96 | Validate, save, publish, apply, each only after the one before |
| Manager.Manager.ApplyAndTrack | cmd/rgdevenv/serve.go:163-169 | Proxy and tracker are given the same state, and the store stays as it is |
| Manager.Start | cmd/rgdevenv/serve.go:61-159 | Over what the file reads as: comes up if and only if it is missing, or complete, not newer and well formed, and if reservations must be freed the save succeeds; the state is the file's without those reservations, and the data plane follows it; a load error if and only if the file is torn or newer |
| System.RunsAreGood | internal/txn/txn.go:79-256 | Throughout every run of operations, restarts, crashes, samples and reloads, with any failures: all that is published or loadable is valid, owned, in the pool and restartable; every request on an open port gets its one right answer; ports, guard and targets follow |
| System.StepKeepsGood | internal/txn/txn.go:84-96 | One of these keeps all of that |
| System.StepKeepsKept | internal/store/store.go:64-130 | No operation, restart or crash in mid-Save lets a state break a rule, ownership or the pool come back |
| System.BeginsGood | cmd/rgdevenv/serve.go:82-169 | A start on a disk from which nothing unfit can be loaded begins such a run |
| System.NoFileIsFit | internal/store/store.go:111-113 | A first start without a state file is one |
| System.DiskInRuns | internal/store/store.go:64-107 | In terms of the run: which states a start may load, and when the published one cannot be taken back |
| System.AcceptedIsDurable | internal/txn/txn.go:84-96 | What readers see after an accepted operation no crash takes back |
| System.SpeaksThroughoutIff | internal/proxy/listeners.go:54-65 | Over every run open ports speak the mode of all their mappings throughout if and only if no accepted operation replaces a mapping on an open port by one of the other mode |
| System.FollowsIsInSync | cmd/rgdevenv/serve.go:163-169 | Applying a committed state brings routes, ports, guard ports and health targets in line with it |
| System.OpenPortsAreGuarded | internal/proxy/server.go:86-88 | Throughout, every open port is guarded, and the guarded ports are exactly those the configuration or a mapping declares |
| System.TrackedAreInUse | cmd/rgdevenv/serve.go:163-169 | Throughout, an upstream's health is tracked if and only if a published mapping has its scheme, host, port and, for https, TLS settings |
| Ownership.Bijection | internal/txn/txn.go:169-185 | Auto allocations and mappings with an allocation id are in one-to-one correspondence and agree on port, http localhost upstream and owner |
| Ownership.AttemptKeepsOwned | internal/txn/txn.go:99-256 | Every accepted operation keeps that, for any non-empty id, colliding ones included |
| Ownership.FreshId | internal/txn/txn.go:170-193 | An accepted allocating put used an id no allocation and no mapping had |
| Ownership.ReconcileKeepsLinks | internal/registry/registry.go:10-28 | Reconciling never takes an allocation away from its mapping |
| Ownership.AttemptKeepsPool | internal/registry/allocate.go:20-31 | All allocated ports stay inside the pool |
| Ownership.RunsAreSound | internal/txn/txn.go:79-256 | In every run from the empty state: well formed, owned, inside the pool, all rules obeyed |
| Ownership.OwnershipNeedsRealIds | internal/txn/txn.go:61-65 | An accepted allocating put keeps ownership if and only if its id is not empty |
| Ownership.FreeCountIff | internal/api/ports.go:25-36 | The reported free count is the number of unallocated pool ports if and only if all reservations are in the pool |
| Ownership.FreeCountIsWrong | internal/api/ports.go:31-34 | With one reservation left over from another pool it is one too small |
| Ownership.ExhaustedIff | internal/registry/allocate.go:20-31 | Allocation fails if and only if as many ports are allocated as the pool has, else it takes the least free one |
| Removal.RemovalAcceptedIff | internal/txn/txn.go:131-256 | A removal that finds its target is accepted if and only if every load balancer and mapping it does not remove obeys the rules |
| Removal.RemovalBlocked | internal/txn/txn.go:131-147 | A well-formed state in which a load balancer in order cannot be deleted because another maps a port that the pool now contains |
| Removal.RemovalIsTotal | internal/txn/txn.go:131-256 | On a committed state removals never fail validation |
| Removal.CreateThenDeleteLB | internal/txn/txn.go:98-147 | Create then delete restores the exact lists if and only if there was no orphan |
| Removal.PutThenDeleteMapping | internal/txn/txn.go:149-216 | Put then delete of a mapping, with or without allocation, restores the exact lists if and only if there was no orphan |
| Removal.AllocateThenReturn | internal/txn/txn.go:218-256 | Reserving a port by hand and returning it restores the exact state |
| Removal.ReturnedPortsAreManual | internal/txn/txn.go:242-256 | Only manual reservations can be returned |
| Removal.ReconciledWellFormed | internal/registry/registry.go:10-28 | Reconciling a well-formed state leaves it well formed |
| Refinement.EditRefines | internal/txn/txn.go:99-283 | Every operation on the nested lists, errors included, is the update of a map name to (label, port to mapping) and a map port to allocation; list order never matters |
| Refinement.ReconciledInView | internal/registry/registry.go:10-28 | Reconcile is dropping the unreferenced auto entries of the allocation map |
| Refinement.FoundInView | internal/txn/txn.go:258-283 | The index searches and the map lookups find the same things |
| Router.BuildRoutingTable | internal/proxy/router.go:52-87 | The nested loops build the table and the degraded list of all mappings in scan order, which `Answers.LookupIff`, `Answers.DegradedIff` and `Answers.DegradedInOrder` describe for any state without the loop's decisions |
| Router.LookupIsLastServed | internal/proxy/router.go:52-97 | For ANY state, a lookup finds the last mapping served under (port, host), and nothing if and only if there is none |
| Router.TableOfOk | internal/proxy/router.go:79-100 | No port is listed without a route, and the host set is exactly the routed hosts |
| Router.DesiredListeners | internal/proxy/router.go:104-117 | The routed ports and the always-on ones, each routed port with the mode of some route, whichever the map yields first |
| Router.WithoutPorts | internal/proxy/router.go:121-133 | The loop builds the table cut down to the other ports |
| Router.WithoutLookup | internal/proxy/router.go:121-133 | Cutting ports off leaves all other lookups alone and the host set exact |
| Server.Listeners.Reconcile | internal/proxy/listeners.go:50-91 | Opens what is missing, closes what is stale and not always on, keeps open ports with their mode, and reports exactly the ports that had to be opened and could not be |
| Server.Server.Apply | internal/proxy/server.go:85-114 | Guard ports, listeners, live table and degraded list after applying a state, for any listener set the table may ask for and any bind failures; what they come to is said by `Answers.OpenIff`, `Answers.LookupIff`, `Answers.DegradedIff` and `Routing.FailuresAre` |
| Server.Server.ListenPorts | internal/proxy/server.go:167-178 | All declared ports and the always-on ones |
| Server.ListenerFailures | internal/proxy/server.go:180-190 | One report per mapping on a failed port, in scan order |
| Routing.TableIsScan | internal/proxy/router.go:52-97 | On a committed state the index agrees with a linear scan of the lists |
| Routing.CommittedAreServed | internal/txn/validate.go:31-98 | What the validator accepted the router serves under its own name, with unchanged oracles |
| Routing.CompliantIsServed | internal/proxy/reverseproxy.go:53-75 | An accepted mapping always yields a proxy |
| Routing.DegradedAre | internal/proxy/router.go:58-78 | The degraded list reports exactly the mappings not served |
| Routing.FailuresAre | internal/proxy/server.go:180-190 | Bind failures are reported for exactly the mappings on failed ports |
| Routing.ActiveExactly | internal/proxy/server.go:103-112 | Open ports are exactly those asked for minus those that failed, and every live route's port is open |
| Routing.RoutedXorDegraded | internal/proxy/server.go:95-113 | Every committed mapping is routed or reported, never both, never neither |
| Routing.NotShadowed | internal/txn/validate.go:36-70 | No committed mapping sits on a reserved port or under the management name |
| Routing.AppliedServesState | internal/proxy/server.go:85-151 | On an open port a raw host is proxied to just what the scan finds under its canonical name, or not proxied if it finds nothing; the other answers are in `Answers.AppliedAnswers` |
| Routing.AllRoutedIff | internal/proxy/router.go:52-97 | For ANY state: every servable mapping is routed if and only if no two different ones share canonical name and port |
| Routing.OneIsLost | internal/proxy/router.go:79-83 | Two load balancers with one canonical name: one mapping is neither routed nor reported |
| Routing.RedirectsLiveHosts | internal/proxy/redirect.go:16-30 | The http port redirects a host if and only if a certificate covers it and an open port routes it |
| Answers.LookupIff | internal/proxy/router.go:52-97 | For ANY state and oracles: a lookup finds something if and only if a mapping listens on the port, its load balancer's name canonicalizes to the host, a certificate covers it if TLS, and the upstream is http, or https in mode verify, skip or none, or with a valid and loadable CA; and it is the last such mapping |
| Answers.EntriesInOrder | internal/proxy/router.go:56-64 | Mappings are visited load balancer by load balancer, each in its list's order |
| Answers.DegradedIff | internal/proxy/router.go:56-78 | For ANY state and oracles: a report is in the degraded list if and only if some mapping deserves it: its name has no canonical form, else no certificate covers it, else the upstream is not servable, under the raw name in the first case and the canonical one in the others |
| Answers.DegradedInOrder | internal/proxy/router.go:56-78 | One such report for each mapping that cannot be served, none for the others, in scan order |
| Answers.OpenIff | internal/proxy/server.go:103-112 | After a committed state is applied a port is open if and only if it is declared and was open before or could be opened |
| Answers.GuardedIff | internal/proxy/server.go:167-178 | The guarded ports are the https port, the http port if set and every mapping's |
| Answers.ScanIff | internal/proxy/router.go:90-97 | The scan finds a mapping if and only if the load balancer of that name has it on that port |
| Answers.LiveHosts | internal/proxy/router.go:79-100 | The live host set holds exactly the hosts with a mapping on an open port |
| Answers.AppliedAnswers | internal/proxy/server.go:116-151 | The whole answer to every request on an open port after a committed state is applied: the management handler if and only if it is installed, the port is not the http port and the host is the management host's canonical name; the proxy to what the scan finds, if anything; a redirect if and only if on the http port for a covered host that is live; not found otherwise |
| Modes.DesiredModeOfMappings | internal/proxy/router.go:104-117 | On a committed state the mode asked for is that of every mapping on the port |
| Modes.DesiredIsUnique | internal/proxy/router.go:104-117 | So the iteration order of the map does not matter |
| Modes.HttpsIsTlsIff | internal/proxy/router.go:112-115 | The https listener of a server just started speaks TLS if and only if the port is not also the http port |
| Modes.HttpsIsPlain | internal/config/config.go:155-174 | A configuration that loads and whose https port is bound plain |
| Modes.ApplySpeaksIff | internal/proxy/listeners.go:54-65 | Over one Apply of a committed state open ports keep speaking the mode of their mappings if and only if no open port mapped before and after changes mode |
| Modes.ApplyKnowsPorts | internal/proxy/listeners.go:54-65 | After it the open ports are mapped or always on, and the https port has its mode |
| Modes.OperationFlipsIff | internal/txn/txn.go:149-194 | An accepted operation changes the mode of an open port if and only if it replaces a mapping there by one of the other mode |
| Modes.FreshSpeaks | internal/proxy/listeners.go:54-65 | Starting from nothing bound every port speaks as mapped |
| Modes.ModeChangeIsNotApplied | internal/proxy/listeners.go:55-57 | An accepted replacement after which the listener still speaks the old mode |
| LoopGuard.IsSelf | internal/upstream/policy.go:44-57 | True if and only if the port is listened on and the address is loopback or local |
| LoopGuard.CheckDialIP | internal/upstream/policy.go:89-102 | Refuses a missing address, a link-local one, and a port the proxy listens on at a loopback or local address, each with its verdict, and nothing else |
| LoopGuard.ListenPortsOutsidePool | internal/config/config.go:164-174 | No listen port of a committed state is in the pool |
| LoopGuard.AllocatedPortsAreDialable | internal/upstream/policy.go:87-102 | In every run from the empty state an auto-allocated mapping goes to http localhost in mode verify, at a pool port that is none of the proxy's own |
| Identities.IdentitiesFrom | internal/health/health.go:43-57 | The sorted list, without repetition, of exactly the identities in use |
| Identities.SameIdentityIff | internal/health/health.go:32-39 | Two upstreams share an identity if and only if scheme, host and port agree and, for https, the TLS settings |
| Identities.StringLessIff | internal/health/health.go:79-95 | Strings compare by their first difference, and a proper prefix comes first |
| Identities.LessIff | internal/health/health.go:79-95 | Host, port, scheme, mode and CA name decide in this order |
| Identities.LessIsTotalOrder | internal/health/health.go:79-95 | The comparator is a strict total order |
| Identities.ListingUnique | internal/health/health.go:79-95 | There is only one sorted list of a set, whatever the input order |
| Health.Tracker.SetTargets | internal/health/checker.go:66-83 | New identities start unknown, kept ones keep their samples, the others are forgotten |
| Health.Tracker.Record | internal/health/checker.go:121-149 | The incremental update keeps every tracked status equal to its definition over the history, which is `Health.StatusIsLatestBlock`; untracked identities are ignored |
| Health.Tracker.CheckOnce | internal/health/checker.go:178-191 | One sample per target, in order, up to where the context is cancelled |
| Health.Tracker.RecordFailure | internal/health/checker.go:156 | One unhealthy sample for the upstream's identity |
| Health.Tracker.StatusFor | internal/health/checker.go:86-94 | Up or Down if and only if the latest block of threshold equal samples since the identity was last added is one of successes or of failures; unknown without one, and if untracked |
| Health.Tracker.List | internal/health/checker.go:98-114 | All tracked identities in their one order, each Up, Down or unknown as the samples since it was added say |
| Health.StatusIsLatestBlock | internal/health/checker.go:116-149 | Up if and only if the most recent block of threshold equal samples is one of successes, Down if and only if of failures, unknown if and only if there is none |
| Health.StatesReport | internal/health/checker.go:121-149 | At any time, after any calls, each stored status is what the samples since its identity was added say |
| Health.SamplesInOrder | internal/health/checker.go:121-131 | The samples of an identity are its results in the log's order, and nothing else |
| Health.ProbesAre | internal/health/checker.go:178-191 | The k-th sample of a round is the k-th target's, with its probe's result |
| Health.FlipsAreApart | internal/health/checker.go:119-120 | Two changes of status are at least threshold samples apart |
| Health.SampleExplained | internal/health/checker.go:133-148 | Streak and status after one more sample are those of the longer history |
| Health.TrackedSince | internal/health/checker.go:66-83 | An identity is tracked if and only if it was added and kept since, and its samples are exactly those since |
| Health.TrackedAreTargets | internal/health/checker.go:66-83 | The tracked set is the last target set under any interleaving |
| RateLimit.RateLimiter.Compact | internal/auth/ratelimit.go:50-57 | In-place compaction keeps exactly the times after the cutoff, in order |
| RateLimit.RateLimiter.Allowed | internal/auth/ratelimit.go:31-35 | True if and only if fewer than limit failures of the WHOLE log lie in the window; with a clock that ran backwards, never more lenient than the latest window and never stricter than the one asked for |
| RateLimit.RecentIsSince | internal/auth/ratelimit.go:31-60 | The pruned list is as long as the number of the address's entries in the log after the cutoff |
| RateLimit.RateLimiter.RecordFailure | internal/auth/ratelimit.go:38-42 | Appends one failure to the log of its address and keeps the agreement with the log |
| RateLimit.PruneTracks | internal/auth/ratelimit.go:50-60 | Pruning loses nothing a later question can ask about |
| RateLimit.PushTracks | internal/auth/ratelimit.go:38-42 | Appending to the pruned list is appending to the log |
| RateLimit.RecentNested | internal/auth/ratelimit.go:50-57 | Pruning twice, at any two cutoffs, is pruning once at the later one |
| Auth.Handle | internal/api/middleware.go:14-29 | One request: limited, unauthorized with its failure recorded, or passed |
| Auth.Desk.Enter | internal/api/middleware.go:17-20 | One request among others asks the limiter, which lets it in if and only if fewer than limit failures of its address in the log are recent, and answers as the gate machine says |
| Auth.InWindowIsWithin | internal/auth/ratelimit.go:50-60 | The count in a window is the number of the address's entries in the log there |
| Auth.Desk.Fail | internal/api/middleware.go:22-26 | One of those let in fails, and the limiter records it as the gate machine does |
| Auth.DeskBounded | internal/auth/ratelimit.go:31-42 | So the limiter itself never holds more than limit + k - 1 failures of an address in a window |
| Auth.WindowBound | internal/api/middleware.go:14-29 | With at most k requests of an address between check and outcome no window holds more than limit + k - 1 failures |
| Auth.BoundIsReached | internal/api/middleware.go:14-29 | and some run reaches that number |
| Auth.HouseIsGates | internal/auth/ratelimit.go:31-42 | Seen from one address, requests of all others only let time pass |
| Auth.EveryAddressBounded | internal/api/middleware.go:14-29 | The bound holds for every address under any interleaving of all of them |

## Left out

- HTTP handlers, JSON, the command line, the REST client and the web UI: plumbing over the Manager.
- TLS, certificates, SNI, header rewriting, WebSockets, sockets and DNS: only the success or failure the code branches on.
- Token comparison and CA file parsing: oracles.
- `canon.Host` and the upstream allowlist: opaque functions; a reload that changes them (SIGHUP) is not a step of the runs, though `Server.Server.Apply` may be called with any oracles; a reload that does not is a step.
- The instance lock: one process. The Manager's mutex: operations are atomic steps; the tracker's and the limiter's mutexes make their methods the atomic steps that interleave.
- Timers, logging and graceful draining: closing a listener is one step.
- Error texts: errors keep their kind and code only.
- A nil slice and an empty one are distinct in the heap model but have the same value.
- The read-only passes (validation, reconciling, routing, identities) read the snapshot's value instead of walking its arrays.
- Sorting: a simple insertion sort stands for the library's; the result is unique by `Identities.ListingUnique`.
- The reported health entry drops the CA name; `Health.Tracker.List` lists identities and statuses side by side.
- The health section and the management bind address of the configuration: a bind port is taken as given.
- A Manager without an apply function, and one without a coverage check in the routing theorems: the daemon always sets both.
- Failures of `setupServer` after the store is ready (certificates, token file): they end the process.
- System.RunsAreGood: a start that fails because the save of freed reservations failed is not a step, because in these runs no start has reservations to free; `Store.Setup` says what disk it leaves.
- Auth.WindowBound: assumes that the clock does not run backwards, as Go's monotonic reading gives; the limiter's own methods do not.
