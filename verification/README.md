# Verified models of the load balancer, the MonoFS kernel client and two build tools

The project models the parts of the repository whose correctness is hard to see and proves
what they are for.

- **Service registry** (`Registry.dfy`, `RegistryState.dfy`). Services, used ports and a
  search hint. The table is a value with functions for each request; the class `State`
  updates its fields in place and is proved against those functions. The invariant is that
  services and ports are inverse, no record is empty, and the hint skips no free port.
- **Proxy engine** (`Routing.dfy`, `Proxy.dfy` and the other `Proxy*.dfy`). A state machine
  with one step per atomic operation and per critical section of a listener's lock.
  Connection handlers and the sync goroutine interleave freely; the theorems are about every
  finite run from the initial state.
- **Kubernetes agent** (`Agent.dfy`, `AgentRuns.dfy`, `AgentFailures.dfy`). The reconcile
  loop as a class on top of the registry class, and as a machine in which every RPC is a
  step that may be lost or refused, resources may change their services, and other clients
  act in between.
- **Kernel client** (`SeedNamespace.dfy`, `NativeCodec.dfy`, `NativeCursor.dfy`,
  `NativeRequests.dfy`, `NativeFraming.dfy`, `NativeSession.dfy`, `NativeAlignment.dfy`,
  `SeedOptions.dfy`). Resumable directory listings and lookup from the seed paths, the wire
  codec, what the gateway reads from each request, framing over an arbitrary transport, and
  the parser and printer of the seed option.
- **Key file** (`Dotenv.dfy`, `KeyFile.dfy`). Reading, writing and ensuring the encryption
  key in a `.env` file.
- **Image stamper** (`ImageStamp.dfy`). Rewriting image references in YAML documents.

`Basics.dfy` holds decimal text, the ordering of strings and the sort of `sort.Slice`;
`Trimming.dfy` holds stripping, splitting and joining; `Errno.dfy` the error numbers.

Ten claims one might expect are false of the code. Each has a lemma with an input or a run
that shows it and a lemma with the exact condition under which the claim holds.

- Automatic ports come from the configured range: `ReleasedLowPinEscapesRange`,
  `AutoPortIsLowestFree`.
- An unhealthy backend stays so: `UnhealthyCanBeOverwritten`, `LostUnhealthyHitTheWindow`.
- A handler never removes an active backend: `ListedBackendCanBeEvicted`,
  `ActiveEvictionHitTheWindow`. The next sync restores it (`SectionResult`).
- The registry holds what the agent knows: `LostRegistrationStays` and, with no RPC failing,
  `RenamedServiceStaysEmpty`; `AgreementIffRpcsLanded`.
- Each call to the gateway gets its own reply: `Interrupted`, `ConverseOver`.
- The encryption key is never rotated: `KeyIsRotated`, `NoRotation`.
- Parsing the printed seed option gives the same seeds: `BlankBehindSlash`,
  `PrintedParsesBack`.
- No name is listed twice in a directory: `ControlSeedListedTwice`, `NoNameTwice`; for the
  control name also `ControlNameAgrees`.
- Listed names are nonempty: `DoubleSlashListsEmptyName`, `NamesAreNonempty`.
- Stamping twice is stamping once: `SharedNameIsStampedTwice`, `StampingIsIdempotent`.

In one place the code and its documentation disagree: the docstring of `_image_repo_name`
(src/stratatools/image/__init__.py:386) gives `grafana/grafana` as a bare name, but the
code cuts at the last slash and yields `grafana`. The model follows the code; see
`RepoNameIsBare`.

`dafny verify dfyconfig.toml` checks everything.

## Model

| member | source | states |
|---|---|---|
| Registry.LeastFree | partitions/dev-workspace/payloads/sources/lb/pkg/registry/state.go:266-272 | the scan's result is the least port of the interval that is not used, or none if all are |
| Registry.NewTableInv | partitions/dev-workspace/payloads/sources/lb/pkg/registry/state.go:39-53 | a new registry satisfies the invariant, has no service, and has a port to give exactly if its limits do not cross or, the upper one being replaced, the lower one is at most 60000 |
| Registry.SecondScanIsRedundant | partitions/dev-workspace/payloads/sources/lb/pkg/registry/state.go:273-279 | in every state that satisfies the invariant the scan from the bottom of the range up to the hint finds nothing |
| Registry.ReserveEffect | partitions/dev-workspace/payloads/sources/lb/pkg/registry/state.go:254-281 | a granted port was unused and positive, is the pinned one if one was asked for, and is all that changes besides the hint, which moves right behind a port that was not pinned; an error changes nothing |
| Registry.OpenEffect | partitions/dev-workspace/payloads/sources/lb/pkg/registry/state.go:83-96 | finding or creating the record of a service keeps the two maps inverse and every other record as it was |
| Registry.ApplyInv | partitions/dev-workspace/payloads/sources/lb/pkg/registry/state.go:62-196 | each request, good or bad, keeps the maps inverse, every record nonempty and well formed, and every port between the bottom of the range and the hint used |
| Registry.RunInv | partitions/dev-workspace/payloads/sources/lb/pkg/registry/state.go:62-196 | the same for every sequence of requests |
| Registry.OnePortPerService | partitions/dev-workspace/payloads/sources/lb/pkg/registry/state.go:34-36 | in such a state there are exactly as many used ports as services |
| Registry.AddBackendEffect | partitions/dev-workspace/payloads/sources/lb/pkg/registry/state.go:62-148 | a rejected registration leaves the whole state as it was; an accepted one adds exactly one backend to exactly one service, whose port it returns; the first one files the record with the account or the default one, the name, the protocol and the description of the request, and later ones change none of these |
| Registry.RemoveBackendEffect | partitions/dev-workspace/payloads/sources/lb/pkg/registry/state.go:150-196 | with a positive port exactly that backend goes, otherwise every backend of the address, and all others stay; the answer is true exactly if some backend went; the record goes, and its port with it, exactly when no backend is left; other services stay as they are; an error comes exactly without a name or an address |
| Registry.PortNeverChanges | partitions/dev-workspace/payloads/sources/lb/pkg/registry/state.go:83-102 | as long as a service's record lives, over any sequence of requests, its external port is the same |
| Registry.AutoPortIsLowestFree | partitions/dev-workspace/payloads/sources/lb/pkg/registry/state.go:266-281 | automatic allocation returns the least free port of the range, and fails only if there is none, exactly if no port below the range is free at or above the hint |
| Registry.LowestFreeInEveryRun | partitions/dev-workspace/payloads/sources/lb/pkg/registry/state.go:188-194 | in every sequence of requests whose pinned ports are not below the range, automatic allocation returns the least free port of the range and fails only if none is free |
| Registry.ReleasedLowPinEscapesRange | partitions/dev-workspace/payloads/sources/lb/pkg/registry/state.go:191-193 | a pinned low port that is released pulls the hint below the range, and the next automatic port is that low one |
| RegistryState.State.constructor | partitions/dev-workspace/payloads/sources/lb/pkg/registry/state.go:39-53 | the object starts as the new table |
| RegistryState.State.ReservePort | partitions/dev-workspace/payloads/sources/lb/pkg/registry/state.go:254-281 | the two scan loops compute the allocation function on the object's fields |
| RegistryState.State.Seed | partitions/dev-workspace/payloads/sources/lb/pkg/registry/state.go:108-148 | the object's new state and result are those of the table's registration function, and the invariant holds |
| RegistryState.State.Register | partitions/dev-workspace/payloads/sources/lb/pkg/registry/state.go:62-103 | the same for a request without protocol and description |
| RegistryState.Without | partitions/dev-workspace/payloads/sources/lb/pkg/registry/state.go:172-186 | the deletion loop keeps exactly the backends that are neither the one addressed nor, without a positive port, at the address, in whatever order they come |
| RegistryState.State.Deregister | partitions/dev-workspace/payloads/sources/lb/pkg/registry/state.go:150-196 | the object's new state and result are those of the table's removal function, and the invariant holds |
| RegistryState.SortedBackends | partitions/dev-workspace/payloads/sources/lb/pkg/registry/state.go:204-213 | the backends of a service are listed each once in strictly increasing order of address and port |
| Basics.StrLessMeans | partitions/dev-workspace/payloads/sources/lb/pkg/registry/state.go:208-213 | the order of texts used there: the first difference decides, and a proper prefix comes first |
| RegistryState.State.Snapshot | partitions/dev-workspace/payloads/sources/lb/pkg/registry/state.go:198-234 | every service is listed exactly once, in strictly increasing order of account and name, with all its backends in order |
| RegistryState.SnapshotUnique | partitions/dev-workspace/payloads/sources/lb/pkg/registry/state.go:198-234 | there is only one such document, so the order in which the maps are iterated does not show |
| Routing.BuildDesired | partitions/dev-workspace/payloads/sources/lb/pkg/proxy/engine.go:141-153 | the loops compute the desired table of the routes |
| Routing.DesiredMatchesRegistry | partitions/dev-workspace/payloads/sources/lb/pkg/proxy/engine.go:141-153 | built from a snapshot of any reachable registry, the table has exactly the used ports, and under each exactly the backends of the one service that owns it: none skipped, none merged |
| Basics.HostPortKeyInjective | partitions/dev-workspace/payloads/sources/lb/pkg/proxy/engine.go:355-357 | different address and port pairs have different keys, although addresses may contain colons |
| ProxyInvariant.StepInv | partitions/dev-workspace/payloads/sources/lb/pkg/proxy/engine.go:135-332 | every step of every handler and of the sync keeps: entries point to live backends created under their own key, closed instances are empty, and the sync's partial work holds |
| ProxySafety.RunInv | partitions/dev-workspace/payloads/sources/lb/pkg/proxy/engine.go:135-332 | the invariant holds in every state of every interleaving |
| ProxySafety.SectionEndDrops | partitions/dev-workspace/payloads/sources/lb/pkg/proxy/engine.go:188-206 | when a sync leaves a port's section no unlisted key has an active backend on any instance of that port |
| ProxySafety.QuietLasts | partitions/dev-workspace/payloads/sources/lb/pkg/proxy/engine.go:169-207 | over any interleaving this lasts until a sync starts whose snapshot lists the key again |
| ProxySafety.DroppedKeyIsNeverPicked | partitions/dev-workspace/payloads/sources/lb/pkg/proxy/engine.go:311-332 | under any interleaving, after a sync dropped a key on a port, no pick on that port returns a backend with that key until a later sync lists it again |
| ProxyDrain.CountersAreExact | partitions/dev-workspace/payloads/sources/lb/pkg/proxy/engine.go:253-265 | in every state of every run the connection counter of each backend is the number of handlers between their increment and their decrement |
| ProxyDrain.HoldersOnlyLeave | partitions/dev-workspace/payloads/sources/lb/pkg/proxy/engine.go:169-186 | after the first sync without the port, the handlers that hold one of its backends are always among those that held one before |
| ProxyDrain.DrainedPortIsClosed | partitions/dev-workspace/payloads/sources/lb/pkg/proxy/engine.go:169-186 | a sync that begins when no handler holds a backend of the dropped port leaves no listener on that port when it ends |
| ProxyDrain.ShutdownIsFinal | partitions/dev-workspace/payloads/sources/lb/pkg/proxy/engine.go:359-366 | shutting down removes every listener, and no later step brings one back |
| ProxyHealth.FailureCounterIsExact | partitions/dev-workspace/payloads/sources/lb/pkg/proxy/engine.go:267-279 | in every run the failure counter is the number of failed dials since the last successful one |
| ProxyHealth.TripIsTransition | partitions/dev-workspace/payloads/sources/lb/pkg/proxy/backend.go:55-65 | the compare-and-swap loop returns true exactly at the steps that turn the backend unhealthy |
| ProxyHealth.OneTripPerTransition | partitions/dev-workspace/payloads/sources/lb/pkg/proxy/engine.go:270-274 | the trip metric counts each transition to Unhealthy exactly once |
| ProxyHealth.UnhealthyAfterThreeFailures | partitions/dev-workspace/payloads/sources/lb/pkg/proxy/engine.go:267-276 | each transition follows a failed dial of the same handler that was at least the third since the last successful dial |
| ProxyHealth.TripBeginsIff | partitions/dev-workspace/payloads/sources/lb/pkg/proxy/engine.go:268-271 | in every run a step takes a handler into markUnhealthy exactly if it is a failed dial of that handler and at least the third since the backend was last dialed successfully |
| ProxyHealth.TripEndsUnhealthy | partitions/dev-workspace/payloads/sources/lb/pkg/proxy/backend.go:55-65 | in every run a handler inside markUnhealthy stays inside, whatever others do, until a step of its own after which the backend is unhealthy: a lost compare-and-swap is tried again |
| ProxyHealth.ThirdFailureMarks | partitions/dev-workspace/payloads/sources/lb/pkg/proxy/engine.go:267-276 | after a third failure the handler is still inside markUnhealthy or the backend has been unhealthy since |
| ProxyHealth.SwapExpectsLoaded | partitions/dev-workspace/payloads/sources/lb/pkg/proxy/backend.go:57-61 | the state that a compare-and-swap expects is the one its handler loaded, and the handler has done nothing since, so that only the step of another can make it fail |
| ProxyHealth.RecoveryIsStore | partitions/dev-workspace/payloads/sources/lb/pkg/proxy/backend.go:51-53 | an unhealthy backend becomes healthy exactly by the sync's store of Active |
| ProxyHealth.UnhealthyIsFinalIfAtomic | partitions/dev-workspace/payloads/sources/lb/pkg/proxy/engine.go:199-200 | if the check for Draining and the store of Active are not separated by another step, Unhealthy is final for the object |
| ProxyHealth.LostUnhealthyHitTheWindow | partitions/dev-workspace/payloads/sources/lb/pkg/proxy/engine.go:199-200 | in every run a backend stops being unhealthy at a step exactly if that step is a sync's store of Active and a markUnhealthy succeeded on the backend while the sync stood between its check and this store |
| ProxyWindow.UnhealthyCanBeOverwritten | partitions/dev-workspace/payloads/sources/lb/pkg/proxy/engine.go:199-200 | such a state is reachable: Unhealthy is not final in the code as it is |
| ProxyEviction.ActiveEvictionHitTheWindow | partitions/dev-workspace/payloads/sources/lb/pkg/proxy/engine.go:255-265 | in every run a backend is active when its last handler gets to remove it exactly if a sync stored Active to it after the handler saw it draining, and no trip and no other drain came in between |
| ProxyEviction.EvictionRemoves | partitions/dev-workspace/payloads/sources/lb/pkg/proxy/engine.go:259-263 | the entry goes exactly if it still is that backend and nothing is connected to it, and nothing else changes |
| ProxyEviction.LastConnectionRemoves | partitions/dev-workspace/payloads/sources/lb/pkg/proxy/engine.go:255-258 | in every run a handler that gave its connection back goes on to remove its backend exactly if that took the counter to zero and it then sees the backend draining; otherwise it is done |
| ProxyEviction.ListedBackendCanBeEvicted | partitions/dev-workspace/payloads/sources/lb/pkg/proxy/engine.go:258-262 | such a removal is reachable: a backend that the last sync listed and made active disappears |
| ProxyResync.SectionResult | partitions/dev-workspace/payloads/sources/lb/pkg/proxy/engine.go:188-206 | when a sync leaves a port's section, every listed key is present and not Draining, and every other surviving key is not Active |
| ProxyResync.SurvivorWasBusy | partitions/dev-workspace/payloads/sources/lb/pkg/proxy/engine.go:189-196 | an unlisted key that survives had a counted connection when the sync checked it |
| ProxyResync.SyncSettles | partitions/dev-workspace/payloads/sources/lb/pkg/proxy/engine.go:135-210 | a sync without connection events leaves every port it listens on as its snapshot wants it: listed keys present and not Draining, the others not Active and with connections, and unlisted ports not empty |
| ProxyResync.RepeatedSyncIsNoOp | partitions/dev-workspace/payloads/sources/lb/pkg/proxy/engine.go:135-210 | a second sync of the same snapshot, without connection events and with failing ports still failing, ends in the very same state |
| ProxyDelivery.SyncProvides | partitions/dev-workspace/payloads/sources/lb/pkg/proxy/engine.go:158-167 | after such a sync every desired port has a listener, unless listening on it failed in that sync, and every listener is as the snapshot wants it |
| ProxyDelivery.OfferedAreOwned | partitions/dev-workspace/payloads/sources/lb/pkg/proxy/engine.go:135-210 | after such a sync of the snapshot of any reachable registry, a backend can be picked on a port exactly if it belongs to the service that owns the port and is not marked unhealthy |
| ProxyDelivery.TurnedAwayIff | partitions/dev-workspace/payloads/sources/lb/pkg/proxy/engine.go:245-251 | a connection that arrives then is turned away exactly if the port has no owner any more or each of the owner's backends is marked unhealthy |
| ProxyProgress.PicksWhatIsActive | partitions/dev-workspace/payloads/sources/lb/pkg/proxy/engine.go:311-332 | in every run a handler that may take the lock can pick exactly the active backends of its instance, and gets none exactly if there is none |
| ProxyProgress.HandlerCanMove | partitions/dev-workspace/payloads/sources/lb/pkg/proxy/engine.go:245-279 | in every run each handler that is not done has its next step, and waits while a sync holds the lock exactly where the code takes it: to pick a backend and to remove one |
| ProxyProgress.SyncCanMove | partitions/dev-workspace/payloads/sources/lb/pkg/proxy/engine.go:155-210 | in every run, until it is shut down, the sync has a next step |
| ProxyProgress.StepNearsEnd | partitions/dev-workspace/payloads/sources/lb/pkg/proxy/engine.go:155-210 | each step of a sync makes its rank smaller, in a well-founded order, except a compare-and-swap that fails |
| ProxyProgress.LostSwapIsUnhealthy | partitions/dev-workspace/payloads/sources/lb/pkg/proxy/backend.go:39-49 | in every run the compare-and-swap that drains fails only for a backend that a trip made unhealthy, and the next look at it is the last |
| Agent.ParseEndpoints | partitions/dev-workspace/payloads/sources/lb/pkg/k8sagent/agent.go:224-235 | exactly the pairs of an address and a port of the same subset are collected, each under its own key |
| Agent.RegisterEffect | partitions/dev-workspace/payloads/sources/lb/pkg/k8sagent/agent.go:119-125 | a registration adds one backend to one service, or nothing if it fails |
| Agent.RegisterFails | partitions/dev-workspace/payloads/sources/lb/pkg/k8sagent/agent.go:119-128 | a valid registration fails exactly if the service has another external port, or has none and the one asked for, or every one from the hint to the top of the range, is taken; that does not change by it |
| Agent.DeregisterEffect | partitions/dev-workspace/payloads/sources/lb/pkg/k8sagent/agent.go:135-140 | deregistering a valid endpoint never fails and removes that one backend |
| Agent.Watcher.Reconcile | partitions/dev-workspace/payloads/sources/lb/pkg/k8sagent/agent.go:99-147 | if registry and known endpoints agreed before, they disagree afterwards exactly if there were endpoints to register and the registry refuses the service; the known endpoints are replaced either way |
| Agent.Watcher.DeregisterAll | partitions/dev-workspace/payloads/sources/lb/pkg/k8sagent/agent.go:165-179 | the known endpoints are forgotten, and if they agreed with the registry the service is gone |
| AgentRuns.StepAgrees | partitions/dev-workspace/payloads/sources/lb/pkg/k8sagent/agent.go:99-179 | each single RPC or local step, in any map order and with other clients in between, keeps registry and agent in agreement |
| AgentRuns.RegistryMatchesKnown | partitions/dev-workspace/payloads/sources/lb/pkg/k8sagent/agent.go:99-179 | over every run of add, update, delete and unexpose events with successful RPCs, the registry holds for each service exactly the known endpoints, and the record exists exactly if there are any |
| AgentRuns.EventIsCarriedOut | partitions/dev-workspace/payloads/sources/lb/pkg/k8sagent/agent.go:99-179 | when an event is finished the agent knows its endpoints for the resource, or after a withdrawal none, and for other resources what it knew |
| AgentRuns.RegistryHasEvent | partitions/dev-workspace/payloads/sources/lb/pkg/k8sagent/agent.go:99-179 | in every such run the registry has exactly the endpoints of the event when the event is finished, and none after a withdrawal |
| AgentRuns.PortSurvivesReplacement | partitions/dev-workspace/payloads/sources/lb/pkg/k8sagent/agent.go:112-146 | from the start to the end of a reconcile between two nonempty endpoint sets, even disjoint ones, the record exists at every step and keeps its external port |
| AgentFailures.RegistryHoldsLastLanded | partitions/dev-workspace/payloads/sources/lb/pkg/k8sagent/agent.go:119-143 | in every state of every run, with any RPC lost or refused and resources changing or sharing services, a service that other clients leave alone has exactly the endpoints whose last successful RPC for it was a registration |
| AgentFailures.AgreementIffRpcsLanded | partitions/dev-workspace/payloads/sources/lb/pkg/k8sagent/agent.go:106-146 | between events the agent knows exactly the endpoints whose last RPC for the resource, successful or not, was a registration, and a service has exactly those if and only if, for every endpoint, the last RPC tried for the resource and the last one that succeeded for the service agree |
| AgentFailures.KnownIsNotRetried | partitions/dev-workspace/payloads/sources/lb/pkg/k8sagent/agent.go:115-118 | an endpoint the agent knows is not registered again by any later reconcile |
| AgentFailures.LostRegistrationStays | partitions/dev-workspace/payloads/sources/lb/pkg/k8sagent/agent.go:126-146 | a lost registration leaves the endpoint known and not registered, and reconciling the same endpoints again does nothing |
| AgentFailures.RenamedServiceStaysEmpty | partitions/dev-workspace/payloads/sources/lb/pkg/k8sagent/agent.go:106-146 | if a resource comes under another service, no RPC fails, and yet the new service stays empty and the former one keeps the endpoint |
| SeedNamespace.EmitNamespaceChildren | partitions/dev-workspace/payloads/sources/monofs-client/monofs-kmod/namespace.c:257-321 | the children after the first skip ones are emitted in order until the buffer is full or the listing ends |
| SeedNamespace.IterateShared | partitions/dev-workspace/payloads/sources/monofs-client/monofs-kmod/namespace.c:399-448 | one call fills the buffer with the next entries of one fixed listing from its position and moves the position past them; other kinds fail with ENOTDIR |
| SeedNamespace.ReadDirectory | partitions/dev-workspace/payloads/sources/monofs-client/monofs-kmod/namespace.c:399-448 | any number of calls with any buffer sizes return a prefix of the listing as long as the buffers allow: nothing is repeated or skipped at the seams |
| SeedNamespace.ChildIffNext | partitions/dev-workspace/payloads/sources/monofs-client/monofs-kmod/namespace.c:279-300 | a name is a child exactly if it is the next component of some seed |
| SeedNamespace.ChildrenDistinct | partitions/dev-workspace/payloads/sources/monofs-client/monofs-kmod/namespace.c:283-300 | no child is found twice |
| SeedNamespace.NoNameTwice | partitions/dev-workspace/payloads/sources/monofs-client/monofs-kmod/namespace.c:418-445 | no name is listed twice exactly if no child has one of the reserved names |
| SeedNamespace.ControlSeedListedTwice | partitions/dev-workspace/payloads/sources/monofs-client/monofs-kmod/namespace.c:421-445 | a seed below the control directory makes the root list that directory twice |
| SeedNamespace.EmptyNameIff | partitions/dev-workspace/payloads/sources/monofs-client/monofs-kmod/namespace.c:199-205 | a directory has a child with the empty name exactly if some seed doubles the slash below it |
| SeedNamespace.NamesAreNonempty | partitions/dev-workspace/payloads/sources/monofs-client/monofs-kmod/namespace.c:199-205 | every child of every directory has a nonempty name exactly if no seed has a slash in front or right behind another |
| SeedNamespace.DoubleSlashListsEmptyName | partitions/dev-workspace/payloads/sources/monofs-client/monofs-kmod/namespace.c:199-205 | a seed with two slashes in a row gives its directory a child without a name |
| SeedNamespace.NextIffSeedOrParent | partitions/dev-workspace/payloads/sources/monofs-client/monofs-kmod/namespace.c:179-225 | a slash-free name is a seed's next component below a directory exactly if the path of the child is that seed or a parent of it |
| SeedNamespace.ListedIffFound | partitions/dev-workspace/payloads/sources/monofs-client/monofs-kmod/namespace.c:450-572 | for every directory and every nonempty slash-free name but the control name at the top, the name is listed exactly if lookup finds it, with the same inode number |
| SeedNamespace.ControlNameAgrees | partitions/dev-workspace/payloads/sources/monofs-client/monofs-kmod/namespace.c:544-554 | at the top the control name is found as the control directory, and the listing agrees exactly if no seed starts with that name |
| SeedNamespace.DotsOfChild | partitions/dev-workspace/payloads/sources/monofs-client/monofs-kmod/namespace.c:416 | the listing of a directory that lookup found begins with "." under the number lookup gave and ".." under the number of the directory it was found in |
| SeedNamespace.ListedTypeIsFound | partitions/dev-workspace/payloads/sources/monofs-client/monofs-kmod/namespace.c:21-46 | an entry is listed as a directory exactly if lookup makes a directory for its name |
| SeedNamespace.FixedNamesFound | partitions/dev-workspace/payloads/sources/monofs-client/monofs-kmod/namespace.c:463-479 | the control directory and its two files are found under their names with their kinds and numbers, whatever the seeds are |
| SeedNamespace.ReachedIffSeedOrParent | partitions/dev-workspace/payloads/sources/monofs-client/monofs-kmod/namespace.c:528-572 | from the top a chain of proper names outside the control directory can be looked up step by step exactly if its path is a seed or a parent of one, and it ends at the directory of that path |
| SeedNamespace.ReachedIsListed | partitions/dev-workspace/payloads/sources/monofs-client/monofs-kmod/namespace.c:440-445 | every name on such a way is listed in its directory, under the number of the directory it leads to |
| SeedNamespace.MixAll | partitions/dev-workspace/payloads/sources/monofs-client/monofs-kmod/namespace.c:150-154 | the loop mixes the bytes of the path into the hash from the first to the last |
| SeedNamespace.FoldMore | partitions/dev-workspace/payloads/sources/monofs-client/monofs-kmod/namespace.c:150-154 | one more byte at the end of a path is mixed into the hash of the path before it |
| SeedNamespace.HashIsLarge | partitions/dev-workspace/payloads/sources/monofs-client/monofs-kmod/namespace.c:146-157 | hashed inode numbers never collide with the fixed ones |
| NativeCodec.FromLEInverts | partitions/dev-workspace/payloads/sources/monofs-client/monofs-kmod/native.c:111-192 | little-endian bytes of a number that fits give the number back |
| NativeCodec.EightBytes | partitions/dev-workspace/payloads/sources/monofs-client/monofs-kmod/native.c:171-182 | an eight-byte number has its least significant byte first |
| NativeCodec.ValueInverts | partitions/dev-workspace/payloads/sources/monofs-client/monofs-kmod/native.c:99-192 | integers of each width are read back unchanged |
| NativeCodec.DecodeInverts | partitions/dev-workspace/payloads/sources/monofs-client/monofs-kmod/native.c:147-237 | a getter undoes its putter wherever the field lies in the buffer |
| NativeCodec.DecodeSeqInverts | partitions/dev-workspace/payloads/sources/monofs-client/monofs-kmod/native.c:92-237 | if reading each item undoes writing it, reading a sequence undoes writing it |
| NativeCodec.DecodeAllInverts | partitions/dev-workspace/payloads/sources/monofs-client/monofs-kmod/native.c:92-237 | getters undo putters on any sequence of integers, byte blocks and strings shorter than 2^32 bytes |
| NativeCodec.DecodeAllInBounds | partitions/dev-workspace/payloads/sources/monofs-client/monofs-kmod/native.c:158-237 | on arbitrary bytes every sequence of getters keeps the offset within the buffer |
| NativeCursor.Cursor.Put | partitions/dev-workspace/payloads/sources/monofs-client/monofs-kmod/native.c:135-145 | all bytes are written and the offset moved, or nothing changes and the result is EIO |
| NativeCursor.Cursor.PutField | partitions/dev-workspace/payloads/sources/monofs-client/monofs-kmod/native.c:99-156 | a field that fits is written in full, one that does not gives EIO |
| NativeCursor.Cursor.GetField | partitions/dev-workspace/payloads/sources/monofs-client/monofs-kmod/native.c:158-237 | the getter returns what the decoding function says and moves the offset there, on failures too |
| NativeCursor.Cursor.GetAll | partitions/dev-workspace/payloads/sources/monofs-client/monofs-kmod/native.c:707-715 | a chain of getters, each tried only after success, returns what decoding the shapes says |
| NativeRequests.BodyLenIsExact | partitions/dev-workspace/payloads/sources/monofs-client/monofs-kmod/native.c:436-439 | the length each request encoder computes beforehand is the length of its encoding |
| NativeRequests.EncodeRequest | partitions/dev-workspace/payloads/sources/monofs-client/monofs-kmod/native.c:436-461 | every request encoder succeeds, fills its precomputed buffer to the last byte with the encoding of its fields, and leaves there what the gateway reads as that request |
| NativeRequests.BodyArrives | partitions/dev-workspace/payloads/sources/monofs-client/monofs-kmod/native.c:427-955 | for every request whose numbers have their C types, reading the body by operation from the fixed offsets of the protocol gives the request back: greeting, mount, lookup, readdir, open, read and close |
| NativeRequests.RequestArrives | partitions/dev-workspace/payloads/sources/monofs-client/monofs-kmod/native.c:317-343 | a gateway that finds the bytes a call sent reads header and body from them and has the request that was meant, with its number, session and generation |
| NativeCursor.DecodeReaddir | partitions/dev-workspace/payloads/sources/monofs-client/monofs-kmod/native.c:699-740 | the reply loop returns what decoding the head and the counted entries says, and EIO if any read fails |
| NativeCursor.ReplyInverts | partitions/dev-workspace/payloads/sources/monofs-client/monofs-kmod/native.c:699-740 | the directory reply decoder gives back every reply that was encoded |
| NativeCursor.EntryLayout | partitions/dev-workspace/payloads/sources/monofs-client/monofs-kmod/native.c:721-732 | on arbitrary bytes an entry is read exactly if its length, its name and 28 more bytes are there, and it is the name, object, inode number and mode that lie at these offsets |
| NativeCursor.ReplyLayout | partitions/dev-workspace/payloads/sources/monofs-client/monofs-kmod/native.c:699-740 | whatever reply is decoded from whatever bytes, its lifetime, cookie, end mark and count are the first 17 bytes, and its entries lie one behind the other after them |
| NativeFraming.HeaderInverts | partitions/dev-workspace/payloads/sources/monofs-client/monofs-kmod/native.c:45-57 | the packed structure laid over an encoded header gives all eleven fields back |
| NativeFraming.ErrnoOf | partitions/dev-workspace/payloads/sources/monofs-client/monofs-kmod/native.c:65-90 | a status gives no error exactly if it is 0 |
| NativeSession.Socket.RecvAll | partitions/dev-workspace/payloads/sources/monofs-client/monofs-kmod/native.c:287-307 | success means exactly the requested bytes, in order, however they were split; failure means fewer were taken and gives the error of the last receive, or EIO if that reached the end of the stream; without transport failures and with enough bytes ahead it succeeds |
| NativeSession.Socket.SendAll | partitions/dev-workspace/payloads/sources/monofs-client/monofs-kmod/native.c:271-285 | success means everything was sent; an error of the transport is passed on, and a short send is EIO |
| NativeSession.Session.RoundTrip | partitions/dev-workspace/payloads/sources/monofs-client/monofs-kmod/native.c:309-379 | with a whole accepted frame ahead exactly 52 + body_len bytes are consumed, whatever the status, and header, errno, generation and body are those of the frame, if no operation of the transport fails, and otherwise the call ends before the end of the frame; an unacceptable header is EPROTO; the request sent is numbered and stamped |
| NativeSession.Converse | partitions/dev-workspace/payloads/sources/monofs-client/monofs-kmod/native.c:309-379 | over any sequence of calls on a transport without failures the k-th call returns the k-th frame, even after error statuses, however the bytes are split; the bytes sent are the requests of the calls one behind the other, the k-th with the k-th number and the generation of the reply before it |
| NativeAlignment.ConverseOver | partitions/dev-workspace/payloads/sources/monofs-client/monofs-kmod/native.c:345-378 | over any sequence of calls and any transport, the calls up to one have all begun at their own frames exactly if no operation failed before it, and then each before it saw its frame |
| NativeAlignment.Interrupted | partitions/dev-workspace/payloads/sources/monofs-client/monofs-kmod/native.c:345-378 | if the first receive is interrupted the second call gets the reply of the first |
| NativeSession.FramesAreLined | partitions/dev-workspace/payloads/sources/monofs-client/monofs-kmod/native.c:345-366 | any concatenation of encoded frames is such a stream |
| NativeSession.NumberedInOrder | partitions/dev-workspace/payloads/sources/monofs-client/monofs-kmod/native.c:323 | those numbers are consecutive modulo 2^64 |
| SeedOptions.Separate | partitions/dev-workspace/payloads/sources/monofs-client/monofs-kmod/fs_context.c:64-69 | the first item and the rest are the pieces of the text at its commas |
| SeedOptions.CleanItem | partitions/dev-workspace/payloads/sources/monofs-client/monofs-kmod/fs_context.c:71-82 | the two loops cut off exactly the leading and trailing slashes left after trimming |
| SeedOptions.MountOptions.ParseSeedPaths | partitions/dev-workspace/payloads/sources/monofs-client/monofs-kmod/fs_context.c:59-90 | the parsed seeds are appended to those of the options before |
| SeedOptions.MountOptions.ShowSeedPaths | partitions/dev-workspace/payloads/sources/monofs-client/monofs-kmod/super.c:25-32 | the printer writes the seeds joined by commas |
| SeedOptions.ParsedAreGood | partitions/dev-workspace/payloads/sources/monofs-client/monofs-kmod/fs_context.c:71-84 | every parsed seed is nonempty, without commas and without a slash at either end |
| SeedOptions.PrintedParsesBack | partitions/dev-workspace/payloads/sources/monofs-client/monofs-kmod/super.c:25-32 | for the list after any number of options, parsing the printed list gives the list back exactly if no seed has a blank at either end |
| SeedOptions.BlankFreeParsesBack | partitions/dev-workspace/payloads/sources/monofs-client/monofs-kmod/super.c:25-32 | in particular for options without blanks |
| SeedOptions.BlankBehindSlash | partitions/dev-workspace/payloads/sources/monofs-client/monofs-kmod/fs_context.c:71-73 | a blank behind a leading slash ends up in a seed and is lost when the printed list is parsed |
| Dotenv.LinesInvert | src/stratatools/monofs_key.py:71 | lines that are joined and written are the lines that are read back |
| Dotenv.FirstLine | src/stratatools/monofs_key.py:35 | however lines end, the first line of a text is what stands before the first line end, and the others are the lines behind it |
| Dotenv.AssembledIsRead | src/stratatools/monofs_key.py:36-42 | a line put together from a name and a value, with any blanks around both and any quotes around the value, is read as that name and that value |
| Dotenv.OthersBindNothing | src/stratatools/monofs_key.py:36-38 | a line without an equals sign or with a number sign in front binds nothing |
| Dotenv.HitBinds | src/stratatools/monofs_key.py:60-63 | each line the writer replaces is one the reader takes for the variable |
| Dotenv.ReadDotenvValue | src/stratatools/monofs_key.py:34-43 | the loop returns the stripped and unquoted value of the first line that binds the name, or the empty text |
| Dotenv.WriteDotenvValue | src/stratatools/monofs_key.py:46-71 | the loop and the final join give the text with every recognised line replaced, or the variable added behind an empty line |
| Dotenv.FileAfterWrite | src/stratatools/monofs_key.py:46-71 | line by line: every line that begins with the name and an equals sign becomes the assignment and all others stay; if there is none, all lines stay and the assignment follows, behind an empty line if the last one is not empty |
| Dotenv.ReadAfterWrite | src/stratatools/monofs_key.py:34-71 | after writing, the variable reads as the new value unless its first line has blanks before the equals sign, and every other variable reads as before |
| KeyFile.KeyStore.ResolveState | src/stratatools/monofs_key.py:82-115 | a valid key is found exactly if the file or the environment has one; the source is the file exactly if it has a value and the environment is not the only one with a valid key, and the environment exactly in the other cases in which it has a value |
| KeyFile.KeyStore.Ensure | src/stratatools/monofs_key.py:118-166 | result, file and environment are those of the outcome function, in all error cases too; a dry run leaves the file alone, a failure leaves file and environment alone, and a success leaves its key in the environment |
| KeyFile.FailureCauses | src/stratatools/monofs_key.py:142-155 | each of the three failures comes exactly when it should: an invalid value without a valid one beside it, blamed on the file if that has one; no value and no permission to create; no value and no repository, unless it is a dry run |
| KeyFile.FailureChangesNothing | src/stratatools/monofs_key.py:142-155 | a failed call changes neither the file nor the environment |
| KeyFile.SuccessGives | src/stratatools/monofs_key.py:126-167 | a successful call gives the key of the file if that is valid, otherwise that of the environment, otherwise the generated one, says whether it created it, and leaves it in the environment |
| KeyFile.DryRunWritesNothing | src/stratatools/monofs_key.py:132-134 | a dry run, and a call that finds a valid key in the file, leaves the file as it was |
| KeyFile.DryRunForesees | src/stratatools/monofs_key.py:118-167 | a dry run has the result and the environment of the real call, unless that fails for want of a repository |
| KeyFile.KeyIsStored | src/stratatools/monofs_key.py:118-166 | a successful call that may write leaves its key as the file's value exactly if the file was safe |
| KeyFile.OthersAreKept | src/stratatools/monofs_key.py:46-71 | every other variable of the file reads as before, after any call |
| KeyFile.NoRotation | src/stratatools/monofs_key.py:118-166 | after a successful call that is no dry run, every sequence of later calls, in any environment and with any flags, returns the same key and leaves the file alone, exactly if the file held a valid key or its first line for the variable has no blanks before the equals sign |
| KeyFile.BlankBeforeEquals | src/stratatools/monofs_key.py:39-43 | a blank before the equals sign and an invalid value make a file unsafe |
| KeyFile.KeyIsRotated | src/stratatools/monofs_key.py:118-166 | with a file that has a blank before the equals sign and no value, two calls return two generated keys |
| ImageStamp.RepoNameInverts | src/stratatools/image/__init__.py:379-394 | the bare name of a reference put together from path, name, tag and digest is that name |
| ImageStamp.RepoNameIsBare | src/stratatools/image/__init__.py:379-394 | a bare name has no slash, colon or at sign in it |
| ImageStamp.BuildRepoMapping | src/stratatools/image/__init__.py:584-597 | each bare name is mapped to its first target |
| ImageStamp.StampMeans | src/stratatools/image/__init__.py:614-622 | a reference that is a key becomes its target, any other one the first target with its bare name, and one for which there is neither stays |
| ImageStamp.Stamper.Replacement | src/stratatools/image/__init__.py:614-622 | the branches replace a reference exactly if stamping changes it, by what stamping gives |
| ImageStamp.Stamper.Walk | src/stratatools/image/__init__.py:611-630 | the replacements are collected in document order and made, unless it is a dry run, in which the document stays as it is |
| ImageStamp.StampFile | src/stratatools/image/__init__.py:600-639 | a dry run returns the same replacements as a real one and changes nothing; a real one leaves the stamped document |
| ImageStamp.StampedImages | src/stratatools/image/__init__.py:611-628 | every image reference is stamped, in place |
| ImageStamp.StampedFrame | src/stratatools/image/__init__.py:611-628 | with the string values of image keys blanked out, the stamped document and the original are the same |
| ImageStamp.StampedAt | src/stratatools/image/__init__.py:611-630 | at every place of every document key and value are as before, unless the key is "image" and the value a string, which is stamped |
| ImageStamp.StampedEverywhere | src/stratatools/image/__init__.py:611-630 | for a whole document: the places whose value differs afterwards are strings under the key "image", and hold what stamping gives |
| ImageStamp.ChangesArePlaces | src/stratatools/image/__init__.py:611-639 | the list of replacements names, in document order, the old and the new reference of exactly the places at which the stamped document differs |
| ImageStamp.Determined | src/stratatools/image/__init__.py:611-630 | references and the rest determine the document, so these two facts leave nothing open |
| ImageStamp.NothingToChange | src/stratatools/image/__init__.py:632-634 | the list of replacements is empty exactly if stamping leaves the document as it is |
| ImageStamp.StampingIsIdempotent | src/stratatools/image/__init__.py:600-639 | stamping twice is stamping once on every document exactly if every target either is a key for itself or is no key and is the first target with its bare name |
| ImageStamp.SharedNameIsStampedTwice | src/stratatools/image/__init__.py:584-597 | two targets with one bare name: the second is rewritten to the first by the next run |
| ImageStamp.SeparateTargetsSettle | src/stratatools/image/__init__.py:584-597 | this is so if no target is a key and different targets have different bare names |

## Left out

- Registry.RunInv: ports are unbounded integers, which is exact for a range whose top is below 2^31 - 1; at the top itself `port + 1` would wrap around.
- RegistryState.State.Seed: returns the port as well, so that one body serves `Seed` and `Register`, which differ only in that and in the two descriptive fields; the mutex is not modelled, since each method runs under it from end to end.
- Routing.BuildDesired: the fetched document is a value; HTTP and JSON are not modelled.
- ProxyInvariant.StepInv: engine and backend are a state machine on values and not classes, because their point is how single atomic operations interleave; choosing a backend is one step, as is each lock section of a handler; deleting an entry is one step with the load before it, which the held lock justifies.
- ProxyDrain.DrainedPortIsClosed: closing the socket itself is not modelled, and connections may still be accepted on a closed listener's instance, where they find no backend.
- ProxyResync.RepeatedSyncIsNoOp: ports that could not be opened are assumed to fail again.
- Agent.Watcher.Reconcile: endpoints have a nonempty address and a positive port and the service a name, as Kubernetes guarantees; RPCs lost on their way are in AgentFailures and not in this method.
- AgentRuns.RegistryMatchesKnown: for identities that do not change and are not shared, and for successful RPCs; AgentFailures.AgreementIffRpcsLanded covers runs with any identities and any failures, for services that other clients leave alone.
- SeedNamespace.IterateShared: allocation failures are not modelled, and the client is disconnected; names are byte sequences without the terminating NUL; a buffer refuses entries only for lack of room, although the kernel's own also refuses an empty name.
- SeedNamespace.ListedIffFound: two different paths may hash to the same inode number; equality of numbers is shown by equality of the hashed paths.
- NativeRequests.EncodeRequest: allocation failures are not modelled; offsets do not wrap around, which is exact for 64-bit sizes.
- NativeSession.Session.RoundTrip: allocation failures are not modelled; the counter of requests is read and written without interference, although the code increments it before it takes the lock.
- NativeSession.Converse: the change of session and generation that mounting makes between two calls is not modelled.
- SeedOptions.MountOptions.ParseSeedPaths: trimming works on values and not in place in the text's buffer; allocation failures are not modelled.
- KeyFile.KeyStore.Ensure: text is a sequence of characters; encoding errors, failing writes and the creation of directories are not modelled, and the generated key is a parameter.
- ImageStamp.Stamper.Walk: documents are trees without aliases, rebuilt and not updated in place; parsing and printing YAML is taken to be lossless.
- Round-robin fairness of `pickBackend`: the order of the eligible backends is unspecified.
- `resolveIntent` and the informer: annotations and the service lookup are parameters.
- Remote directory listing and lookup, page and dentry caches, mounting and unmounting.
- The replies of mount, lookup, open, read and statfs: further chains of the same getters.
- The text format of bootstrap seeds: their effect is a sequence of `Seed` calls.
- Copying between connections, dialing, metrics, the PROXY header, HTTP and gRPC.
- `planned_stamp_changes` and the recipe tables: a loop over files and constants.
