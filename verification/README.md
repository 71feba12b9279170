# Verified models of tapr's state machines

tapr is the operator that provisions middleware (PostgreSQL/Citus, NATS, Redis, KVRocks) and system
services for applications on Olares.  Most of it talks to Kubernetes and to databases.  This project
models the parts of it that are state machines of their own, in Dafny, and proves what they promise.
External systems are abstract state, and every call to one may fail: before its effect, after it, or
half-way, which a loop over rows takes for the end of the answer (`Calls`).

`dafny verify dfyconfig.toml` checks everything.

- **PostgreSQL provisioning** (`PgState`, `PgProvisioning`, `PgTarget`, `PgScripts`, `PgServer`,
  `PgRemoval`, `PgPrune`).  A cluster is a sequence of nodes with roles and databases.  `PgServer`, `PgRemoval` and
  `PgPrune` hold the handlers as they run, loops over nodes and databases that return at the first
  error; provisioning is proved equal to a plan.  `PgProvisioning` proves that a plan cut off at any
  call and retried ends where one undisturbed run ends, and exactly when a call is refused; `PgTarget`
  says declaratively where it ends, down to the characters of a name, and `PgScripts` when scripts run.
- **WebSocket registry** (`WsRegistry`, `WsSystem`, `WsCauses`, `WsConnection`, `WsLoop`).  `WsRegistry`
  has the two-level map, the filter and the methods that change it; `WsSystem` interleaves all routines
  over runs of any length; `WsCauses` traces every close and every write of a run to what asked for it;
  `WsConnection` has one connection's read loop and the expiry sweep, and `WsLoop`
  shows that loop to be the connection's steps in the interleaved system.
- **Corefile generator and address allocator** (`GoSlices`, `SubnetAllocator`, `Corefile`,
  `CorefileAnswers`, `CorefileHistory`).  Slices share backing arrays as in Go; the generator is proved
  against its intended lists for every capacity; then what each server answers to whom, and runs that
  start from their own earlier output.
- **NATS** (`NatsPermissions`, `NatsGrants`, `NatsUsers`, `NatsUserList`).  The export index against a
  scan of all requests; the delete loop over the array it shifts; the user list as a finite map.
- **Redis proxy configuration** (`PredixyConfig`, `PredixyLens`, `PredixyAuthority`).  The
  marker-delimited rewrite over all texts, as a lens; the section that is written, read back line by line.
- **User events** (`UserWatcher`).  The event cache and the activation machine against scans of the past.
- **KVRocks restore** (`KvrocksRestore`).  A procedure that removes and moves directories, under faults
  at every step.

Where the code turned out to do less than one would expect, the exact condition under which it does
is proved, with a concrete input on which it fails:

- the expiry sweep may need up to, but not including, 76 seconds instead of 75, because stamps and
  clock are cut to whole seconds (`WsConnection.FoundWithin75`);
- the NATS delete loop skips or fails on repeated names (`NatsUserList.DeleteIsFilterExactlyWhen`);
- a password with '#' breaks the next rewrite of the proxy's configuration
  (`PredixyLens.PutPutExactlyWithoutHash`), and one with a line break does not read back as written
  (`PredixyAuthority.SectionReadsBack`, `PredixyAuthority.LineBreakBreaksReading`);
- beyond 2^21 users the allocator leaves its subnets (`SubnetAllocator.SoundUpToHalfTheBlock`);
- the VPN view admits 100.64.0.0/16 while the allocator cuts up 100.64.0.0/10, so with the default
  number of users only the first 16 of 1024 subnets are inside it (`SubnetAllocator.ViewCoversSubnet`,
  `SubnetAllocator.DefaultUsersInView`);
- a user whose activation callback fails is not activated by the same event delivered again
  (`UserWatcher.NoSecondAttempt`, `UserWatcher.ActivationCanBeLost`);
- a listing of databases that breaks off is taken as complete: a prune may report success with a
  stale database left (`PgPrune.ExactWhenAllFound`, `PgPrune.PruneCanMissADatabase`), and a delete may
  ask for a role to be dropped that still owns one (`PgRemoval.DeletePGAll`,
  `PgRemoval.DeleteCanBeRefused`); queries for a role or a database that break off lead to refused
  creations (`PgProvisioning.RefusedExactlyWhenMisled`, `PgProvisioning.LookupCanMislead`);
- a prune that fails between the master and a worker leaves the worker's copy for good
  (`PgPrune.PruneRetry`, `PgPrune.PruneCanLeaveAWorkerCopy`);
- a restore that has removed the database directory or moved the backup and then stops cannot be
  repeated, because it first looks for both (`KvrocksRestore.Host.RestoreKVRocks`,
  `KvrocksRestore.RestoreCanBecomeImpossible`).

## Model

| member | source | states |
|---|---|---|
| `PgProvisioning.RetryMatchesUndisturbedRun` | cmd/middleware/operator/middleware-request/controller.go:203-214 | however often a request is cut off, at whichever calls and before or after their effect, the attempt that succeeds leaves the cluster exactly as one undisturbed run from the first state, which itself succeeds |
| `PgProvisioning.RetryEquivalence` | cmd/middleware/operator/middleware-request/controller.go:203-214 | the same against the failure-free effect of the plan |
| `PgProvisioning.UndisturbedSucceeds` | cmd/middleware/operator/middleware-request/handler_pg.go:15-134 | from every state of the cluster a run in which no call fails succeeds |
| `PgProvisioning.EventuallySucceeds` | cmd/middleware/operator/middleware-request/controller.go:203-214 | once the failures end, so do the attempts, with success |
| `PgProvisioning.LegalPlanFails` | cmd/middleware/operator/middleware-request/handler_pg.go:15-134 | a run fails only because a call does or because a query misled it |
| `PgProvisioning.RunAbsorbed` | cmd/middleware/operator/middleware-request/handler_pg.go:15-134 | one attempt cut off anywhere does not change what an undisturbed run from the state it leaves ends in |
| `PgTarget.CreateReachesTarget` | cmd/middleware/operator/middleware-request/handler_pg.go:15-134 | the undisturbed run ends in the declarative target: roles, databases with owners, extensions, coordinator and workers, from any start state |
| `PgTarget.SuccessIsTarget` | cmd/middleware/operator/middleware-request/controller.go:203-214 | after any number of failed attempts the successful one leaves exactly that target |
| `PgTarget.TargetRoles` | pkg/postgres/client.go:296-341 | at the target the first n nodes have the user's role with the request's password, 30 connections and file access; all other roles are as before |
| `PgTarget.TargetNames` | cmd/middleware/operator/middleware-request/handler_pg.go:44-57 | which databases a node holds at the target: those before, and on node 0 one for every entry, elsewhere for every distributed entry, named character by character from the application's namespace, '_' and the entry's name with '-' turned into '_'; no database changes its owner |
| `PgTarget.TargetIsDistributed` | cmd/middleware/operator/middleware-request/handler_pg.go:58-72 | every database a distributed entry asks for carries citus on every node, and node 0 is its coordinator with every worker registered |
| `PgTarget.TargetExtensions` | pkg/postgres/client.go:19-24 | which extensions a database has at the target: those before, citus if a distributed entry asks for it, and what its entries name, with pgvector read as vector and pgvecto.rs as vectors; nothing else |
| `PgTarget.TargetCoordinators` | cmd/middleware/operator/middleware-request/handler_pg.go:67-72 | on node 0 a database asked for by a distributed entry has node 0 as coordinator and the other nodes as workers besides earlier ones; nothing else changes |
| `PgProvisioning.RealNameSpells` | pkg/workload/citus/helper.go:706-708 | the name of a database is its two parts in place with '-' as '_' and a '_' between, and nothing else is |
| `PgProvisioning.SameDatabase` | pkg/workload/citus/helper.go:706-708 | two entries of a request share a database exactly if their names differ at most in '-' and '_' |
| `PgTarget.OneDatabasePerEntry` | cmd/middleware/operator/middleware-request/handler_pg.go:44-52 | when no two names are alike and none of the databases is there yet, node 0 ends with exactly as many more as the request has entries |
| `PgScripts.ScriptsRunOnce` | cmd/middleware/operator/middleware-request/handler_pg.go:80-87 | in the plan the scripts of an entry run exactly once on each node where it asks for its database, and no others run |
| `PgScripts.ScriptsRunLast` | cmd/middleware/operator/middleware-request/handler_pg.go:48-87 | wherever scripts run in the plan, and whatever the cluster held before, some entry with scripts asks for that database there, and its extensions and coordinator are already in place |
| `PgProvisioning.RefusedExactlyWhenMisled` | cmd/middleware/operator/middleware-request/handler_pg.go:21-98 | call order: from any state, under any failures and over all attempts, a call is refused exactly if a query for a role or database was cut short and the creation that followed arrived; no call comes before the role, database, citus extension or coordinator it needs |
| `PgProvisioning.NeverRefused` | cmd/middleware/operator/middleware-request/handler_pg.go:21-98 | so without answers cut short nothing is refused for a missing or existing role, database or citus extension or a missing coordinator, over all attempts |
| `PgState.RefusedWhenMisled` | pkg/postgres/client.go:131-151 | a legal op is refused exactly if its query missed an existing object, and then it fails and changes nothing |
| `PgState.TooEarlyIsRefused` | pkg/postgres/client.go:131-341 | what a server turns down, changing nothing: altering a missing role, using a missing database, a coordinator or worker without citus, a database of a missing owner |
| `PgProvisioning.LookupCanMislead` | pkg/postgres/client.go:296-320 | an existing role whose row the broken-off answer misses: the creation is refused |
| `PgProvisioning.DatabaseLookupCanMislead` | pkg/postgres/client.go:153-180 | the same for a database |
| `PgProvisioning.CreatePlanLegal` | cmd/middleware/operator/middleware-request/handler_pg.go:15-134 | in call order, every call of the plan is legal in the state the earlier ones leave, whatever the start state |
| `PgProvisioning.NoUserChangesNothing` | pkg/postgres/client.go:296-320 | with an empty user name every attempt fails and the cluster stays as it was |
| `PgServer.CreateOrUpdatePGRequest` | cmd/middleware/operator/middleware-request/handler_pg.go:15-99 | the handler's loops do exactly the plan under any failures; success means the target is reached, so each node holds its earlier databases and one for each entry that asks for one there; failure comes from a failing call or a misleading query and leaves a state with the same target, and a call is refused exactly if a query misled it |
| `PgServer.RunCreate` | cmd/middleware/operator/middleware-request/handler_pg.go:21-98 | the node loop, with its early return, is the run of the plan |
| `PgServer.ProvisionNode` | cmd/middleware/operator/middleware-request/handler_pg.go:25-91 | everything done on one node, in order, stopping at the first error |
| `PgServer.ProvisionDatabases` | cmd/middleware/operator/middleware-request/handler_pg.go:44-89 | the database loop on one node |
| `PgServer.ProvisionDatabase` | cmd/middleware/operator/middleware-request/handler_pg.go:46-88 | one database: skipped on a worker unless distributed, else created, connected to, given citus, coordinator, extensions and scripts |
| `PgServer.AddWorkerNodes` | cmd/middleware/operator/middleware-request/handler_pg.go:101-134 | the worker registration loops are the run of their plan |
| `PgServer.RegisterWorker` | cmd/middleware/operator/middleware-request/handler_pg.go:114-127 | one registration over a fresh connection to the master's copy, skipped for undistributed databases |
| `PgServer.Client.SetPasswordOf` | pkg/postgres/client.go:296-320 | asks for the role, then alters or creates it; success means the role is there with this password |
| `PgServer.Client.CreateOrUpdateUser` | pkg/postgres/client.go:296-341 | password, limit and grant in this order, stopping at the first failure |
| `PgServer.Client.CreateDatabaseIfNotExists` | pkg/postgres/client.go:131-151 | a query and, if its answer shows no database, a creation: an existing database is left alone, owner included, whatever the answer showed; success on a missing one adds exactly it |
| `PgServer.Client.SwitchDatabase` | pkg/postgres/client.go:119-129 | later statements act on the new database only if the connection succeeded |
| `PgServer.Client.CreateExtensions` | pkg/postgres/client.go:188-201 | every extension is tried and any failure is reported at the end |
| `PgServer.Server.ListDatabaseByOwner` | pkg/postgres/client.go:343-366 | lists the databases the user owns there, each once; if the rows break off it succeeds with those read |
| `PgServer.Server.DropDatabase` | pkg/postgres/client.go:368-400 | only the named database goes, and only on this node |
| `PgServer.Server.DropRole` | pkg/postgres/client.go:402-412 | refused while the role owns a database; otherwise only the role goes |
| `PgRemoval.DeletePGAll` | cmd/middleware/operator/middleware-request/handler_pg.go:207-262 | success leaves every node cleared; a delete cut off anywhere, repeated, ends where one undisturbed delete would; a server refuses exactly if, on the node where it stops, the drop of the role arrives although the listing had missed a database of the user |
| `PgRemoval.DeleteOnNode` | cmd/middleware/operator/middleware-request/handler_pg.go:222-256 | one node: requested databases, then everything listed, then the role, which is refused exactly if the request arrives and the listing missed a database the user still owns |
| `PgRemoval.DropDoomed` | cmd/middleware/operator/middleware-request/handler_pg.go:225-248 | leaves the user exactly the databases the listing missed |
| `PgRemoval.DeleteCanBeRefused` | cmd/middleware/operator/middleware-request/handler_pg.go:237-251 | a listing that breaks off before an unnamed database: the drop of the role is refused, and the retry clears the node |
| `PgRemoval.DropAll` | cmd/middleware/operator/middleware-request/handler_pg.go:225-248 | the drop loops touch only doomed databases and only this node |
| `PgRemoval.ClearedMeans` | cmd/middleware/operator/middleware-request/handler_pg.go:225-256 | what a delete leaves: the other roles, and the databases that neither belong to the user nor are asked for on that node, all unchanged |
| `PgRemoval.DeleteAbsorbed` | cmd/middleware/operator/middleware-request/handler_pg.go:207-262 | a partly cleared cluster has the same cleared state |
| `PgRemoval.ProcessDelete` | cmd/middleware/operator/middleware-request/controller.go:203-214 | retry on the spot: once the failures end the loop ends, with the cluster as one delete would leave it, whatever was refused on the way; without listings cut short nothing is |
| `PgPrune.DeleteDatabaseIfNotExists` | cmd/middleware/operator/middleware-request/handler_pg.go:152-205 | a successful prune drops from every node the stale databases its listing showed, so it is exact on the master if and only if it showed them all; a failed one stops after a known number of drops, master first |
| `PgPrune.ExactWhenAllFound` | cmd/middleware/operator/middleware-request/handler_pg.go:165-200 | a prune is exact, on the master and everywhere, exactly if its listing showed every stale database |
| `PgPrune.PruneCanMissADatabase` | pkg/postgres/client.go:353-365 | a listing that breaks off: the prune reports success and the stale database is still there |
| `PgPrune.ListStale` | cmd/middleware/operator/middleware-request/handler_pg.go:159-182 | the three calls before the drops and the databases they find |
| `PgPrune.DropEverywhere` | cmd/middleware/operator/middleware-request/handler_pg.go:172-202 | the stale databases in turn, each on all nodes in order, up to the first failing call; how many drops have taken effect by then |
| `PgPrune.PruneIsExact` | cmd/middleware/operator/middleware-request/handler_pg.go:165-200 | a full prune takes from every node exactly the databases that the user owns on the master and no entry of the request asks for, and leaves everything else unchanged |
| `PgPrune.PruneRetry` | cmd/middleware/operator/middleware-request/handler_pg.go:165-200 | a prune cut off and run again agrees with an undisturbed one exactly if no node still holds a database the master had already dropped; on the master it always agrees |
| `PgPrune.PruneCanLeaveAWorkerCopy` | cmd/middleware/operator/middleware-request/handler_pg.go:184-200 | the faulted run: dropped on the master, the connection to the worker lost; the second prune succeeds and the worker keeps its copy |
| `PgPrune.UpdatePGRequest` | cmd/middleware/operator/middleware-request/handler.go:20-33 | UPDATE is create then prune, and nothing is pruned if creating fails; success leaves the target without the stale databases that the listing after the last provisioning call showed, and with a complete listing the user owns on the master exactly the requested databases that were not somebody else's; failure comes only from a failing call or a misleading query |
| `PgPrune.TargetWithoutStale` | cmd/middleware/operator/middleware-request/handler_pg.go:44-98 | removing stale databases from a target leaves a target |
| `PgPrune.ProcessUpdate` | cmd/middleware/operator/middleware-request/controller.go:203-208 | over any number of failed attempts, each of them disturbed, the successful UPDATE leaves on the master what one undisturbed UPDATE of the first state leaves, exactly if its own listing was complete; and then on every node, exactly if no worker held a copy of a database an earlier attempt had dropped from the master; once the failures end an attempt succeeds |
| `WsRegistry.Server.AddClient` | pkg/ws/server.go:158-181 | the connection is entered under its own user and id and nothing else changes |
| `WsRegistry.Server.RemoveConns` | pkg/ws/server.go:225-247 | the selected ids leave the registry, users left without connections too, and exactly the removed clients are cancelled, once each |
| `WsRegistry.Server.CloseConns` | pkg/ws/server.go:202-248 | a close removes and cancels exactly the connections that match every non-empty criterion |
| `WsRegistry.Server.Deliver` | pkg/ws/server.go:318-332 | one write per registered connection with a selected id, none elsewhere |
| `WsRegistry.Select` | pkg/ws/filters.go:50-95 | the filter calls select exactly the ids of the connections matching the query; the access type counts only when users are given |
| `WsRegistry.SelectionOfOne` | pkg/ws/server.go:202-223 | a request for one user takes its connections, with type 1 those over private access and with type 2 those over public access; one for a token or a connection id takes those, whatever the type |
| `WsRegistry.Filter.constructor` | pkg/ws/filters.go:26-48 | the snapshot lists every registered connection with its fields, and no entry twice |
| `WsRegistry.Filter.FilterBy` | pkg/ws/filters.go:60-75 | keeps in order the entries whose field is in the list; an empty list keeps nothing |
| `WsRegistry.Filter.Result` | pkg/ws/filters.go:50-58 | the ids of what is left, without repetition |
| `WsRegistry.AddedRegisters` | pkg/ws/server.go:158-181 | adding keeps every entry under its own keys and no user empty, and registers one connection more |
| `WsRegistry.RemovedUnregisters` | pkg/ws/server.go:225-247 | removing keeps the same and unregisters exactly the connections with these ids |
| `WsSystem.InvAlways` | pkg/ws/server.go:158-248 | in every reachable state of all interleavings: entries under their own keys, no empty user, and every connection ever added registered or cancelled once, never both |
| `WsSystem.CloseIsAtomic` | pkg/ws/server.go:202-248 | whatever runs between a close's snapshot and its removal, the registry afterwards is the snapshot's minus the selected connections plus those added since, and exactly the selected are cancelled |
| `WsCauses.CancelledForAReason` | pkg/ws/server.go:183-248 | in every possible run a cancelled connection had asked to be closed itself or was meant by a request to close connections |
| `WsCauses.AskersGo` | pkg/ws/client.go:70-75 | a connection that asks to be closed is unregistered and was cancelled once as soon as the requests before it and its own have been taken and carried out |
| `WsCauses.RequestsAreServed` | pkg/ws/server.go:183-248 | the same for every connection registered at a close request and meant by it |
| `WsCauses.FinishedForAReason` | pkg/ws/client.go:60-75 | a connection's goroutine ends only after it asked to be closed or was cancelled |
| `WsSystem.DeliveryIsExact` | pkg/ws/server.go:284-335 | between a push's snapshot and its delivery anything may happen; then this message is written once to each connection that matched at the snapshot and is still registered, and nothing else is written to anybody |
| `WsCauses.PingQueuesPong` | pkg/ws/client.go:79-83 | a ping queues one push, with the pong event, that in every reachable state selects the connection that sent it while registered, and nobody else |
| `WsCauses.PushComesUp` | pkg/ws/server.go:275-282 | pushes are taken in the order in which they were queued |
| `WsCauses.WrittenForAReason` | pkg/ws/server.go:275-335 | in every possible run no message is written to a connection more often than there were pushes of it that mean the connection, and, for the pong, pings of the connection itself |
| `WsCauses.OnlyPongs` | pkg/ws/server.go:275-335 | when nobody pushes, a connection is written pongs only, at most one for each of its own pings |
| `WsSystem.HandlerTrace` | pkg/ws/client.go:37-93 | in every run the handler calls for one connection are a prefix of open, its data messages in order, close; pings are never forwarded |
| `WsSystem.TracedAlways` | pkg/ws/server.go:250-273 | what has been and will be handled for a connection follows from how far its goroutine has come |
| `WsConnection.Connection.OnConnection` | pkg/ws/client.go:47-93 | the read loop's events, stamp, pongs and close request for every sequence of frames |
| `WsConnection.CloseComesLast` | pkg/ws/client.go:47-93 | no second open, and nothing after a close |
| `WsConnection.SeenMeans` | pkg/ws/client.go:60-75 | the loop sees the frames up to the first that is not a message, that one included |
| `WsConnection.StampMeans` | pkg/ws/client.go:79-83 | only pings are signs of life: the stamp is the second of the last ping, or as it was without one |
| `WsConnection.EventsMean` | pkg/ws/client.go:60-93 | the handler is called for data messages, with a close for a broken read, and never for a ping |
| `WsLoop.Serve` | pkg/ws/server.go:79-81 | a connection is announced, then read until its loop ends |
| `WsLoop.LoopEmitsItsEvents` | pkg/ws/client.go:60-93 | the loop's handler calls are what its steps in the interleaved system put on the read queue |
| `WsLoop.EveryRunIsALoop` | pkg/ws/client.go:37-93 | in every run a connection's own steps are those of the loop on the frames it read, in full once it has finished, and the handler has been called with the first of the loop's events |
| `WsConnection.SelectedWasSilent` | pkg/ws/client.go:99-107 | the sweep takes only connections silent for more than 45 seconds |
| `WsConnection.SilentIsFound` | pkg/ws/server.go:337-347 | a silent connection is found within less than 76 seconds of its stamp, for all phases of ticker and stamp |
| `WsConnection.SeventyFiveIsNotEnough` | pkg/ws/ws_types.go:3-5 | stamps and clock are cut to whole seconds: a phase in which it takes 75.9 seconds |
| `WsConnection.FoundWithin75` | pkg/ws/server.go:337-347 | 75 seconds suffice exactly when no tick falls between 45 seconds of silence and the next second boundary after them |
| `SubnetAllocator.BytewiseSumIsSum` | cmd/sys-event/watchers/corefile.go:490-493 | adding byte by byte without carry is integer addition exactly when no byte overflows |
| `SubnetAllocator.NoCarryNeeded` | cmd/sys-event/watchers/corefile.go:478-493 | no offset inside 100.64.0.0/10 needs a carry |
| `SubnetAllocator.AddOffset` | cmd/sys-event/watchers/corefile.go:488-493 | the in-place byte loop, which stops early, computes the bytewise sum |
| `SubnetAllocator.Log2Ceil` | cmd/sys-event/watchers/corefile.go:476-477 | the least exponent whose power of two reaches the number of users |
| `SubnetAllocator.SubDNSSplit` | cmd/sys-event/watchers/corefile.go:474-501 | the table has exactly the decimal indices below the rounded-up count, each with its subnet's first usable address |
| `SubnetAllocator.AddressOf` | cmd/sys-event/watchers/corefile.go:486-499 | up to 2^21 users the address of index `i` is 100.64.0.0 + i * size + 1 |
| `SubnetAllocator.TableSizes` | cmd/sys-event/watchers/corefile.go:476-484 | the number of subnets is the least power of two that is enough, and they fill the 2^22 addresses of the block |
| `SubnetAllocator.SubnetsPartition` | cmd/sys-event/watchers/corefile.go:478-489 | every address of the block lies in exactly one subnet |
| `SubnetAllocator.AddressesAreDistinct` | cmd/sys-event/watchers/corefile.go:486-499 | different indices get different addresses, for every table size |
| `SubnetAllocator.SoundUpToHalfTheBlock` | cmd/sys-event/watchers/corefile.go:474-501 | every index gets an address of its own subnet other than the subnet's own exactly up to 2^21 users |
| `SubnetAllocator.DecimalInjective` | cmd/sys-event/watchers/corefile.go:497-498 | different indices have different keys |
| `SubnetAllocator.DecimalReadsBack` | cmd/sys-event/watchers/corefile.go:497-498 | a key is decimal notation: digits that read back as the index, without leading zeros |
| `SubnetAllocator.GetUserLocalIp` | cmd/sys-event/watchers/corefile.go:503-526 | no index annotation, no address; with one, an error exactly if the maximum does not parse or the annotation is not the number of a subnet in decimal, and otherwise that subnet's address |
| `SubnetAllocator.LocalIpMeans` | cmd/sys-event/watchers/corefile.go:503-526 | the same of the specification that the generator uses |
| `SubnetAllocator.ViewCoversSubnet` | cmd/sys-event/watchers/corefile.go:288-288 | the VPN view, 100.64.0.0/16, admits a whole subnet of the /10 exactly if the subnet ends within the first 2^16 addresses |
| `SubnetAllocator.ViewAdmitsAddress` | cmd/sys-event/watchers/corefile.go:288-288 | it admits the address handed to an index exactly under the corresponding bound |
| `SubnetAllocator.DefaultUsersInView` | cmd/sys-event/watchers/corefile.go:510-513 | with the default of 1024 users: exactly for the first 16 indices |
| `GoSlices.Append` | cmd/sys-event/watchers/corefile.go:108-121 | append: in place when there is room, else a fresh array of any larger capacity; the result reads as the two parts, the original still reads as before |
| `Corefile.DefaultPlugins` | cmd/sys-event/watchers/corefile.go:45-52 | the loop keeps exactly the default plugins, in order |
| `Corefile.DefaultsAppend` | cmd/sys-event/watchers/corefile.go:47-52 | the default plugins of a concatenation are those of its parts |
| `Corefile.FindMasterIp` | cmd/sys-event/watchers/corefile.go:70-80 | the loops find the master's address |
| `CorefileAnswers.MasterIpMeans` | cmd/sys-event/watchers/corefile.go:70-80 | it is the first internal address of the last control-plane node that has one, or empty if none has |
| `Corefile.InternalIp` | cmd/sys-event/watchers/corefile.go:73-77 | finds an internal address if there is one |
| `Corefile.AddUserTemplates` | cmd/sys-event/watchers/corefile.go:87-124 | two templates are appended: the A answer and the ANY fallback for the zone |
| `Corefile.AddUser` | cmd/sys-event/watchers/corefile.go:126-165 | the verdict on one user: abort, skip, or templates in two or all four lists depending on the master's address |
| `Corefile.AddUsers` | cmd/sys-event/watchers/corefile.go:126-165 | the four lists over all users, or the error of the first user that has one |
| `Corefile.AddEntrances` | cmd/sys-event/watchers/corefile.go:222-264 | one A template per shared entrance, behind the users' in-cluster templates |
| `Corefile.Nested` | cmd/sys-event/watchers/corefile.go:312-320 | append to the default list, then copy: the result has an array of its own and the default list reads as before |
| `Corefile.BuildServers` | cmd/sys-event/watchers/corefile.go:312-326 | for every length and capacity of the slices, the three lists read view + defaults + templates, and defaults + local + local-domain, once all three are built |
| `Corefile.RegenerateServers` | cmd/sys-event/watchers/corefile.go:40-328 | a whole run computes the three servers, or stops at the first thing that cannot be read, or leaves a file without servers alone |
| `CorefileAnswers.ServersAnswer` | cmd/sys-event/watchers/corefile.go:126-328 | the templates of the three servers that a run writes are exactly these: in the cluster a taking-part user's zone is answered with its ingress address and a shared entrance with its own; on the VPN the zone with the dotted address of the subnet the user's index numbers; for everybody else the zone and name.olares.local with the master's address, if there is one |
| `CorefileAnswers.ServersLayout` | cmd/sys-event/watchers/corefile.go:276-328 | each server has the old ports; the first two start with the incluster and the vpn view, spelled out; then come the kept plugins in order, then templates only |
| `CorefileAnswers.KeptPlugins` | cmd/sys-event/watchers/corefile.go:45-52 | the kept plugins are those of ten names, each as often as it was there |
| `CorefileAnswers.RunFailsExactlyWhen` | cmd/sys-event/watchers/corefile.go:54-169 | a run fails exactly if users, nodes or entrances cannot be read or some user with a zone and an index stops it: the maximum does not parse, the index is no subnet's number, or its ingress cannot be looked up |
| `CorefileAnswers.JudgeMeans` | cmd/sys-event/watchers/corefile.go:126-148 | which users take part, and with which two addresses |
| `CorefileHistory.KeepsDefaults` | cmd/sys-event/watchers/corefile.go:45-52 | a run leaves the ports and default plugins of the first server as they were |
| `CorefileHistory.DependsOnDefaults` | cmd/sys-event/watchers/corefile.go:45-52 | a run depends on the file only through these |
| `CorefileHistory.RegenerationIsIdempotent` | cmd/sys-event/watchers/corefile.go:26-341 | the same snapshot again writes the same text |
| `CorefileHistory.OneRunForgotten` | cmd/sys-event/watchers/corefile.go:26-341 | a run from the text an earlier run wrote is a run from the original text |
| `CorefileHistory.HistoryIndependent` | cmd/sys-event/watchers/corefile.go:330-337 | after any runs, some failed and some stored, the cluster holds what one run from the original text and the last effective snapshot would have written |
| `CorefileHistory.LocalAnswersAreDistinct` | cmd/sys-event/watchers/corefile.go:133-153 | users with different index annotations are never answered with the same local address |
| `NatsPermissions.IndexRequests` | pkg/workload/nats/helper.go:137-155 | the index groups the exports of all NATS requests by application, in scan order, with no entry for an application without exports |
| `NatsPermissions.OfferFound` | pkg/workload/nats/helper.go:137-175 | an allowing entry in the group exists exactly if some NATS request exports the subject to the application |
| `NatsPermissions.AnyOfferFound` | pkg/workload/nats/helper.go:161-163 | the application has a group exactly if some NATS request exports anything to it |
| `NatsPermissions.OwnerOf` | pkg/workload/nats/helper.go:376-379 | the part behind the last dash |
| `NatsPermissions.OwnerReadsBack` | pkg/workload/nats/helper.go:364-379 | the owner is read back from a namespace made for it |
| `NatsPermissions.RefStaysWithItsOwner` | pkg/workload/nats/helper.go:364-374 | a reference into anybody's user space resolves into the requesting owner's, and resolving again changes nothing |
| `NatsPermissions.RealRefNameResolves` | pkg/workload/nats/helper.go:360-374 | what a reference resolves to: user-space- or user-system- with the owner for namespaces that start so, the given namespace otherwise, then a dot and the subject |
| `NatsPermissions.OwnerIsOne` | pkg/workload/nats/helper.go:376-379 | the owner is what follows the last dash of the namespace |
| `NatsGrants.ServedByTheOwnersSpace` | pkg/workload/nats/helper.go:145-175 | the resolved name is the one under which an application in the owner's own space exports the subject, so its export serves the reference |
| `NatsGrants.SucceedsExactlyWhenExported` | pkg/workload/nats/helper.go:159-198 | success exactly if nothing is referenced or the application has an export, and every subject that a reference asks for with "pub" or "sub", under its resolved name, is exported to the application by a NATS request that allows that side |
| `NatsGrants.GrantsExactlyWhatIsDue` | pkg/workload/nats/helper.go:107-206 | a subject is granted on a side exactly if it is an own one allowed there, or some reference asks for it with that side in its permissions, or it is a default and there is any of these |
| `NatsGrants.MatchingMeans` | pkg/workload/nats/helper.go:168-181 | grants a subject once per allowing export, and none exactly if no export allows it |
| `NatsGrants.GetAllowPubSubSubjectFromMR` | pkg/workload/nats/helper.go:95-207 | the loops over the index succeed exactly if every subject asked for is exported, grant exactly what is due on each side, and fail if the requests cannot be listed |
| `NatsGrants.AddWant` | pkg/workload/nats/helper.go:160-196 | one referenced subject: the missing index entry, then publish, then subscribe |
| `NatsUsers.DeleteUser` | pkg/workload/nats/helper.go:264-274 | the loop over the array it shifts: fails exactly if the last entry has the name and is not the only one, else keeps what the sweep keeps |
| `NatsUsers.SweepStep` | pkg/workload/nats/helper.go:269-274 | one iteration: what the array, its stale tail and the shortened list hold |
| `NatsUsers.RemoveAt` | pkg/workload/nats/helper.go:271-272 | the append that moves the entries behind the index up by one, in the shared array |
| `NatsUserList.DeleteIsFilterExactlyWhen` | pkg/workload/nats/helper.go:269-274 | the loop neither fails nor leaves an entry exactly if no two entries of the name are adjacent and a last entry of the name is the only one |
| `NatsUserList.DeleteCanSkip` | pkg/workload/nats/helper.go:269-274 | two adjacent entries of a name: one survives |
| `NatsUserList.DeleteCanPanic` | pkg/workload/nats/helper.go:269-274 | a second entry of the name at the end: index out of range |
| `NatsUserList.UniqueDelete` | pkg/workload/nats/helper.go:264-274 | with unique names the loop never fails and is the filter by name |
| `NatsUserList.CreateOrUpdateUser` | pkg/workload/nats/helper.go:69-79 | every entry of the name is overwritten in place, or one is appended |
| `NatsUserList.PutIsMapUpdate` | pkg/workload/nats/helper.go:69-79 | with unique names that is a map update, and names stay unique |
| `NatsUserList.RunsAreMapRuns` | pkg/workload/nats/helper.go:69-79 | over all runs from unique names: every delete succeeds, names stay unique, the list means what the same changes make of a map, other users' entries keep content and order |
| `PredixyConfig.MatchesMeans` | pkg/workload/redis-cluster/templates.go:28-30 | the expression has one match at a place: the whole stretch without '#' between the markers |
| `PredixyConfig.FlatTokens` | pkg/workload/redis-cluster/helper.go:105-107 | a text is its characters and sections; nothing is lost in between |
| `PredixyConfig.NoNewMatch` | pkg/workload/redis-cluster/helper.go:105-107 | replacing later sections creates no match at the start of a text that had none there |
| `PredixyConfig.SpelledFar` | pkg/workload/redis-cluster/templates.go:28-29 | how the opening marker can overlap itself, and why no match comes of it |
| `PredixyLens.RewriteSetsSections` | pkg/workload/redis-cluster/helper.go:103-109 | a rewrite sets the contents of all sections and leaves every other character |
| `PredixyLens.PutGet` | pkg/workload/redis-cluster/helper.go:103-109 | the rewritten text has the same sections in the same places, each with the new content |
| `PredixyLens.PutPut` | pkg/workload/redis-cluster/helper.go:103-109 | writing p and then q is writing q |
| `PredixyLens.GetPut` | pkg/workload/redis-cluster/helper.go:103-109 | a rewrite changes nothing exactly if every section already holds the new one |
| `PredixyLens.NoMatchNoChange` | pkg/workload/redis-cluster/helper.go:103-109 | a text without a match stays as it is |
| `PredixyLens.PutPutExactlyWithoutHash` | pkg/workload/redis-cluster/helper.go:103-109 | the second write hides the first, for all texts and second sections, exactly if the first has no '#' |
| `PredixyLens.HashBreaksPutPut` | pkg/workload/redis-cluster/templates.go:30-30 | the text on which a section with '#' fails |
| `PredixyAuthority.GetUserAuthSections` | pkg/workload/redis-cluster/helper.go:29-42 | the loop builds the section of all users in order, a namespace only where one is given |
| `PredixyAuthority.AuthSectionsNoHash` | pkg/workload/redis-cluster/helper.go:29-42 | the section has no '#' exactly if every written password and name has none |
| `PredixyAuthority.CollectPasswords` | pkg/workload/redis-cluster/helper.go:54-70 | one entry for each Redis request in order, with its password and, if it names a namespace, the application's and that one; an error exactly if some password cannot be read |
| `PredixyAuthority.ConfigMap.UpdateProxyConfig` | pkg/workload/redis-cluster/helper.go:44-109 | only the proxy's configuration changes, and exactly if every password could be read; its sections are then set to a text that reads back as one block for each Redis request in order, with its password, write access and, exactly if it gives one, its namespace, and the administrator's last, if and only if no written part has a line break |
| `PredixyAuthority.SectionReadsBack` | pkg/workload/redis-cluster/helper.go:29-42 | a reader of lines finds in the written section the entries again, in order, exactly if no written part has a line break |
| `PredixyAuthority.LineBreakBreaksReading` | pkg/workload/redis-cluster/templates.go:13-15 | the password on which it fails |
| `PredixyAuthority.EverySectionReadsBack` | pkg/workload/redis-cluster/helper.go:103-109 | without '#' every section of the new configuration is found again by the program's own expression and reads as the requests |
| `PredixyAuthority.UpdatesDoNotAccumulate` | pkg/workload/redis-cluster/helper.go:92-110 | with clean passwords an update gives what it alone would have given, and repeating it changes nothing |
| `UserWatcher.Watcher.IsDupEvent` | cmd/sys-event/watchers/users/users.go:417-428 | whether the cache has this version for the object and type |
| `UserWatcher.CacheAgrees` | cmd/sys-event/watchers/users/users.go:407-428 | that is what a scan of the recorded events for the last one of the object and type says |
| `UserWatcher.Watcher.HandleUser` | cmd/sys-event/watchers/users/users.go:132-191 | the three kinds of user events: the activation map and the attempted callbacks |
| `UserWatcher.Watcher.HandleRegistry` | cmd/sys-event/watchers/users/users.go:212-244 | a new subscriber is sent every listed user |
| `UserWatcher.Watcher.Handle` | cmd/sys-event/watchers/users/users.go:108-247 | one event: dropped, acted on without being recorded, or recorded, as the scan of the past says |
| `UserWatcher.Watch` | cmd/sys-event/watchers/users/users.go:100-248 | the same over every sequence of events |
| `UserWatcher.TracksStep` | cmd/sys-event/watchers/users/users.go:170-187 | the activation map holds exactly the users whose last annotated status is another than completed |
| `UserWatcher.NeverStoresCompleted` | cmd/sys-event/watchers/users/users.go:170-187 | it never holds completed |
| `UserWatcher.ActivationsAreTurns` | cmd/sys-event/watchers/users/users.go:163-191 | the activation callbacks attempted for a user are as many as the handled modifications reporting completed right after another status |
| `UserWatcher.SuccessesAreGoodTurns` | cmd/sys-event/watchers/users/users.go:172-182 | those that succeeded are as many as such modifications whose own callback succeeded: there is no second chance |
| `UserWatcher.AnnouncedAsReported` | cmd/sys-event/watchers/users/users.go:132-160 | over a whole run a user is announced as created once for every handled event that adds it and once for every list it was sent in, as removed once for every handled event that deletes it; the successful ones are those whose callback succeeded |
| `UserWatcher.NoSecondAttempt` | cmd/sys-event/watchers/users/users.go:173-182 | after completed, whether or not its callback succeeded, nothing attempts the activation again, redelivered events included, until another status is reported |
| `UserWatcher.FailedActivationIsLost` | cmd/sys-event/watchers/users/users.go:175-178 | the callback fails and the unrecorded event comes again: it is handled, and no callback is attempted |
| `UserWatcher.ActivationCanBeLost` | cmd/sys-event/watchers/users/users.go:175-178 | three events after which the activation was attempted once and never succeeded |
| `UserWatcher.HandledAreFresh` | cmd/sys-event/watchers/users/users.go:120-130 | over a whole run, the handled events are exactly its understood user events whose version was not the one recorded last for the same object and type, each once and in order |
| `UserWatcher.WatcherFollowsRun` | cmd/sys-event/watchers/users/users.go:163-191 | these statements for the watcher after any run |
| `KvrocksRestore.Host.RestoreKVRocks` | pkg/workload/kvrocks/helper.go:365-470 | under every fault at every step: the backup is never lost, the database directory changes only while the instance is down, success means the instance was started on exactly the backup with one replica; undisturbed, from a running or a stopped instance, it succeeds exactly if there are a backup and a database directory or an instance to write one; which stops leave this false, and that it then stays false |
| `KvrocksRestore.Host.Prepare` | pkg/workload/kvrocks/helper.go:369-422 | the checks before the first change, and when they succeed |
| `KvrocksRestore.RestoreCanBecomeImpossible` | pkg/workload/kvrocks/helper.go:418-428 | the answer to the removal is lost: the backup is whole, and every later restore fails in every environment |
| `KvrocksRestore.Host.RemoveDb` | pkg/workload/kvrocks/helper.go:424-428 | the removal, which may stop half-way |
| `KvrocksRestore.Host.MoveBackup` | pkg/workload/kvrocks/helper.go:430-434 | the move, whose answer may be lost |
| `KvrocksRestore.Host.StopInstance` | pkg/workload/kvrocks/helper.go:383-413 | success means no replica is requested and no pod is left |
| `KvrocksRestore.Host.StartInstance` | pkg/workload/kvrocks/helper.go:436-467 | the instance is started on the moved files or not at all |
| `KvrocksRestore.Host.WaitForPods` | pkg/workload/kvrocks/helper.go:399-413 | the poll: failed listings count as not yet, and it gives up after exactly 300 rounds |
| `KvrocksRestore.NeverLostPass` | pkg/workload/kvrocks/helper.go:365-470 | a call and the moment after it keep the backup whole in one of its places or handed over |

## Left out

- PgServer.Client.ExecuteScript: what scripts do to a database is not modelled, only that they may fail; a retried request runs them again.
- PgServer.Client.CreateExtensions: `cascade` also installs an extension's dependencies; only the named extensions are tracked.
- PgServer.Server.DropDatabase: sessions are not modelled; ending them before the drop is part of the one call, and a drop turned down because some remain counts as a failure of that call.
- PgProvisioning.NeverRefused: an extension the server does not have, a name that is no identifier and a script with an error are turned down every time by a real server; here such a call counts as one that fails, not as refused.
- PgServer.Client.CreateOrUpdateUser: two requests racing for one role, between the query and the statement, are not modelled.
- PgServer.CreateOrUpdatePGRequest: it requires a user name, because with an empty one every attempt fails (`PgProvisioning.NoUserChangesNothing`), and at most as many replicas as there are nodes.  The number of replicas and the request, password included, do not change during a call.
- PgProvisioning.RetryEquivalence: the program reads the number of replicas and the password again on every attempt (`handler_pg.go:16`, `handler_pg.go:34`); here, as in `PgTarget.SuccessIsTarget` and `PgPrune.ProcessUpdate`, they are the same for all attempts of one request.
- PgPrune.DeleteDatabaseIfNotExists: no retry equivalence is claimed on the workers; `PgPrune.PruneRetry` and `PgPrune.ProcessUpdate` give the exact condition.
- The queue across requests: a failed ADD is queued again with its old object (`controller.go:204-208`), so a delete is not final against it; names are taken as already folded by PostgreSQL, and different requests are not assumed to avoid each other's real names except through the owner recorded when a database is created.
- The remaining middleware handlers, REST handlers, vault controllers and generated code are thin wrappers around libraries and would add easy members only.
- WsRegistry.Server: a user object of the program is a map value here; its own lock always nests in the server's and adds no interleaving.
- WsRegistry.Filter.Result: the ids are returned as a set; the program returns them as a list in no particular order, and nothing depends on it.
- WsSystem.HandlerTrace: JSON decoding is not modelled (a frame is a ping or data); the handler itself is the application's.
- WsSystem.DeliveryIsExact: whether the bytes of a write arrive is the connection's business; a write to a connection whose peer is gone counts as a write.
- WsConnection.SilentIsFound: the ticker is ideal and the sweep takes no time; a queue of close requests that is full delays the removal, not the selection.
- SubnetAllocator.SubDNSSplit: defined for 1 to 2^22 users; outside it the program shifts by a negative count and fails at run time.  The logarithm is exact here; up to 2^22 the floating-point one rounds up to the same integer.
- Corefile.RegenerateServers: finding the shared entrances (applications, namespaces, services, the hash in their names) is input, as are the pod addresses; the result for users and entrances is computed as in the program.
- CorefileHistory.HistoryIndependent: parsing and printing belong to a library; it is assumed only that what it reads back has the ports and default plugins of the first server that was written.
- The template removal and the single-user update of the Corefile are not modelled; the removal drops other templates with three arguments (`corefile.go:463-467`), so the frame property one would state is false.
- NatsGrants.GetAllowPubSubSubjectFromMR: the lists returned next to an error are not modelled, its caller discards them.
- NatsUserList.RunsAreMapRuns: password hashing and the parsing and printing of nats.conf are the libraries'; it is assumed that the list written is the list read next.
- PredixyAuthority.ConfigMap.UpdateProxyConfig: writing the map to the cluster and restarting the proxy may fail afterwards and are not modelled; characters are compared as they are, without encodings.
- UserWatcher.Watcher.Handle: the ten retries inside one callback, the queue of follow-up tasks and the re-opened watches are not modelled; an event says whether its callbacks succeed; failures while a new subscriber is sent the listed users are logged only and not followed.
- KvrocksRestore.Host.RestoreKVRocks: undisturbed means that a stopped instance is gone within the 300 rounds of the poll and that an instance writes a directory; only this procedure writes the two directories while no pod runs, and only it changes the replicas; a crash is a call whose answer never arrives.
- The pollers that wait for all backups or restores do not count a job in its new state as unfinished (`pkg/workload/citus/helper.go:621-628`), so "all finished" would be false of them; they are not modelled, and neither are metrics and policies.
