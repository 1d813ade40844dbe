# A verified model of the FoundationDB operator

The operator keeps FoundationDB clusters on Kubernetes in the state their specification asks for. It does so in small
steps, and often several operator instances work on one database. This project models the steps where a wrong order
loses data or availability, and proves what holds after every step, for every run and every interleaving:

- **Region migration** (`Regions`, `PlannerSpec`, `Planner`, `PlannerReading`, `Convergence`, `GeneralConvergence`,
  `MigrationSafety`, `SafetyLimits`, `Normalization`, `FailOver`, `ControllerLoop`, `ControllerLimits`).
  `GetNextConfigurationChange` plans the next change on the way to another region configuration. The Go code breaks ties
  by map order, so `PlannerSpec.Next` is a relation; the loops are proved to implement it, and everything else is proved
  for all of its results.
- **Lock and upgrade protocol** (`LockClient`, `LockKeys`, `LockProtocol`, `BounceProcesses`, `UpgradeReadiness`,
  `UpgradeProtocol`, `LateSections`, `UpgradePass`). The lock client is a class over a shared database; runs of many
  instances are a transition system over its transactions; every transaction of a reconciliation pass is proved to be a
  step of that system, whatever other instances did before it.
- **Life of a process group** (`ProcessGroups`, `Exclusion`, `ExclusionChoice`, `ExclusionStatus`, `Removal`,
  `RemovalRules`, `ExclusionBudget`, `Lifecycle`, `GroupReconciler`, `RemovalSelection`). Groups are marked, excluded
  within a budget, checked, lose their resources, are included again and dropped.
- **Rolling Pod updates** (`PodChecks`, `UpdatePods`, `PodDeletion`, `RollingUpdate`, `UpdateRules`, `Maintenance`). Which
  zone is taken down next, under a limit and a maintenance zone.
- **Process addresses and the running version** (`HostPort`, `ProcessAddress`, `RunningVersion`). The printed form of an
  address and its parser; choosing the running version independently of map order.

`Basics` (optional values, process classes), `Ordering` (sorting), `Sums` and `Counting` are shared.

The loops are proved against specification functions and relations. What these mean is proved a second time, in terms of
configurations, groups and states alone: `PlannerReading`, `UpgradeReadiness`, `ExclusionChoice`, `RemovalRules`,
`RemovalSelection` and `UpdateRules` say for each decision exactly when it is taken and what it comes to, both ways.

Some promises of the code, its comments or its names do not hold for all inputs. The model follows the code, and each of
these has an exact condition:

- The comment on `GetNextConfigurationChange` promises that repeated calls converge. They do from every well-formed
  configuration, for every tie-break, exactly if the final regions are neither *ambiguous* (two regions with different
  negative priorities of which not both are usable) nor *unreachable* (three or more regions, not all with priority -1).
  Separately, no call ever gets from an empty region list to a nil one or back. Normalizing between the calls, as the
  controller does, changes nothing about this.
- Dropping only retired regions needs a final configuration with a non-negative priority or two usable regions; demoting
  a primary only while two regions are usable needs, in addition, that a single final region does not have priority 0.
  For any number of final regions, a primary is kept throughout exactly if there are none, or one of them has a positive
  priority and at most one does not.
- `FailOver` gives every main data center the priority of *each* other one. For well-formed regions the result is
  well-formed exactly if there are two.
- `AllAddressesExcluded` looks only at the locality if that was checked, and a tester is removed whatever its checks
  say. So a removal can overlook a check that found something, exactly for groups that are marked and not yet recorded
  as excluded, and are log processes with an address while localities are in use, or testers of which anything is
  checked.
- The bound on unavailable fault domains holds, whatever zones the Pods report, exactly for the modes that delete at
  most one Pod in a pass and for limits that are not positive. For given groups it holds under all limits exactly if one
  of them stops every pass, or if Pods that are deleted together lie in one further fault domain; where zones are fault
  domains, deleting a zone at a time is such a case, and in simulations, where all Pods report one zone, it is not.
- A zone in maintenance holds other zones back exactly if its name is not empty, and a Pod that reports no zone has an
  empty one.
- The exclusion budget survives marking a group exactly if the group is excluded by locality, has an address or does not
  count anyway. It survives a removal pass exactly if the exclude commands of the checks leave out an entry of every
  group that counts and waits for its exclusion; recording exclusions as complete then costs nothing.
- The checks exclude testers too, but testers are never included again: a tester leaves behind what was excluded before
  or by the checks.
- Two instances that upgrade at the same time exclude each other exactly if none of them clears the registrations after
  the end of its lease, which the code does not check; one unit of time is enough for both to rely on one registration.
- Range reads of pending upgrades keep two versions apart exactly if neither continues the other after a slash, which
  holds for version numbers.
- A group forgets no address exactly if it is marked for removal, the database is not available or it has no address but
  empty ones.
- `UpdateDenyList` compares every entry with the list before the update, so an id that is listed both ways changes
  sides. The deny list keeps an owner from the lock only while a lease is stored: the code does not look at it where
  nothing is.
- Parsing a printed address gives the address back exactly if all flags are set and free of colons, the printed text is
  not itself an IP address, a name is not an IP address, and no flag imitates the hostname marker at the end. Without a
  port only the host is printed, so there must be no flags and no marker.
- `getRunningVersion` depends on map order exactly if some version does not parse and a version that does is reported
  more often than every such version.

## Model

| member | source | states |
|---|---|---|
| `Planner.GetNextConfigurationChange` | api/v1beta2/foundationdb_database_configuration.go:367-588 | The six steps, as loops over maps and region lists, return only results that the relation `Next` allows, for well-formed configurations of any size; the five theorems of `PlannerReading` say which these are |
| `Planner.GetRegionPriorities` | api/v1beta2/foundationdb_database_configuration.go:642-654 | The map holds exactly the main data centers with their priorities |
| `Planner.GetRegion` | api/v1beta2/foundationdb_database_configuration.go:262-286 | The final region of a main data center at another priority, or a bare region if there is none |
| `Planner.SyncSatellites` | api/v1beta2/foundationdb_database_configuration.go:376-388 | Step 1 takes everything but ids and priorities from the final configuration |
| `Planner.ChooseRegion` | api/v1beta2/foundationdb_database_configuration.go:398-405 | A missing region of the highest final priority, or none exactly if none is missing |
| `Planner.AddRegions` | api/v1beta2/foundationdb_database_configuration.go:390-419 | Regions join by final priority, the first at 1 and others at -1, until there are two or none is missing |
| `Planner.RetireRegion` | api/v1beta2/foundationdb_database_configuration.go:445-469 | The first stale region with a negative priority is dropped once one region less is usable |
| `Planner.DemoteStale` | api/v1beta2/foundationdb_database_configuration.go:471-504 | Carries out the demotion of the region it is given; `DemoteTheorem` says which region that is and what becomes of the others |
| `Planner.SettlePriorities` | api/v1beta2/foundationdb_database_configuration.go:526-584 | Priorities are settled while all regions are usable, then the region count, then the final list is adopted |
| `PlannerReading.JoinTheorem` | api/v1beta2/foundationdb_database_configuration.go:390-419 | While fewer than two regions are there and a final one is missing: missing regions of the highest final priority join, the first of all at 1 and others at -1, until there are two or none is missing, and nothing else changes |
| `PlannerReading.RetireTheorem` | api/v1beta2/foundationdb_database_configuration.go:445-469 | Of the regions that the final configuration lacks, the one of least index with a negative priority is dropped if one region less is usable, and otherwise only the number of usable regions becomes that |
| `PlannerReading.DemoteTheorem` | api/v1beta2/foundationdb_database_configuration.go:471-504 | If no region is to be dropped: of the regions that the final configuration lacks, the one of least index that has priority 0, or a positive one while two regions are usable, gets -1; the others keep their priorities if one of them is positive, and all get 1 otherwise |
| `PlannerReading.SettleTheorem` | api/v1beta2/foundationdb_database_configuration.go:526-584 | In all other cases: all regions become usable, then every region gets its final priority, or -1 without one, except that a region of the highest priority keeps its own if all final ones are negative; then the number of usable regions becomes final, and then the final list is adopted |
| `PlannerReading.ContentTheorem` | api/v1beta2/foundationdb_database_configuration.go:262-388 | Whatever a call decides, every region of the result is the final one of its main data center but for the priority, or bare if there is none; other settings change only once the regions are equal |
| `GeneralConvergence.GeneralConvergenceTheorem` | api/v1beta2/foundationdb_database_configuration.go:358-588 | For any number of regions: every run reaches the final configuration within a number of calls that depends only on the number of current regions, if and only if the final regions are neither ambiguous nor unreachable |
| `GeneralConvergence.GeneralRunConverges` | api/v1beta2/foundationdb_database_configuration.go:358-588 | Along such a run the remaining calls shrink with every call, and no call before the end returns its input |
| `GeneralConvergence.UnreachableRun` | api/v1beta2/foundationdb_database_configuration.go:390-419 | From two of three or more final regions the planner can return its input forever |
| `Convergence.RunConverges` | api/v1beta2/foundationdb_database_configuration.go:358-588 | With at most two regions on each side 15 calls are enough, whatever the priorities, satellites and tie-breaks |
| `Convergence.ConvergenceTheorem` | api/v1beta2/foundationdb_database_configuration.go:358-588 | For at most two regions, 15 calls always reach the final configuration if and only if it is not ambiguous |
| `Convergence.AmbiguousRun` | api/v1beta2/foundationdb_database_configuration.go:526-580 | Runs of every length that never reach an ambiguous final configuration |
| `Convergence.NilMismatchStalls` | api/v1beta2/foundationdb_database_configuration.go:370-588 | If only one of two empty region lists is nil, no call ever reaches the final configuration |
| `MigrationSafety.CallIsOrdered` | api/v1beta2/foundationdb_database_configuration.go:434-585 | For any number of regions: one call never changes usable regions and main data centers together, other settings wait, regions are dropped only when retired, primaries are demoted only while two regions are usable |
| `MigrationSafety.RunKeepsPrimary` | api/v1beta2/foundationdb_database_configuration.go:376-588 | For any number of final regions of which one is a primary and at most one is not: every configuration of a migration has one main per region, distinct ids, a positive priority if it has regions, and no more regions than two, than at the start or than at the end |
| `SafetyLimits.DropOrderTheorem` | api/v1beta2/foundationdb_database_configuration.go:434-584 | Only retired regions are ever dropped, if and only if the final regions have a non-negative priority or two of them are usable |
| `SafetyLimits.DemoteOrderTheorem` | api/v1beta2/foundationdb_database_configuration.go:471-584 | Primaries are demoted only while two regions are usable, if and only if in addition a single final region does not have priority 0 |
| `SafetyLimits.PrimaryTheorem` | api/v1beta2/foundationdb_database_configuration.go:376-584 | For any number of final regions: no call loses the last primary if and only if there are no final regions, or one of them is a primary and at most one is not |
| `Normalization.NormalizationIsCanonical` | api/v1beta2/foundationdb_database_configuration.go:224-243 | Reordering regions, and data centers inside them, does not change the normalized list |
| `Normalization.NormalizationIsIdempotent` | api/v1beta2/foundationdb_database_configuration.go:224-243 | Normalizing sorts, keeps the regions and their data centers, and a second time changes nothing |
| `Normalization.NormalizedTheorem` | api/v1beta2/foundationdb_database_configuration.go:192-247 | The normalized configuration has the same regions with the same data centers and at least one usable region; along the list priorities do not increase and equal ones are ordered by id, and inside a region main data centers come first, then higher priorities, then smaller ids |
| `Ordering.StringLessMeans` | api/v1beta2/foundationdb_database_configuration.go:231-242 | The order of ids by which everything is sorted: a proper prefix comes first, and otherwise the first character that differs decides |
| `FailOver.FailOver` | api/v1beta2/foundationdb_database_configuration.go:130-184 | For all regions: satellites stay, every other data center is replaced by one copy per other id with its priority, in some order |
| `FailOver.FailOverTheorem` | api/v1beta2/foundationdb_database_configuration.go:130-184 | For well-formed regions the result is well-formed if and only if there are two, and then exactly the priorities of the two main data centers are swapped |
| `FailOver.FailOverMovesPrimary` | api/v1beta2/foundationdb_database_configuration.go:130-184 | Failing over is its own inverse and moves the primary to the other region if the priorities differ |
| `FailOver.GetPrimaryDCID` | api/v1beta2/foundationdb_database_configuration.go:593-611 | For all regions, the loops find the id that `PrimaryIsBest` is about |
| `FailOver.MainListIsMains` | api/v1beta2/foundationdb_database_configuration.go:593-611 | With one main data center per region, the data centers it looks at are these |
| `FailOver.PrimaryIsBest` | api/v1beta2/foundationdb_database_configuration.go:593-611 | It is the first main data center of the highest priority, and none exactly if no priority is above the smallest integer |
| `ControllerLoop.ControllerConverges` | controllers/update_database_configuration.go:69-159 | For any number of regions, normalizing between the calls, as the controller does, reaches every final configuration that is neither ambiguous nor unreachable within the number of calls that bounds the planner |
| `ControllerLimits.ControllerTheorem` | controllers/update_database_configuration.go:69-159 | From every configuration that the controller may read first, enough passes reach the desired one, if and only if it is neither ambiguous nor unreachable |
| `ControllerLimits.AmbiguousPasses` | controllers/update_database_configuration.go:69-159 | Passes of any number that never reach an ambiguous configuration, although every pass normalizes |
| `ControllerLimits.UnreachablePasses` | controllers/update_database_configuration.go:69-159 | Passes of any number that never reach an unreachable configuration |
| `LockClient.Client.TakeLock` | fdbclient/lock_client.go:59-136 | Succeeds exactly on an empty lock, or for an owner that is not denied on an own, expired or denied lease, and writes the lease only then; the theorems of `LockProtocol` say what this comes to in runs |
| `LockClient.Client.ReleaseLock` | fdbclient/lock_client.go:283-336 | Removes exactly an own lease that has started and not ended; an error exactly if the stored value is no lease |
| `LockClient.Client.UpdateDenyList` | fdbclient/lock_client.go:245-268 | The new deny list as a function of the old one and the entries |
| `LockClient.DenyListMatches` | fdbclient/lock_client.go:245-268 | The new list agrees with the entries for every starting list, if and only if no id is listed both ways |
| `LockClient.DenyListUnlisted` | fdbclient/lock_client.go:245-268 | Ids without an entry stay as they are |
| `LockClient.DenyListBoth` | fdbclient/lock_client.go:245-268 | An id that is listed both ways changes sides |
| `LockClient.RegisteredMember` | fdbclient/lock_client.go:161-180 | Registering adds exactly the given ids, for the given version only |
| `LockKeys.ReadsApartTheorem` | fdbclient/lock_client.go:184-205 | A range read for one version never returns a registration for another, if and only if they differ and neither continues the other after a slash |
| `LockKeys.PlainVersions` | fdbclient/lock_client.go:161-205 | For versions without a slash, a key is in the range of exactly its own version, whatever the id |
| `LockKeys.PartsAreDisjoint` | fdbclient/lock_client.go:209-281 | Keys of pending upgrades, of the deny list and of the lock never meet |
| `LockKeys.Store.AddPendingUpgrades` | fdbclient/lock_client.go:161-180 | Writing one key per id adds the ids to those registered for the version, and changes neither other versions, the deny list nor the lock |
| `LockKeys.Store.GetPendingUpgrades` | fdbclient/lock_client.go:184-205 | The range read returns exactly the ids registered for the version |
| `LockKeys.Store.ClearPendingUpgrades` | fdbclient/lock_client.go:209-221 | The range clear forgets the registrations of all versions, and changes neither the deny list nor the lock |
| `LockKeys.Store.UpdateDenyList` | fdbclient/lock_client.go:245-281 | Setting and clearing single keys yields the deny list that `DenyListMatches` is about, and changes neither registrations nor the lock |
| `LockProtocol.RunIsTimely` | fdbclient/lock_client.go:139-157 | In every reachable state the stored lease does not start in the future |
| `LockProtocol.HoldsUntilGivenUp` | fdbclient/lock_client.go:71-157 | After a successful take the owner holds the lock until the lease ends, it releases it or loses it while denied |
| `LockProtocol.LeaseIsExclusive` | fdbclient/lock_client.go:71-157 | Another owner takes the lock before that end only after a release, or while the holder is on the deny list |
| `LockProtocol.ReleaseFreesExactlyOwnLiveLease` | fdbclient/lock_client.go:283-336 | In reachable states a live holder's release always frees the lock; a foreign or expired one changes nothing |
| `LockProtocol.ExpiredLeaseDoesNotBlock` | fdbclient/lock_client.go:71-136 | An owner that is not denied fails on an expired or denied lease only if somebody took the lock in between |
| `LockProtocol.DeniedOwnersWait` | fdbclient/lock_client.go:71-110 | In every run an owner on the deny list takes the lock only if nothing is stored |
| `LockProtocol.DeniedLeaseStays` | fdbclient/lock_client.go:71-136 | While an owner is denied and something is stored, it gets no lease, and its own stays as it is until somebody else takes it |
| `LockProtocol.TakeWritesLease` | fdbclient/lock_client.go:139-157 | After a successful take the new owner holds a lease that ends one lease duration later; a failed one changes nothing |
| `LockProtocol.HolderExtends` | fdbclient/lock_client.go:71-128 | An owner that is not denied always succeeds while it is the stored one |
| `LockProtocol.StartIsKept` | fdbclient/lock_client.go:112-157 | As long as something is stored, the start of the first lease stays, also across owners |
| `LockProtocol.FreeLockIsTaken` | fdbclient/lock_client.go:71-79 | On an empty lock everybody succeeds, and the lease starts at that time |
| `LockProtocol.GarbageStays` | fdbclient/lock_client.go:81-87 | A value that is no lease stays for the rest of the run |
| `BounceProcesses.CheckIfEnoughProcessesAreRunning` | controllers/bounce_processes.go:626-674 | For every map order: true exactly if there are as many addresses as the classes need in sum; `ReadyMeansEnough` and `CompleteIsReady` say how many that is |
| `BounceProcesses.CollectGroups` | controllers/bounce_processes.go:311-440 | Addresses, groups without address, stale configurations and per-class counts of all groups |
| `BounceProcesses.GetProcessesReadyForRestart` | controllers/bounce_processes.go:311-440 | The outcome with its three reasons to wait, in their order; `ReadyTheorem` says when it is ready |
| `BounceProcesses.ReadyMeansSynced` | controllers/bounce_processes.go:311-440 | If the outcome is ready, every considered group has the latest configuration and its addresses are in the list |
| `UpgradeReadiness.ReadyTheorem` | controllers/bounce_processes.go:311-440 | Ready if and only if every group that counts has the latest configuration, and addresses if it asks for a restart, and for an upgrade at least as many addresses are collected as processes are expected |
| `UpgradeReadiness.ReadyMeansEnough` | controllers/bounce_processes.go:626-674 | A ready upgrade has at least as many addresses as the sum over the desired classes of desired, less ignored, plus marked groups, times the processes per Pod: the log servers for log and transaction, the storage servers for storage, and one for all others |
| `UpgradeReadiness.CompleteIsReady` | controllers/bounce_processes.go:311-440 | The converse: a cluster whose groups match the desired numbers and report all their processes is ready |
| `UpgradeReadiness.ReadyAddresses` | controllers/bounce_processes.go:336-417 | The list holds exactly the addresses of excluded groups that are about to be removed, and of groups that count and ask for a restart |
| `BounceProcesses.GetUpgradeAddressesFromStatus` | controllers/bounce_processes.go:443-480 | The addresses to restart and the processes that are not ready, in order |
| `BounceProcesses.NobodyLeftOut` | controllers/bounce_processes.go:443-480 | No process is reported as not ready if and only if every process that needs the upgrade is registered |
| `BounceProcesses.RestartReaches` | controllers/bounce_processes.go:443-480 | An address is restarted if and only if it belongs to a registered process that needs the upgrade |
| `BounceProcesses.FilterIgnoredProcessGroups` | internal/buggify/buggify.go:57-104 | Computes the addresses that `UnignoredMember` is about, in order |
| `BounceProcesses.UnignoredMember` | internal/buggify/buggify.go:57-104 | An address stays if and only if no process of an ignored group runs on its machine |
| `UpgradePass.Instance.CheckOwnGroups` | controllers/bounce_processes.go:105-161 | The pass goes on exactly if the own groups are ready, something needs a restart and restarting is safe; that is a step of the protocol |
| `UpgradePass.Instance.RegisterGroups` | controllers/bounce_processes.go:176-189 | Registering the own groups is a step of the protocol, from every state of the database |
| `UpgradePass.Instance.Lock` | controllers/bounce_processes.go:198-203 | Taking the lock, or failing to, is a step of the protocol, from every state of the database |
| `UpgradePass.Instance.VerifyAll` | controllers/bounce_processes.go:484-526 | Succeeds exactly if the database is available and everybody who needs the upgrade is registered by then; a step of the protocol, from every state of the database |
| `UpgradePass.Instance.ClearRegistrations` | controllers/bounce_processes.go:527-532 | Clearing is a step of the protocol, from every state of the database |
| `UpgradePass.Instance.Restart` | controllers/bounce_processes.go:255-293 | Restarts exactly the verified addresses that are not ignored; a restart step exactly if there are any |
| `UpgradePass.Instance.Reconcile` | controllers/bounce_processes.go:105-293 | Without others in between: the lock, the registrations and the restarted addresses after a pass, for every state before it, and that the pass is a stretch of a run of the protocol with a restart exactly if it restarts processes |
| `UpgradePass.PassTheorem` | controllers/bounce_processes.go:105-293 | An undisturbed pass restarts exactly the processes that need the upgrade and share no machine with an ignored group, and clears the registrations, if it may proceed, gets the lock and everybody who needs the upgrade is registered; otherwise it restarts nothing |
| `UpgradeProtocol.KillIsJustified` | controllers/bounce_processes.go:105-218 | In every interleaving, a restart follows a successful take in the same pass, and at its verification every process that needs the upgrade was registered since the last clearing by an instance that had passed its own checks |
| `UpgradeProtocol.PendingIsRegistered` | fdbclient/lock_client.go:161-221 | Every pending id was registered by an instance after its checks and after the last clearing |
| `UpgradeProtocol.VerifyMeansRegistered` | controllers/bounce_processes.go:484-533 | A successful verification means that everybody who needs the upgrade is registered |
| `UpgradeProtocol.LockView` | controllers/bounce_processes.go:162-218 | The lock events of an upgrade run are a run of the lock protocol |
| `UpgradeProtocol.SectionsAreDisjoint` | controllers/bounce_processes.go:189-218 | From taking the lock to clearing, two instances that act within their leases do not overlap |
| `UpgradeProtocol.RegistrationsAreNotReused` | controllers/bounce_processes.go:189-218 | No registration serves the restarts of two such instances |
| `LateSections.LatenessTheorem` | controllers/bounce_processes.go:198-218 | For every lateness that sections may have beyond their leases: in all runs they do not overlap, and use no registration twice, if and only if it is not positive |
| `LateSections.LateSectionsOverlap` | controllers/bounce_processes.go:198-218 | For leases of every length, a run in which one unit of time beyond the lease makes two sections overlap and rely on one registration |
| `ProcessGroups.AddAddresses` | api/v1beta2/foundationdbcluster_types.go:647-676 | Computes the group that `AddressesKeptTheorem` is about: with old addresses included, all of them without repetition; without usable new ones, the old list |
| `ProcessGroups.CleanAddressListKeeps` | api/v1beta2/foundationdbcluster_types.go:679-691 | Exactly the non-empty addresses, each once |
| `ProcessGroups.AddressesAfter` | api/v1beta2/foundationdbcluster_types.go:647-693 | Old addresses are kept where they are included or nothing usable is new; otherwise exactly the non-empty new ones count |
| `ProcessGroups.AddressesKeptTheorem` | controllers/update_status.go:669-672 | Whatever addresses its Pod gets, a group forgets none, if and only if it is marked for removal, the database is not available or it has none but empty ones |
| `Exclusion.Classify` | controllers/exclude_processes.go:379-461 | A group that is marked and not excluded is either waiting or ongoing, never both, and testers are neither |
| `Exclusion.GetProcessesToExclude` | controllers/exclude_processes.go:358-467 | Per class, the waiting entries in order and the number of ongoing exclusions |
| `Exclusion.GetAllowedExclusions` | controllers/exclude_processes.go:474-551 | Valid processes plus fault tolerance, less desired and ongoing ones, never negative, and none while a process is missing for less than five minutes; `ChoiceTheorem` says what a pass makes of it |
| `Exclusion.ChooseExclusions` | controllers/exclude_processes.go:155-237 | For every class order the same multiset of addresses is sent, and nothing at all if a transaction class with waiting groups has no budget |
| `ExclusionChoice.ChoiceTheorem` | controllers/exclude_processes.go:474-551 | Of each class the pass picks, in order, as many waiting groups as there are running groups beyond the started exclusions and the desired number less the fault tolerance, or all of them; none while one is missing for less than five minutes |
| `ExclusionChoice.BudgetIsUsedUp` | controllers/exclude_processes.go:474-551 | If a waiting group is not picked and none is recently missing, one more exclusion would leave less than the desired number less the fault tolerance |
| `ExclusionChoice.GateTheorem` | controllers/exclude_processes.go:155-221 | Nothing is excluded at all if and only if a group of a class other than storage and general waits whose class can stand no exclusion |
| `ExclusionBudget.PassRespectsBudget` | controllers/exclude_processes.go:158-221 | If a class has picked groups, its valid groups that are neither ongoing nor picked number at least desired less fault tolerance |
| `ExclusionBudget.BudgetSurvives` | controllers/exclude_processes.go:158-221 | From such a pass on, through any exclusion passes, removal passes, marks, inclusions, new groups, drops and new addresses without failures, the bound holds |
| `ExclusionBudget.MarkTheorem` | controllers/exclude_processes.go:379-461 | Marking a group takes no process out of service if and only if it is excluded by locality, has an address, or does not count anyway; otherwise it takes exactly one |
| `ExclusionBudget.RemovableIsStarted` | controllers/remove_process_groups.go:706-742 | Whatever a removal pass records as excluded, its checks have written to the exclusion list |
| `ExclusionBudget.RemovalTheorem` | internal/removals/remove.go:138-173 | A removal pass, with its exclude commands and everything it records, takes no process but testers out of service, if and only if the commands leave out an entry of every group that counts and waits for its exclusion, which the status tells |
| `ExclusionStatus.GetRemainingAndExcluded` | pkg/fdbstatus/status_checks.go:82-209 | The checked entries by standing, in order, for every status; counting processes tells whether all of them are excluded without roles |
| `ExclusionStatus.CountsTell` | pkg/fdbstatus/status_checks.go:126-200 | The two counts for an entry are equal if and only if every process found under it is excluded and has no role |
| `ExclusionStatus.CanSafelyRemoveFromStatus` | pkg/fdbstatus/status_checks.go:236-276 | Where something may still run, when the check is an error, and what its exclude commands write to the exclusion list |
| `ExclusionStatus.VacatedTheorem` | pkg/fdbstatus/status_checks.go:236-276 | An entry is reported as unsafe unless the status can be trusted and every process at the entry is excluded without roles, or none is shown and the exclude command has completed |
| `Removal.ProcessGroupAddressesRemaining` | controllers/remove_process_groups.go:646-659 | True exactly if the locality or an address is reported as remaining |
| `Removal.GetAddressesToValidateBeforeRemoval` | internal/removals/remove.go:178-247 | What is checked, in order: localities where they are in use, addresses otherwise and for log processes, and nothing for groups whose exclusion is complete while a process reports |
| `Removal.GetRemainingMap` | internal/removals/remove.go:138-173 | For exactly the checked entries, whether something may still run there, and what is written to the exclusion list; an error exactly if there is something to check and commands must not be issued or the last one fails |
| `Removal.OverlookedTheorem` | controllers/remove_process_groups.go:671-748 | For any set of checks: whatever they find, a group is removed only if they find nothing of it, if and only if its checks are not ignored, which the set tells |
| `Removal.RemovalSafetyTheorem` | internal/removals/remove.go:178-247 | With the checks that are made, and groups that share no addresses: a removal can overlook something if and only if the group is not yet recorded as excluded and is a log process with an address while localities are in use, or a tester of which anything is checked |
| `Removal.OverlookedExample` | api/v1beta2/foundationdbcluster_types.go:695-746 | A log group that is removed while a process that is not excluded runs at its address |
| `Removal.NothingRunsTheorem` | internal/removals/remove.go:138-247 | If the checks find nothing of a group, every process at its checked entries is excluded without roles, or the exclude command has completed; and conversely where groups share no addresses |
| `Removal.GetZonedRemovals` | internal/removals/remove.go:105-135 | Every group in its zone, unknown or terminating, in order, and the latest termination |
| `Removal.GetProcessGroupsToRemove` | internal/removals/remove.go:45-100 | For every map order: all groups, one first group, or a whole zone with the most groups, leaving out what terminates |
| `Removal.GetProcessesToInclude` | controllers/remove_process_groups.go:507-639 | Compacting the list in place yields the order-preserving filter of the groups that stay, and the addresses to include |
| `Removal.IncludedCovers` | controllers/remove_process_groups.go:507-639 | For a dropped group that is no tester, its locality and every address that is excluded are included again |
| `RemovalRules.RemovableTheorem` | controllers/remove_process_groups.go:671-748 | With the checks that the operator makes, a group with its own addresses can be removed if and only if it is marked, no coordinator and nothing of it is left: it is a tester, or every entry that counts shows only excluded processes without roles or is written without being seen; a group without address, where no locality is checked, only after its Pod has been pending for more than an hour |
| `RemovalRules.UncheckedStays` | api/v1beta2/foundationdbcluster_types.go:695-746 | Whatever was checked, a group stays while an address of it was not, unless its exclusion is recorded or its locality was checked |
| `RemovalRules.RecordedTheorem` | api/v1beta2/foundationdbcluster_types.go:497-522 | Recording sets the time of the exclusion once and clears all conditions but that of terminating resources; other groups stay as they are |
| `RemovalRules.ChecksTheorem` | internal/removals/remove.go:178-247 | A marked group is checked unless it is recorded as excluded and one of its processes reports: by locality where localities are in use, and by address where they are not or for log processes |
| `RemovalRules.WrittenTheorem` | pkg/fdbstatus/status_checks.go:236-276 | An entry is written to the exclusion list if and only if it is checked, the status can be trusted and shows only excluded processes without roles there, and the command for it writes |
| `RemovalRules.IncludedTheorem` | controllers/remove_process_groups.go:507-639 | An excluded entry is included again if and only if it is the locality or an address of a dropped group that is no tester |
| `GroupReconciler.Operator.RefreshProcessGroupStatus` | controllers/update_status.go:1064-1174 | Groups are appended for exactly the live resources without a group, without duplicates |
| `GroupReconciler.Operator.AddUnknown` | controllers/update_status.go:1090-1172 | One kind of resource: new groups get the resource's id and class and count as missing from now on; they are not marked, not excluded and have no address |
| `GroupReconciler.Operator.GetProcessGroupsToRemove` | controllers/remove_process_groups.go:671-748 | Which groups are recorded as excluded and which are to be removed, whether all are excluded and whether something was recorded; `RemovableTheorem` and `RecordedTheorem` say when and what |
| `GroupReconciler.Inspect` | controllers/remove_process_groups.go:685-742 | Whether a group can be removed: marked, no coordinator, and excluded as far as reported; exactly then it is recorded as excluded; `RemovableTheorem` says it in terms of the status |
| `GroupReconciler.Operator.RemoveProcessGroup` | controllers/remove_process_groups.go:203-277 | All live resources of the group are deleted, however the API answers, unless its Pod is isolated; a failed read, or several volume claims, protect what is not yet deleted |
| `GroupReconciler.Operator.ConfirmRemoval` | controllers/remove_process_groups.go:279-363 | True exactly if no Pod, volume claim or service is left, terminating or not |
| `GroupReconciler.Operator.RemoveProcessGroups` | controllers/remove_process_groups.go:750-812 | Resources of all chosen groups are deleted, and each group that can be read is confirmed against the state afterwards |
| `GroupReconciler.Operator.IncludeProcessGroup` | controllers/remove_process_groups.go:365-482 | When groups are dropped and which exclusions go with them, and that nothing changes otherwise |
| `GroupReconciler.ChooseGroups` | controllers/remove_process_groups.go:112-180 | Nothing without fault tolerance or within the waiting time; otherwise a selection of zones and what terminates |
| `RemovalSelection.SelectionTheorem` | controllers/remove_process_groups.go:112-180 | A pass takes on nothing unless some group is not held back, the cluster has its fault tolerance and no termination is too recent; then all groups, one group, or the groups of a zone with the most of them, and always what already terminates |
| `RemovalSelection.PassLeavesNothingLive` | controllers/remove_process_groups.go:203-277 | After a pass whose reads and deletions succeed, no live Pod, volume claim or service of a chosen group is left, unless its Pod is isolated |
| `RemovalSelection.IsolatedStays` | controllers/remove_process_groups.go:203-277 | Nothing of a group whose Pod is isolated is deleted |
| `RemovalSelection.DropTheorem` | controllers/remove_process_groups.go:365-482 | Groups that are gone are dropped if and only if including them is safe or, where none of their entries is excluded, if another group stays |
| `GroupReconciler.Operator.Reconcile` | controllers/remove_process_groups.go:56-201 | The state after a whole pass, from the exclude commands of the checks to the groups that are dropped, and that the pass is a step of the life cycle |
| `Lifecycle.RefreshAddsNothing` | controllers/update_status.go:1064-1174 | Where every resource belongs to a listed group, refreshing changes nothing |
| `Lifecycle.RunHasNoOrphans` | controllers/remove_process_groups.go:279-363 | In every reachable state ids are unique and every Pod, volume claim and service belongs to a listed group |
| `Lifecycle.DroppedStaysDropped` | controllers/update_status.go:1064-1174 | Once an id is not listed it comes back only as a new group |
| `Lifecycle.RunDeletesSafely` | controllers/remove_process_groups.go:203-277 | Whenever a run deletes a volume claim, its group was marked, no coordinator, recorded as excluded, and everything that was checked of it was vacated, unless its checks were ignored; with own addresses, it then was a log process with an address, not yet recorded as excluded, while localities are in use; a group without address that was neither recorded as excluded nor checked by locality had been pending for more than an hour |
| `Lifecycle.DroppedGroupLeavesNothing` | controllers/remove_process_groups.go:365-482 | When a group disappears, all its resources are gone, and of a group that is no tester neither the locality nor an address stays excluded |
| `Lifecycle.DroppedTesterLeaves` | controllers/remove_process_groups.go:507-560 | A tester leaves an entry behind if and only if it was excluded before, or the checks of the pass excluded it |
| `UpdatePods.GetFaultDomainsWithUnavailablePods` | controllers/update_pods.go:145-182 | Exactly the fault domains of stateful groups with a condition, no Pod or a terminating Pod |
| `PodChecks.CheckProcessGroup` | controllers/update_pods.go:254-436 | When exactly the verdict on a group is an update and in which zone, an error, or a Pod missing for less than 90 seconds |
| `PodChecks.OneVerdict` | controllers/update_pods.go:254-436 | The verdict is determined: what is found out about a group never allows two |
| `PodChecks.FindPodsToUpdate` | controllers/update_pods.go:212-445 | The Pods to update, from what is found out about all groups |
| `UpdatePods.GetPodsToUpdate` | controllers/update_pods.go:221-252 | From the verdicts: all updates within the limit by zone and in order; an error exactly if a group within the limit fails, or misses its Pod recently while something is to be updated |
| `UpdatePods.SortedZoneKeys` | controllers/update_pods.go:461-485 | Every zone once, in order, the maintenance zone first |
| `PodDeletion.GetPodsToDelete` | controllers/update_pods.go:487-552 | Per mode: a pending maintenance zone is always chosen, otherwise the least allowed zone, and nothing exactly if every candidate is another zone that holds storage |
| `PodDeletion.Reconciler.DeletePodsForUpdates` | controllers/update_pods.go:555-678 | Pods, maintenance zone and processes under maintenance after the step, for every way it can stop |
| `PodDeletion.Reconciler.Reconcile` | controllers/update_pods.go:46-125 | The whole pass, with its reasons to do nothing, as a relation between the states before and after that the results below are about |
| `UpdateRules.FactsTheorem` | controllers/update_pods.go:254-445 | The verdict on a group in terms of what is found out about it: when its Pod is updated, when it ends the pass with an error and when it counts as missing |
| `UpdateRules.UpdatesTheorem` | controllers/update_pods.go:212-252 | The Pods to update are exactly those with such a verdict whose fault domain the limit allows: any while fewer domains are down, at the limit those in domains that are down anyway; there is an error if and only if one of them fails or misses its Pod recently while another one is to be updated |
| `UpdateRules.DueTheorem` | controllers/update_pods.go:212-445 | The same from the facts: a Pod is in the list of a zone if and only if its group is due, the limit allows it and it reports this zone |
| `UpdateRules.ZonePassTheorem` | controllers/update_pods.go:461-678 | A pass by zones deletes exactly the Pods to update in the zone in maintenance, if updates wait there, and otherwise in the first zone by name; while a zone is in maintenance, zones with storage Pods are passed over |
| `UpdateRules.PodPassTheorem` | controllers/update_pods.go:461-678 | A pass by Pods deletes exactly that of the first group to update in the zone in maintenance, or else in the first zone by name |
| `UpdateRules.AllPassTheorem` | controllers/update_pods.go:461-678 | A pass over all Pods deletes exactly those to update, up to the first deletion that fails |
| `UpdateRules.RefusedPass` | controllers/update_pods.go:487-678 | Nothing is deleted where it is not safe, without the lock except in the mode for all Pods, or in a mode without updates |
| `RollingUpdate.RollingUpdateBound` | controllers/update_pods.go:212-552 | In every mode, a pass leaves at most as many unavailable fault domains as there were or the limit allows, if a group stops it or Pods that are deleted together lie in one further fault domain |
| `RollingUpdate.RunStaysWithinLimit` | controllers/update_pods.go:145-252 | Staying within the limit is an invariant while only the operator takes Pods down |
| `RollingUpdate.ZoneTheorem` | controllers/update_pods.go:212-552 | For every mode and all groups: every pass under every limit keeps the bound, if and only if a group stops it or Pods that are deleted together lie in one further fault domain |
| `RollingUpdate.AgreeingZones` | controllers/update_pods.go:431-436 | Where the zones that Pods report are the fault domains, deleting a zone at a time satisfies this condition |
| `RollingUpdate.BoundTheorem` | controllers/update_pods.go:212-552 | For every mode and limit, whatever zones the Pods report: all passes keep the bound, if and only if the mode deletes at most one Pod or the limit is not positive |
| `RollingUpdate.TakesDownAll` | controllers/update_pods.go:431-552 | One pass takes down any number of fault domains under any positive limit, in the mode for all Pods, and zone by zone if all Pods report the zone of a simulation |
| `Maintenance.MaintenanceDiscipline` | controllers/update_pods.go:564-678 | A storage Pod is taken down only in the zone that the same pass sets as maintenance zone, with its group recorded, and never while another zone is known to be in maintenance; if its zone is empty, that means no zone is in maintenance |
| `Maintenance.HoldsOthersBackTheorem` | controllers/update_pods.go:431-678 | Until the maintenance zone is reset, storage Pods are taken down in no zone but that of an earlier pass of the run, if and only if that zone is not empty |
| `Maintenance.OneStorageZoneAtATime` | controllers/update_pods.go:564-678 | Until the maintenance zone is reset, all passes of a run together take down storage Pods in one zone only, once a pass has set a zone that is not empty |
| `Maintenance.UnknownZoneRunTakesDown` | controllers/update_pods.go:431-436 | A run that takes down storage in the empty zone and then in another one |
| `ProcessAddress.SortedFlags` | api/v1beta2/foundationdb_process_address.go:96-107 | Exactly the flags that are set, ascending |
| `ProcessAddress.String` | api/v1beta2/foundationdb_process_address.go:261-281 | The printed form with its flags in order; with port 0 only the host |
| `ProcessAddress.ParseProcessAddress` | api/v1beta2/foundationdb_process_address.go:160-227 | The loop ends on every input and computes the function that `RoundTrip` is about |
| `ProcessAddress.RoundTrip` | api/v1beta2/foundationdb_process_address.go:160-281 | For every non-zero port and every host without brackets, parsing the printed form gives the address back if and only if it is printable |
| `ProcessAddress.RoundTripAlone` | api/v1beta2/foundationdb_process_address.go:160-281 | An address without a port is printed as its host, and parsing this gives the address back if and only if there are no flags and no marker and a name reads neither as an IP address nor as marked, and has no colon |
| `ProcessAddress.ParsedFlagsPlain` | api/v1beta2/foundationdb_process_address.go:160-227 | Every flag of a parsed address is set and free of colons |
| `ProcessAddress.MarkerFlagIsLost` | api/v1beta2/foundationdb_process_address.go:166-169 | A flag that ends in the hostname marker does not survive |
| `ProcessAddress.HexFlagsAreLost` | api/v1beta2/foundationdb_process_address.go:171-178 | A name with hexadecimal flags that reads like an IPv6 address does not survive |
| `RunningVersion.GetRunningVersion` | controllers/update_status.go:1176-1220 | The result of visiting the versions in some order, and the current version if none is reported |
| `RunningVersion.RunningVersionIsBest` | controllers/update_status.go:1176-1220 | If every version parses, every order finds a reported maximum of (count, version) |
| `RunningVersion.StabilityTheorem` | controllers/update_status.go:1176-1220 | The result is the same for all orders if and only if every version parses, or one that does not is reported most |

## Left out

- Kubernetes caches, conflicts, events and logging: what the API answers is an input.
- Global synchronization mode of exclusion, inclusion and restart.
- The FoundationDB bindings, `fdbcli`, the machine-readable status and TLS: what they report is an input.
- Configuration fields that have nothing to do with regions: one field stands for all of them.
- Backup and restore controllers, Pod, Service and ConfigMap construction, replacements and metrics: easy members.
- Real time inside one transaction or pass: every step happens at one time.
- Planner.GetNextConfigurationChange: says which results are possible, not which one, because the code picks by map order; regions have exactly one main data center each, with different non-empty ids, like everywhere in the region modules.
- UpgradeProtocol.KillIsJustified: instances with disabled locks are not part of the runs.
- FailOver.FailOverTheorem: satellite values are 0 or 1, as the schema of the resource demands.
- UpgradePass.Instance.CheckOwnGroups: whether restarting is safe, and whether the cluster controller has to restart, are inputs.
- BounceProcesses.GetProcessesReadyForRestart: the conditions of one group are inputs, as flags.
- UpgradeProtocol.SectionsAreDisjoint: sections end within their leases; `LatenessTheorem` shows that they have to.
- UpgradeProtocol.RegistrationsAreNotReused: the same.
- ControllerLoop.ControllerConverges: at least one region is usable, which is what normalization leaves.
- ExclusionBudget.BudgetSurvives: no process fails, nobody else excludes processes, groups have their own addresses, and groups are marked and removal passes happen only where `MarkTheorem` and `RemovalTheorem` say that this keeps processes in service.
- ExclusionStatus.CanSafelyRemoveFromStatus: whether the status can be trusted, and how the exclude commands end, are inputs; a command writes all of its entries or none.
- RollingUpdate.ZoneTheorem: groups have different Pods.
- Removal.RemovalSafetyTheorem: addresses are kept in the form in which they are printed, and groups share none.
- PodChecks.CheckProcessGroup: clocks, specification hashes and what Pods report are inputs.
- PodDeletion.GetPodsToDelete: in the mode for all Pods it says which Pods are deleted, not in which order.
- Maintenance.MaintenanceDiscipline: Pods carry their process group label; without a status the maintenance zone counts as "unknown".
- ProcessAddress.RoundTripAlone: IP addresses are printed as something, and without the marker.
- UpgradeReadiness.CompleteIsReady: no group is ignored, marked or terminating, and every class is desired.
- RemovalRules.RemovableTheorem: groups share no addresses.
- RemovalSelection.SelectionTheorem: of several largest zones, or several first groups, any may be taken, because the code goes by map order.
- UpdateRules.ZonePassTheorem: groups have different Pods, and the lock, the records and the deletions succeed.
- UpdateRules.PodPassTheorem: the same, and maintenance mode is not used; `MaintenanceDiscipline` covers that.
- UpgradePass.PassTheorem: nobody else acts during the pass; `KillIsJustified` covers interleavings.
- ProcessAddress.RoundTrip: IP addresses are abstract, with a parser that inverts the printer; an absent flag map and an empty one are the same.
- RunningVersion.StabilityTheorem: versions are abstract, with a parser and a total order.
