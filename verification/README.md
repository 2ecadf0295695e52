# A verified model of the inventory cache

The program is a caching middleware for inventories: it gathers hosts, variables
and groups from sources, keeps them in a cache, refreshes single hosts on demand,
and answers readers with filtered, merged and printed inventories. This project
models the parts of it where a mistake would be hard to see, and proves what they
promise. `dafny verify dfyconfig.toml` checks everything.

There are five groups of modules.

**Refreshes and syncs.** `Protocol` is a transition system over any number of
tasks and sources. A refresh takes one lock per host in sorted order, looks again,
takes a permit from a pool that can be resized while it is in use, and then syncs;
a sync reads a counter, queues for its source's lock, and gathers or answers from
the cache. A step is what happens between two await points; a task may be dropped
before any of them, and a run is any list of steps. `ProtocolLocks`,
`ProtocolProgress`, `ProtocolOrder`, `ProtocolCoalescing` and `ProtocolLoad` prove
what holds in every run. `ProtocolRequests`, `ProtocolResources`, `ProtocolStaleness`
and `ProtocolEvents` tie the protocol to what was asked for, to who holds what, to the
configuration, and its log to what happened. `Limiter` is the coordinator object itself.

**The cache entry.** `Entries` says what each mutator does to an entry as a value;
`CacheEntries` is the object, with its datasets behind shared references and its
lazily filled serialisation cell, and every method is proved to do just that.
`EntryLaws` says what the mutators promise each other. `SharedCell` runs arbitrary
operations on objects that share cells. `SyncApply` and `SyncWrite` are a sync's
cache write, as a function and as the sequence of calls on the entry. `Retention` is
what a replacing sync keeps of hosts it could not reach. `SyncLaws` says what a write
leaves of every host, for every scope and mode, in terms of what was there and what came.

**Algorithms.** `HostFilter` (name patterns with stars), `GroupTrim` (the groups a
page of hosts belongs to), `VarPath` (dotted paths kept and dropped), `Views` (the
routing table), `Sources` (which TTL governs a host).

**Readers.** `Yaml` reads a parser's events, as a function and as the reader object
proved against it; `YamlBounds`, `YamlTwoReadings` and `YamlScalars` prove what it
guarantees. `StaticInventory` is the recursive walk over a tree of groups that
holds a group's record outside the table; `InventoryAssembly` builds the dataset;
`InventoryMeaning` and `InventorySize` say what that dataset tells of the document.

**Printers.** `Output` limits, merges, filters and shapes; `OutputLimit` proves that
the limit commutes. `Inventory` prints and reads Ansible inventory JSON. `Csv` prints
a table and reads it back by section 2 of RFC 4180.

`Text`, `Sums`, `Json` and `Datasets` hold what the others share.

Where the code does less than its comments or its callers may expect, that is
stated exactly, with the condition under which the expectation holds:

- The comment at src/application/sync.rs:165-168 says that a coalesced answer stands
  on a sync that started after the request. The code guarantees that it completed
  after the request read the counter. It is sure to have started after that reading
  exactly when no plain full sync of the source is gathering or landed and uncounted
  then (`CoalescedStartedLaterIffNothingUnderWay`), and to have written the cache
  after it exactly when none is landed and uncounted
  (`CoalescedIsFreshIffNothingLanded`).
- Host names are sorted but not deduplicated before they are locked. The tasks can
  finish by themselves exactly when no unfinished refresh has a host twice in the
  list it found stale (`TasksCanFinishIffListedOnce`).
- The glob compares literally before it looks at a star, so a text that itself holds
  a `*` is misread by some pattern (`GlobIsExactIffStarFree`).
- A top-level variable with a dot in its name can hide a path that is then not
  dropped (`DroppedPathsLookUpNothingIff`).
- A group nested inside itself loses the hosts, children and variables declared only
  there (`NoSelfNestingLosesNothing`).
- An alias as a mapping key makes different keys in the two YAML readings exactly
  when its anchor is a number or a boolean whose JSON text is not its source text
  (`AliasedKeyAgreesIff`).

## Model

| member | source | states |
|---|---|---|
| ProtocolLocks.DeadlockFree | src/application/refresh.rs:212-244 | After any run, with requests, resizes, timeouts and cancellations in any order, if no request found a host stale twice, then while some refresh or sync is unfinished some task can take a step of its own |
| ProtocolLocks.MutualExclusion | src/application/refresh.rs:99-139 | In every reachable state no two tasks hold one host lock or one source lock; free plus held permits equal capacity plus shrink debt; held permits never exceed the largest capacity ever declared |
| ProtocolResources.HostLocksAreForTheStale | src/application/refresh.rs:212-220 | In every run a host lock is held by an unfinished refresh of that source that found that host stale, and one past its lock wait holds exactly the locks of all it found stale |
| ProtocolResources.OneAtATime | src/application/refresh.rs:212-244 | In every run two refreshes past their locks share no host of a source, and two syncs of a source never gather or write at the same time |
| ProtocolResources.RefreshesAreLimited | src/application/refresh.rs:99-132 | However requests, resizes, timeouts and cancellations interleave, no more refreshes gather at once than the largest number ever declared |
| ProtocolResources.QueueingSettles | src/application/refresh.rs:124-132 | Whoever queues for a permit first settles the pool: no debt is left, or no free permit |
| ProtocolLocks.ReachableConsistent | src/application/sync.rs:277-311 | Every reachable state has lock tables, permit pool and tasks in agreement about who holds what |
| ProtocolLocks.StepHasEffect | src/application/refresh.rs:203-295 | Any step of any task takes at most its next host lock, its source lock or one permit, or gives back what it holds; nobody else's task changes |
| ProtocolLocks.HostWaitersMove | src/application/refresh.rs:212-220 | When only host locks are waited for, whoever waits for the last name in order waits for a free lock |
| ProtocolLocks.NamedOnceIsStaleOnce | src/application/refresh.rs:203-220 | In particular a run whose requests name no host twice is one in which none is found stale twice |
| ProtocolProgress.OwnStepsAreBounded | src/application/refresh.rs:203-295 | From a consistent state the tasks' own steps are at most the work left, in whatever order they are taken |
| ProtocolProgress.EverybodyFinishes | src/application/refresh.rs:203-295 | After any run in which no request found a host stale twice, all tasks can finish by their own steps alone |
| ProtocolProgress.TasksCanFinishIffListedOnce | src/application/refresh.rs:212-220 | After any run at all, the tasks can all finish by their own steps if and only if no unfinished refresh has a host twice in the list it found stale |
| ProtocolProgress.RepeatNeverLeaves | src/application/refresh.rs:215-220 | A refresh with a host twice in its list stays at its locks whatever steps the tasks take |
| ProtocolProgress.HostNamedTwiceBlocksItself | src/application/refresh.rs:215-220 | From any reachable state, a request that finds a host stale twice never gets past its locks by the tasks' own steps, and they come to a state in which it is unfinished and nothing can move |
| ProtocolLocks.ReachableHeldOnce | src/application/refresh.rs:217-220 | In every reachable state no task holds one host lock twice |
| ProtocolOrder.SyncsOfASourceNeverOverlap | src/application/sync.rs:277-311 | Of two cache writes of one source by syncs, the later one's gather started after the earlier one was written |
| ProtocolOrder.CoalescedStandsOnACompletedSync | src/application/sync.rs:145-169 | An answer marked coalesced has a plain full sync of its source, which had committed, counted between the request's counter reading and its lock grant; nothing else is ever counted |
| ProtocolRequests.LogTellsOfRequests | src/application/sync.rs:277-311 | In every run, whoever is answered from another sync asked for the whole source, plainly, and so did whoever is counted; a cache write is marked as such a sync's exactly when it is one |
| ProtocolRequests.GrantedTaskCoalescesOrGathers | src/application/sync.rs:277-311 | Under the source lock a task is answered from the cache exactly when it asked for the whole source, plainly, and the counter moved since its reading; any other gathers |
| ProtocolRequests.OnlyWholeSyncsCount | src/application/sync.rs:402-410 | The end of a sync moves its source's counter, by one, exactly when it asked for the whole source, plainly, and succeeded |
| ProtocolRequests.NothingElseCounts | src/application/sync.rs:402-410 | No other step moves a counter |
| ProtocolRequests.CommitAppliesTheRequest | src/application/sync.rs:362-410 | What lands is written for what was asked for: a refresh's hosts still stale, any other's scope; only a full sync's dataset lists group members as hosts |
| ProtocolRequests.NothingElseWrites | src/application/sync.rs:362-410 | Nothing but a sync landing with an answer, or another writer, changes what the cache holds for a source |
| ProtocolOrder.ReachableTraced | src/application/sync.rs:402-410 | In every reachable state each task's memory, each logged event and each counter agree with the log |
| ProtocolCoalescing.CoalescedIsFreshIffNothingLanded | src/application/sync.rs:277-323 | A request about to read the counter is sure to be answered only from cache writes made after that reading exactly when no plain full sync of the source has landed uncounted at the reading |
| ProtocolCoalescing.CoalescedStartedLaterIffNothingUnderWay | src/application/sync.rs:165-169 | A request about to read the counter is sure to be answered only from syncs that started after that reading exactly when no plain full sync of the source is gathering, or landed uncounted, at the reading |
| ProtocolCoalescing.AnswerStartedBefore | src/application/sync.rs:277-311 | Otherwise there is a run in which every sync the answer stands on started before the reading |
| ProtocolCoalescing.StaleAnswer | src/application/sync.rs:362-410 | While one is landed uncounted there is a run in which the answer comes without any sync writing the cache after the reading |
| ProtocolCoalescing.ReachableSound | src/application/sync.rs:277-311 | The states those conditions speak about include every reachable one |
| ProtocolLoad.RefreshLoadIsBoundedByTtl | src/application/refresh.rs:203-240 | On a source that reports no ages, a refresh's gather of a host that an earlier refresh stored, and that was not removed since, starts at least one TTL after that store, in every run |
| ProtocolStaleness.RefreshLoadIsBoundedByConfiguration | src/application/refresh.rs:203-240 | The same in the configuration's terms: the TTL is the one in force at the gathering task's re-check under its locks, and the host's own override where its source has one |
| ProtocolStaleness.StaleByConfiguration | src/application/refresh.rs:358-383 | A requested host of a cached source is stale exactly when it has no stamp, or one as old as the TTL the configuration puts on it: its own, else the least of its groups', else the default |
| ProtocolStaleness.StaleAsRequested | src/application/refresh.rs:358-383 | Of a source that is not cached every requested host is stale; a stale host is listed as often as it was requested |
| ProtocolStaleness.ReachableChecked | src/application/refresh.rs:212-240 | In every run, what a refresh is about to gather, and what its gather logs, is what its re-check found stale, with the TTLs of that moment |
| ProtocolEvents.GathersAreLogged | src/application/refresh.rs:212-244 | Exactly when a refresh starts to gather a host is it logged so, at that time |
| ProtocolEvents.StoresAreLogged | src/application/refresh.rs:212-244 | Exactly when a refresh's gather of a host lands with an answer for it is it logged as stored |
| ProtocolEvents.LossesAreLogged | src/application/sync.rs:362-410 | Exactly when the cache had a gathering time for a host and no longer has is it logged as lost |
| ProtocolLoad.StaleIsOld | src/application/refresh.rs:358-383 | A host found stale under the locks, which a refresh stored and nobody removed, is a TTL old |
| ProtocolLoad.AloneWithHost | src/application/refresh.rs:212-240 | While a refresh gathers a host, no other task of that source is between its check of that host and its gather |
| ProtocolLoad.ReachableLoadBounded | src/application/refresh.rs:203-240 | The invariant behind the load bound holds in every reachable state |
| Protocol.StaleHosts | src/application/refresh.rs:358-383 | Exactly the requested hosts that are outside their TTL or not cached, without new repetitions |
| Limiter.ResizeAndSettleConserve | src/application/refresh.rs:67-132 | Resizing and settling conserve permits for every capacity; with nothing held one settlement makes the free permits exactly the declared capacity |
| Limiter.ResizesArePrompt | src/application/refresh.rs:99-132 | Growth pays debt before it adds permits and shrinkage leaves debt only when no permit is free, both by exactly the change; a pool with nothing out is resized to a full pool |
| Limiter.RefreshCoordinator.constructor | src/application/refresh.rs:67-81 | A new pool has at least one permit, all free |
| Limiter.RefreshCoordinator.Resize | src/application/refresh.rs:99-118 | The object's pool becomes the resized one, conserved, without underflow |
| Limiter.RefreshCoordinator.Settle | src/application/refresh.rs:124-132 | Free permits pay the debt before the wait; with nothing held the declared capacity is free afterwards |
| Limiter.RefreshCoordinator.Take | src/application/refresh.rs:124-132 | A permit taken leaves the pool conserved, with one more held |
| Limiter.RefreshCoordinator.Release | src/application/refresh.rs:240-244 | A permit that goes out of scope comes back to the pool, conserved |
| Limiter.RefreshCoordinator.LockFor | src/application/refresh.rs:134-139 | One lock per source and host, the same one every time, shared by no other host |
| Sources.GroupTtlByHost | src/domain/source.rs:658-673 | The table holds for each host the least TTL among its groups' overrides, and no other host |
| Sources.EffectiveTtl | src/domain/source.rs:675-687 | A host's own override, else the least of its groups', else the fallback |
| Sources.EffectiveIsConfigured | src/domain/source.rs:675-687 | Exactly one TTL meets the configuration's rule for a host, and it is the one in effect |
| Sources.LookupTtl | src/domain/source.rs:675-687 | The lookup in the precomputed table gives that TTL |
| CacheEntries.CacheEntry.New | src/domain/cache_entry.rs:83-112 | A new entry stamps every host now and is complete, with an empty cell of its own |
| CacheEntries.CacheEntry.Restore | src/domain/cache_entry.rs:114-140 | A restored entry is the value that RestoredEntryReportsItsAges describes, with an empty cell of its own |
| EntryLaws.RestoredEntryReportsItsAges | src/domain/cache_entry.rs:114-140 | A restored host reports exactly the age it came with and is fresh for what is left of any TTL; a host without a representable age is stale for every TTL; an entry whose own age is not representable is never fresh, any other for what is left of its TTL |
| CacheEntries.CacheEntry.Clone | src/domain/cache_entry.rs:70-75 | A clone holds the same value and shares the serialisation cell |
| CacheEntries.CacheEntry.SerializedJson | src/domain/cache_entry.rs:149-177 | The bytes served are the serialisation of the dataset held, whoever filled the cell |
| CacheEntries.CacheEntry.UpdateHostAged | src/domain/cache_entry.rs:280-291 | Replaces one host's variables, backdates its stamp, and leaves the shared cell to the other holders |
| CacheEntries.CacheEntry.CaptureHost | src/domain/cache_entry.rs:294-314 | What a host has at that time: variables, age in whole seconds, groups |
| CacheEntries.CacheEntry.RestoreHost | src/domain/cache_entry.rs:320-338 | Puts a captured host back, with every group it was in |
| CacheEntries.CacheEntry.SetHostGroups | src/domain/cache_entry.rs:362-382 | Moves a host to exactly the named groups, implicit groups aside |
| CacheEntries.CacheEntry.MergeHostvarFields | src/domain/cache_entry.rs:399-410 | Merges variables key by key on the hosts held, and no others |
| CacheEntries.CacheEntry.MergeGroupVarFields | src/domain/cache_entry.rs:422-446 | Merges group variables key by key |
| CacheEntries.CacheEntry.MergeInto | src/domain/cache_entry.rs:477-508 | Merges hosts and groups, removes the hosts to remove, stamps new hosts and, if asked, the others |
| CacheEntries.CacheEntry.RemoveHost | src/domain/cache_entry.rs:511-519 | Takes one host out of variables, stamps and groups |
| CacheEntries.CacheEntry.UpdateGroup | src/domain/cache_entry.rs:521-543 | Replaces one group and the variables of its members |
| EntryLaws.MergePatches | src/domain/cache_entry.rs:477-508 | After a merge, host by host: what came replaces what was there, removed hosts are gone from everywhere, and only new or gathered hosts are stamped |
| EntryLaws.EnrichmentNeverRefreshes | src/domain/cache_entry.rs:384-475 | However many enrichers of whatever kind run, a host already here and not removed is fresh exactly when it was before, for any TTL at any time, and so is the entry |
| EntryLaws.EnrichersKeepEachOthersKeys | src/domain/cache_entry.rs:384-410 | Enrichers that write different keys of hosts commute, and every key keeps what its enricher wrote |
| EntryLaws.GroupEnrichersCommute | src/domain/cache_entry.rs:412-446 | Enrichers that write different variables of groups already here commute |
| EntryLaws.FieldsMoveNobody | src/domain/cache_entry.rs:396-422 | Enrichment by fields introduces no host and changes no membership of a group already here |
| EntryLaws.RemovalForgets | src/domain/cache_entry.rs:511-519 | A removed host is in no variables, stamps or groups, and every other host is as before |
| Datasets.WithoutKeepsOrder | src/domain/cache_entry.rs:511-519 | Taking a host out of a group's list keeps the order and the repetitions of the others |
| Datasets.WithoutOfOne | src/domain/cache_entry.rs:511-519 | A single name goes exactly if it is that host |
| EntryLaws.RestoreUndoesRemoval | src/domain/cache_entry.rs:294-338 | Restoring a captured host undoes its removal, but for less than a second and the delay on its stamp |
| EntryLaws.GroupUpdateTouchesMembersOnly | src/domain/cache_entry.rs:521-543 | A group's update changes only the variables and stamps of its members that came, and no membership |
| EntryLaws.GroupUpdateSetsItsVars | src/domain/cache_entry.rs:521-543 | The updated group's own variables become those that came, none included; every other group's stay |
| EntryLaws.GroupFieldsMerge | src/domain/cache_entry.rs:422-446 | Key by key: a variable that came replaces the one there, and any other stays; a group not there is created as described |
| SyncApply.SetHostGroupsMoves | src/domain/cache_entry.rs:362-382 | One host's memberships outside the implicit groups become exactly the named ones; nobody else moves |
| SharedCell.Replay | src/domain/cache_entry.rs:70-75 | For any sequence of creations, clones, mutations and reads over objects that share cells, every read serves the serialisation of what its entry holds, and every object holds what the value model holds |
| SharedCell.TimestampsCoverHosts | src/domain/cache_entry.rs:280-543 | In entries made by a gather the timestamp keys equal the host keys after any sequence of mutators |
| SyncWrite.ApplyToCache | src/application/sync.rs:640-861 | The sequence of calls on the entry object writes exactly what the function `Apply` says, for every scope and mode |
| SyncLaws.ReplaceSyncKeepsWhomItMissed | src/application/sync.rs:796-844 | After a replacing full sync that missed hosts, the entry holds the gathered hosts and the missed ones it held before: the kept ones with their variables, memberships and age, the gathered ones as gathered and dated by their reported ages or now |
| SyncLaws.MissedSyncsDriftIsBounded | src/application/sync.rs:796-844 | After k such syncs that miss a host it is still there, its stamp no earlier and later by less than k seconds and the delays |
| SyncLaws.MergeSyncPatches | src/application/sync.rs:845-860 | A full merge patches hosts and groups, stamps every gathered host now, dates the entry now and makes it complete |
| SyncLaws.FirstSyncWrites | src/application/sync.rs:640-861 | Into an empty cache a sync writes what was gathered, dated now; only a full one makes a complete entry, and one that was told of no requested host makes none |
| SyncLaws.CompleteReplacementIsDated | src/application/sync.rs:640-861 | A replacement that missed nobody holds what was gathered, each host dated by its reported age, or now if none are reported |
| SyncLaws.CompleteReplacementForgets | src/application/sync.rs:640-861 | It does not depend on what was there |
| SyncLaws.AnsweredHostsAreDated | src/application/sync.rs:640-861 | A host answered in a sync of hosts is stamped with its reported age where representable, else now |
| SyncLaws.PartialSyncsDateNothing | src/application/sync.rs:640-861 | A scoped sync of a cached source leaves the entry's own date and completeness |
| SyncLaws.WritesLeaveTheTtl | src/application/sync.rs:640-861 | After a write the TTL is the source's, or zero where a replacement that missed nobody came with an age the clock cannot represent; a sync of hosts told of none writes nothing |
| SyncLaws.GroupSyncTouchesMembersOnly | src/application/sync.rs:640-861 | A sync of a cached group writes and dates its members that came; every other host, and every membership, is as before |
| SyncLaws.HostSyncGroupVars | src/application/sync.rs:640-861 | A sync of hosts merges the variables of the groups its answered hosts are in, and of no others, if the source says so; else of none |
| SyncLaws.GroupMembersBecomeHosts | src/domain/dataset.rs:163-178 | A full sync's dataset has every host a group of it names, without variables if it was named nowhere else |
| SyncWrite.WriteHostScope | src/application/sync.rs:640-861 | The same for a sync of named hosts |
| SyncWrite.WriteReplacement | src/application/sync.rs:796-844 | The same for a replacement that keeps unreachable hosts |
| SyncApply.HostScopeTouchesOnlyAnswered | src/application/sync.rs:640-861 | A sync of named hosts changes exactly the answered ones: variables, stamps, memberships; every other host keeps everything |
| SyncApply.LocalSyncAdvances | src/application/sync.rs:640-861 | A sync without reported ages moves no record back in time, loses nobody unless it is full, and stamps answered hosts now |
| Retention.RetentionKeepsWholeHosts | src/application/sync.rs:817-844 | After a replacement the hosts are the gathered ones and the unreachable ones held before; each kept host keeps its variables and every former membership; the others are where the gather put them |
| Retention.ReplacementHolds | src/application/sync.rs:817-844 | The same with the timestamps: a kept host's stamp is put back from its captured age |
| Retention.BackdatingDrift | src/domain/cache_entry.rs:280-337 | A stamp put back from a whole-second age is never earlier than it was, later by less than a second and the delay, and always representable |
| Retention.FailedRoundsDriftIsBounded | src/application/sync.rs:796-844 | After k gathers that miss a host it is still there, its stamp no earlier and later by less than k seconds and the delays |
| HostFilter.Glob | src/domain/host_filter.rs:205-226 | The loop with one remembered star computes the walk, and ends |
| HostFilter.GlobMeans | src/domain/host_filter.rs:205-226 | On a text without stars the walk holds exactly when the recursive meaning of the pattern does |
| HostFilter.OneCharacterMeans | src/domain/host_filter.rs:201-226 | One character of a pattern means: a star any text, a question mark any one character, anything else itself |
| HostFilter.PatternsInARowMean | src/domain/host_filter.rs:201-226 | Two patterns in a row mean a text of the one followed by a text of the other |
| HostFilter.StarredTextIsMisread | src/domain/host_filter.rs:205-226 | For every text with a star there is a pattern on which the loop and the meaning differ |
| HostFilter.GlobIsExactIffStarFree | src/domain/host_filter.rs:205-226 | The loop is right about a text for all patterns if and only if the text has no star |
| GroupTrim.Matching | src/domain/group_trim.rs:19-77 | A group is kept exactly when a group with a host on the page is reachable by child edges, cycles or not; hosts and children are trimmed in order; at most as many growing passes as groups |
| GroupTrim.Fixpoint | src/domain/group_trim.rs:47-64 | The passes end in a set with no parent left out in which every group leads to the page |
| Text.WithinKeepsOrder | src/domain/group_trim.rs:19-77 | Restricting a list to a set keeps order and repetitions |
| Text.WithinOfOne | src/domain/group_trim.rs:19-77 | A single name stays exactly if it is in the set |
| GroupTrim.ClosedHoldsLeading | src/domain/group_trim.rs:47-64 | Any such set that holds the seeds holds every group that leads to them |
| VarPath.FindValue | src/domain/var_path.rs:23-33 | The walk with a cursor finds what stands at the path's place |
| VarPath.LookupMeans | src/domain/var_path.rs:23-33 | What a path looks up, step by step: a key of its whole name first, else its first piece and the rest below it |
| VarPath.SplitInverse | src/domain/var_path.rs:27-31 | Splitting a path at its dots loses nothing, and one piece means no dots |
| VarPath.InsertPath | src/domain/var_path.rs:115-131 | The cursor that creates parents on the way puts the value at its place, or changes nothing where the way is barred |
| VarPath.KeepPaths | src/domain/var_path.rs:88-113 | The result is the pruning of the variables that holds exactly what is on, above or below a kept path |
| VarPath.KeptPathsLookUpTheSame | src/domain/var_path.rs:88-113 | Every kept path looks up the same value as before, or nothing as before |
| VarPath.KeptIsLeast | src/domain/var_path.rs:88-113 | No smaller pruning holds the kept paths |
| VarPath.KeepOrderIsIrrelevant | src/domain/var_path.rs:88-113 | Order and repetition of the kept paths do not matter |
| VarPath.DropPaths | src/domain/var_path.rs:135-169 | The result is the pruning that lacks exactly the dropped places and what is below them |
| VarPath.DroppedIsGreatest | src/domain/var_path.rs:135-169 | No larger pruning lacks the dropped places |
| VarPath.DropOrderIsIrrelevant | src/domain/var_path.rs:135-169 | The order of the dropped paths does not matter, keys with dots included |
| VarPath.DropLeavesUnrelatedAlone | src/domain/var_path.rs:135-169 | A place neither on, above nor below a dropped one holds the same value |
| VarPath.DroppedPathsLookUpNothingIff | src/domain/var_path.rs:135-169 | All dropped paths look up nothing if and only if every dropped key that hides a path comes with a path dropped by its steps on the way to it |
| VarPath.PlainKeysDropCleanly | src/domain/var_path.rs:135-169 | With no dot in a top-level key every dropped path looks up nothing |
| VarPath.HiddenPathSurvives | src/domain/var_path.rs:135-151 | A concrete host on which a dropped path is still found |
| VarPath.ShapeHost | src/domain/var_path.rs:69-76 | Keeping comes first, dropping applies to what was kept, and no selection changes nothing |
| Yaml.Reader.Node | src/domain/yaml.rs:107-185 | The reader with its anchors, counters and loops reads a node as the function of the events does, and fails with the same error |
| Yaml.Reader.Stream | src/domain/yaml.rs:83-104 | The same for the whole stream: at most one document |
| YamlBounds.ReadIsBounded | src/domain/yaml.rs:29-33 | A successful read of n events yields at most n + max(1,000,000, 100 n) nodes, aliases included |
| YamlBounds.NodeIsSized | src/domain/yaml.rs:107-185 | Every size returned or remembered is the node count of its value, paid for by events read and nodes copied within the budget |
| YamlBounds.ReadIsShallow | src/domain/yaml.rs:107-112 | The events of a successful read nest no deeper than the limit |
| YamlBounds.AliasIsCopiedIff | src/domain/yaml.rs:107-135 | An alias is read exactly when its anchor is known and the copies so far fit the budget of the events so far, and then as a copy of it |
| YamlBounds.AnchorsAreRemembered | src/domain/yaml.rs:107-185 | After a node with an anchor the anchor stands for its value |
| YamlBounds.OneDocumentOnly | src/domain/yaml.rs:83-104 | A second document is refused, and so is anything outside a document |
| YamlBounds.KeysOfAliases | src/domain/yaml.rs:158-169 | A key that is an alias is its anchor's text, or its JSON text if that is another scalar; a list or a mapping is no key |
| YamlTwoReadings.BothReadingsAgree | src/domain/yaml.rs:37-61 | One pass over the events gives a tree of the document's own scalars, by position; unless an aliased key is ambiguous, both readings fail with its error, or both succeed and are its images |
| YamlTwoReadings.LeavesDiffer | src/domain/yaml.rs:41-48 | In its own place, the verbatim image has a number's or boolean's own source text and everything else as typed |
| YamlTwoReadings.AliasedKeyAgreesIff | src/domain/yaml.rs:158-169 | An alias makes the same key in both readings if and only if its anchor is no number or boolean, or that one's JSON text is its source text; else it is what the tree calls ambiguous |
| YamlTwoReadings.WithoutAliasesKeysAreSettled | src/domain/yaml.rs:158-169 | Where no alias stands for a key, no key is ambiguous |
| YamlTwoReadings.AliasedKeysMayDisagree | src/domain/yaml.rs:158-169 | A concrete document with an ambiguous key that one reading refuses and the other accepts |
| YamlScalars.IntegersReadBack | src/domain/yaml.rs:232-262 | A whole number written with any sign in base 2, 8, 10 or 16 reads back as itself if and only if it fits 64 bits, signed or unsigned |
| YamlScalars.LeadingZerosStayText | src/domain/yaml.rs:227-230 | Digits after a leading zero are text in both readings, whatever a float parser makes of them |
| YamlScalars.LeadingZeroTexts | src/domain/yaml.rs:227-230 | Those texts are exactly: an optional sign, a zero, and one or more digits |
| YamlScalars.WordsReadAs | src/domain/yaml.rs:194-225 | A plain scalar not tagged as text reads as true or false exactly if it is one of that value's three spellings, and as null exactly if it is one of null's, empty, `~` or a non-finite number |
| YamlScalars.OtherScalarsReadAs | src/domain/yaml.rs:194-279 | Any other is an integer if it reads as one, else text after a leading zero, else a finite number if it is one, else text |
| YamlScalars.QuotedIsText | src/domain/yaml.rs:194-206 | A quoted scalar, and one tagged as a string, reads as its text |
| YamlScalars.OnlyVaultsAreRefused | src/domain/yaml.rs:107-135 | A scalar is refused exactly when it is tagged as a vault outside the core tags |
| StaticInventory.Walk.Group | src/domain/static_inventory.rs:178-258 | The walk succeeds exactly on well-formed groups, and then every table grew by the declarations at and below the node, records held by groups around it aside |
| StaticInventory.Walk.Hosts | src/domain/static_inventory.rs:195-216 | The same for a group's hosts |
| StaticInventory.Walk.Children | src/domain/static_inventory.rs:217-231 | The same for a group's children, whose walk cannot touch the record held |
| StaticInventory.GrownAround | src/domain/static_inventory.rs:178-258 | Holding the record outside the table across the recursion is as good as having it inside |
| InventoryAssembly.Parse | src/domain/static_inventory.rs:49-162 | Succeeds exactly on acceptable inputs, and gives the assembled dataset and the stray variable files |
| InventoryAssembly.Collect | src/domain/static_inventory.rs:62-67 | The collected tables hold what the list of all declarations amounts to |
| InventoryAssembly.ParseFiles | src/domain/static_inventory.rs:274-294 | Each name's files merged in order, or an error if one is unreadable or no mapping |
| InventoryMeaning.ParsedSaysWhatIsDeclared | src/domain/static_inventory.rs:93-152 | For every document: a group's hosts and children are the sorted duplicate-free union over its declarations that are not nested inside a group of its own name, its variables those declared there or set by its files; the hosts are exactly those declared anywhere |
| InventoryMeaning.InputAcceptedIff | src/domain/static_inventory.rs:49-90 | An input is accepted exactly when its inventory is a mapping of groups formed at every place and every variable file is empty or a mapping |
| InventoryMeaning.AcceptedIffFormedEverywhere | src/domain/static_inventory.rs:178-258 | A document is accepted exactly when every group in it, at every place, is empty or a mapping of hosts, children and variables, with no range for a host name |
| InventoryMeaning.StraysAreDeclaredNowhere | src/domain/static_inventory.rs:82-126 | The names reported are those of files about a group other than `all`, or a host, that is declared nowhere |
| InventoryMeaning.DeclsAreSites | src/domain/static_inventory.rs:178-258 | The list of declarations holds exactly those of every group at every place in the document |
| InventoryMeaning.NoSelfNestingLosesNothing | src/domain/static_inventory.rs:178-258 | With no group nested inside itself no declared host, child or variable is lost from its group; in general none is lost if and only if nothing is declared only inside a group of the same name |
| InventoryMeaning.SelfNestingLosesAll | src/domain/static_inventory.rs:179-258 | A concrete document whose group loses a host, a child and a variable |
| InventoryMeaning.GroupFilesOverride | src/domain/static_inventory.rs:71-79 | An emitted group's variable that its files set has the value of the last file that sets it |
| InventoryMeaning.GroupDeclarationStands | src/domain/static_inventory.rs:232-239 | Any other has the value of the group's last declaration, not nested in itself, that gives it |
| InventoryMeaning.LastGroupVarsWin | src/domain/static_inventory.rs:232-239 | The same of the group's record, before files |
| InventoryMeaning.LastHostVarsWin | src/domain/static_inventory.rs:195-216 | The same for a host's variables in line |
| InventoryMeaning.HostFilesOverride | src/domain/static_inventory.rs:93-126 | A host's variable that its files set has the value of the last file that sets it |
| InventoryMeaning.HostDeclarationStands | src/domain/static_inventory.rs:93-126 | Any other has the value of the host's last declaration in line that gives it |
| InventoryMeaning.NoEmptyVars | src/domain/static_inventory.rs:128-150 | A group without variables has none rather than an empty map |
| InventorySize.EmittedAtMostDeclared | src/domain/static_inventory.rs:15-28 | The variable bindings emitted over all hosts and groups are at most those declared in line and in files |
| Views.ClaimedHosts | src/domain/view.rs:122-165 | The set form claims exactly the hosts the predicate form claims |
| Views.MemberClaimedHosts | src/application/views.rs:50-71 | The same for a member, with or without a pattern or a dataset |
| Views.WhatIsClaimed | src/domain/view.rs:122-165 | A pattern that names nothing claims every host a full sync would give its dataset, any other the hosts it names and those of the groups it names; what is not loaded is claimed by name only |
| Views.NoPatternNoClaim | src/application/views.rs:50-71 | A member without a pattern claims nothing |
| Views.WhatIsServed | src/application/views.rs:302-318 | A host is served when the first member to claim it holds it itself |
| Views.ViewSnapshot.Routing | src/application/views.rs:241-252 | The table, built once, gives for every host what the direct scan gives |
| Views.ViewSnapshot.OwnerIndex | src/application/views.rs:280-288 | The owner is the first declared member that claims the host, whether or not the table was built |
| Views.ViewSnapshot.Hosts | src/application/views.rs:302-318 | The served hosts, sorted, each once |
| Text.BeforeMeans | src/application/views.rs:315-318 | The order of names: one that begins the other comes first, else the one with the smaller character where they first differ |
| Views.ViewSnapshot.Route | src/application/views.rs:378-402 | The request apart by owner in declared order, or exactly the names nobody claims |
| Views.RoutingIsAPartition | src/application/views.rs:378-402 | Each requested host is in its owner's list as often as in the request and in no other |
| Views.RoutingKeepsOrder | src/application/views.rs:378-402 | Each owner's share keeps the request's order |
| Views.UnclaimedAreReported | src/application/views.rs:378-402 | The names reported are exactly the requested hosts without an owner |
| Output.ApplyLimit | src/application/output.rs:35-77 | Every dataset with its hosts and group members restricted to the limiting source's hosts; none if that source is missing |
| Output.MergeAll | src/application/output.rs:176-213 | Sources merged in the order of their ids, host by host and group by group |
| Output.MergeAndFilter | src/application/output.rs:159-283 | The hosts that pass all filters, each shaped, and the groups that stay, each trimmed to the survivors |
| OutputLimit.WhoIsAnswered | src/application/output.rs:176-225 | A host is in the answer exactly when it is merged, in one of the groups asked for, and passes the filter |
| OutputLimit.PlainFieldAnswered | src/application/output.rs:227-254 | Where no name or path has a dot, a field is in a host's answer exactly when the host has it, it is asked for or nothing is, and it is not excluded |
| OutputLimit.WhatAGroupAnswers | src/application/output.rs:244-283 | A group in the answer lists its merged hosts that survive, in order, all its merged children, and its variables without the excluded ones |
| OutputLimit.EndpointLimitRestrictsHosts | src/application/output.rs:35-77 | With a limit, a host is answered exactly when it is without it and the limiting source is there and has it; and then the same |
| OutputLimit.LimitCommutesOnHosts | src/application/output.rs:35-77 | Limiting first gives the same host variables as restricting the answer, for every group filter, host filter, field list and set of sources |
| OutputLimit.LimitTrimsGroups | src/application/output.rs:35-77 | A group in both answers lists with the limit its allowed hosts, and is otherwise the same |
| OutputLimit.LimitKeepsGroupIff | src/application/output.rs:270-281 | Exactly when a merged group is in the answer, without the limit and with it: it has children, or hosts that survive, or (if it lists none, after the limit) variables left |
| OutputLimit.MergedGroupIsUnion | src/application/output.rs:193-212 | A merged group lists every host and child that some source's group of that name does, each once |
| OutputLimit.LaterSourcesWin | src/application/output.rs:176-191 | A merged variable has the value of the last source, by id, that gives it |
| OutputLimit.MergedHostComesFromSources | src/application/output.rs:176-191 | A merged host and each of its variables come from some source, and all of them do |
| OutputLimit.MergedGroupVars | src/application/output.rs:193-212 | A merged group has variables exactly when some source gives it any, and a variable exactly when some source gives it that one |
| OutputLimit.LaterSourcesWinOnGroups | src/application/output.rs:193-212 | It has the value of the last source, by id, that gives it |
| Inventory.Render | src/application/output.rs:311-352 | The printed inventory has an entry for host variables and one per group, lists sorted and what is empty left out |
| Inventory.PrintedKeys | src/application/output.rs:311-352 | A group is printed with its hosts, children and variables, each only if there are any, and with nothing else |
| Inventory.Parse | src/domain/dataset.rs:79-160 | Succeeds exactly on readable inventories, and gives hosts, groups and warnings; hosts of implicit groups are kept bare |
| Inventory.GroupReadsIff | src/domain/dataset.rs:182-242 | A group reads exactly when it is a list of names, or an object that is empty or has a known key, whose lists list names and whose variables are an object or null |
| Inventory.ShortFormReads | src/domain/dataset.rs:182-242 | A list of names reads as a group of those hosts |
| Inventory.ObjectFormReads | src/domain/dataset.rs:182-242 | An object reads as a group of the hosts, children and variables in it |
| Inventory.HostVarsReadIff | src/domain/dataset.rs:105-121 | Host variables read exactly when they are printed from some, and then as those; with none there no host has any |
| Inventory.OwnShapeIsRefused | src/domain/dataset.rs:84-103 | Without `_meta` the program's own dataset shape is refused, and a group of that name still reads |
| Inventory.SilentIff | src/domain/dataset.rs:105-145 | No warning is given exactly when there is `_meta`, no group has an unknown key, and no implicit group has variables |
| Inventory.PrintThenRead | src/application/output.rs:311-352 | Printing and reading gives the same hosts and the groups in normal form without warnings if and only if no group is called `_meta`, `all` or `ungrouped` |
| Inventory.PrintReadPrint | src/domain/dataset.rs:182-242 | Printing what was read gives the same inventory again |
| Csv.RenderCsv | src/application/output.rs:404-446 | The text written for the table of the surviving hosts, sorted by name |
| Csv.TableReadsBack | src/application/output.rs:378-384 | Any table of strings with a cell in every row reads back as it was |
| Csv.CsvReadsBack | src/application/output.rs:404-446 | The output of any hosts reads back as the header and the rows, each with one more cell than there are columns |
| Csv.TableShows | src/application/output.rs:404-446 | The table has a header and a row for each host, in order of their names |
| Csv.CellShows | src/application/output.rs:389-402 | A cell shows a text as it is, nothing for null or what is not there, and JSON text for anything else |
| Csv.WhichColumns | src/application/output.rs:404-446 | The columns are the fields asked for, or every variable of any host, sorted |
| Csv.QuotedOnlyIfNeeded | src/application/output.rs:378-384 | A cell is quoted exactly when it holds a comma, a quote or a line break |

## Left out

- Connectors, processes, the scheduler, HTTP routes, sessions, metrics, run history and enricher scripts: a gather's answer is whatever the step's label says.
- SyncWrite.ApplyToCache: the source's TTL is set after the write, as src/ports/cache.rs:61-64 promises ("either way the entry ends up with it"); src/adapters/out/cache/memory.rs:114-115 sets it before, so a restored entry's TTL of zero survives there.
- Protocol: a host-scoped write to an empty cache is two cache operations (src/application/sync.rs:640-861), modelled as one step of a run.
- The memory cache and its snapshot file are not part of this model: `update` and `merge_or_insert` are atomic steps, as src/ports/cache.rs:37-74 promises.
- The runtime's fairness: a free lock or permit goes to the waiter with the smallest ticket, as a separate step from the release, and no waiter is overtaken.
- Time budgets: a timeout may strike a refresh inside its sync at any step; how long it waited is not counted.
- Clock readings inside one cache write are one value, except that the time a host is captured and the time it is put back are two.
- Machine integers of counters, permits and sizes are unbounded; 64-bit ranges are explicit where the YAML reader depends on them.
- ProtocolLoad.RefreshLoadIsBoundedByTtl: assumes sources that report no ages and other writers that do not turn a host's gathering time back.
- ProtocolOrder.SyncsOfASourceNeverOverlap: speaks of syncs; host edits and periodic enrichers write without the source lock and are the label `Write`.
- ProtocolCoalescing.CoalescedIsFreshIffNothingLanded: re-applied enrichment between a sync's cache write and its counting is the gap between two steps.
- Convergence of the permit pool while waiters are queued is not claimed: the code does not promise it.
- VarPath.InsertPath: the cursor is a path of objects passed, put back around it; aliasing of a borrowed tree is not modelled. Removal below a key recurses on values, as the source recurses on references.
- Yaml.Reader.Node: starts from a parser's events; reading the digits of a float and the JSON text of an aliased key are parameters.
- StaticInventory.Walk.Group: which of several faults in one document is reported is not stated, only that there is one.
- InventoryAssembly.Parse: encrypted, malformed and readable texts are given as such.
- HostFilter: parsing of conditions and their comparison (floating point, lower-casing) are left out; in `Output` the host filter is any predicate on a host's name and merged variables.
- Serialisation is an injective function of the dataset; JSON text, escaping and entity tags are not modelled.
- The selection by query string in views, TTL views, credentials, topology, configuration and connector validation: each rule is one branch.
