# Nespa, modelled and proved in Dafny

Nespa is a sharded cache with a replicated control plane. This project models its hardest logic
and proves properties of it that hold for every input, every run or every reachable state.
`dafny verify dfyconfig.toml` checks all of it.

What the parts prove, by file:

- **Routing** (`Slots`, `Routing`, `RoutingLaws`, `Rebalance`, `ControlRouting`, `ControlTraffic`). The 65536
  slots are split into an exact, balanced partition; in every reachable state with 1 to 32768 healthy
  nodes each slot of each registered space has exactly one effective owner, and selecting a route
  returns it. Both limits, 65536 and 32768, are shown to be exact. A membership command moves traffic
  exactly for the slots whose base owner changes while an outstanding task sends them elsewhere, so
  for none when nothing is outstanding.
- **Control state** (`MigrationTasks`, `ControlModel`, `ControlPlane`, `ControlLaws`). The replicated commands as an object
  and as a step function; the revision names the published content, and an exported state restores
  to one that answers every later command sequence identically.
- **Migration** (`Migration`, `MigrationExactness`, `Fences`, `Waves`). Fence, export, import, cutover, delete
  and unfence with arbitrary failures, retries and re-claims lose nothing, and a bitmap write that
  slips past the fence is safe exactly when it is harmless; claimed tasks run in conflict-free
  waves.
- **Engine** (`Entries`, `EntryLaws`, `Accounting`, `Removal`, `Shard`, `FlatMap`,
  `SpaceStatistics`, `MemoryEngine`). Every shard command
  keeps the counters exact; the sharded engine refines a flat map; eviction and range moves meet
  their contracts; estimates measure growth; at most one conditional write wins per version.
- **Quota** (`Quota`). Admission is sound and complete for Set and never pushes a space over its
  limit; the estimated writes push one over exactly when an expired counter is adjusted to one that
  does not fit in its place.
- **Replication** (`Replication`, `ReplicationDispatch`). Per-target order, and acknowledgements that mean delivery, with
  the exact step that breaks this.
- **Wire format** (`Varint`, `WireFormat`, `WirePayload`, `WireMessages`, `WireCursor`, `Frames`) and **routed batches** (`RoutedBatch`).
  Round trips, and answers that come back in request order, each exactly once.

Conventions. Objects the source updates in place are classes whose methods are proved against
functions on values (`Model()`, `Stored()`, `EntryMaps()`); the laws are lemmas about those
functions. Go strings and byte slices are sequences of bytes. Counters, versions and revisions are
unbounded naturals, except where a width matters: the uint64 slot arithmetic, 64-bit counters and
varints, and 32-bit payload offsets. Clocks, the order in which a Go map is visited, and the
outcome of network and disk operations are parameters. FNV hashing, the collection serializers,
decimal text, `strings.TrimSpace` and the host:port grammar are function parameters with the laws
stated where they are used (`LawfulCodec`, `ReadsBackBitmaps`, `Lawful`).

Seven properties one would expect turn out not to hold of the code as it stands. Each has a lemma or
a contract that shows it and says exactly when the code is right:

- A bitmap write passes the fence of a moving range, because `SetBit` is missing from the kinds the
  fence checks, and can be lost. In every reachable state with the range fenced and still routed to
  its source the write is safe, whatever happens next, if and only if it changes nothing readable or
  comes before the export and renews the copy an earlier attempt may have left on the target
  (`MigrationExactness.BitmapWriteIsSafeIff`). All other bitmap writes, before the fence, after the
  cutover or outside the range, are part of the runs that lose nothing.
- A cutover recorded at Unix time zero reads as not cut over, and the delete that follows empties
  the node that still serves the range; nothing is lost if and only if nothing in the range was
  readable (`MigrationExactness.ZeroClockLosesTheRange`).
- An acknowledgement can cover a command that was dropped and never delivered. From every honest
  state and at every queue capacity, acknowledgements keep meaning delivery while the waiting jobs
  are sent if and only if the step taken did not queue a command while an earlier one for the same
  target was neither delivered nor queued (`Replication.AcksStayTrueIff`, `Replication.FirstOvertaking`).
- A batch whose first snapshot cannot be read, or does not route every request, reports success with
  blank results and sends nothing, when the refresh succeeds (`RoutedBatch.Run`); it is right exactly
  when every request has a route in the first snapshot.
- Adjusting an expired counter under quota creates it without admission, because the estimate drops
  the entry and reports nothing to admit. The space stays within its limit if and only if it has
  none, the new counter is no larger than the old one, or the space without the old one has room for
  it (`Quotas.LapsedCounterExact`, `Quotas.EngineService.Write`).
- The estimate of a bitmap write equals its growth unless the bit already has its value and the
  bitmap is missing or stored as a text of another length than it is written with
  (`EntryLaws.EstimateMeasuresGrowth`); it is never too small for a write that grows.
- A membership change can move a slot to a node that has not imported it: a second join while the
  first one's tasks are outstanding hands the last slot to the first joiner
  (`ControlTraffic.SecondJoinMovesTraffic`). A slot keeps its node if and only if its base owner stays
  on the same node or is the node serving it (`ControlTraffic.MembershipMovesTraffic`).

Where code and documentation disagree the model follows the code: the repository's README describes
the migration executor as export, import and delete and replay of the outbox as a later stage, while
the code fences the range, cuts over before deleting, and replays on opening and on a timer.

## Model

| member | source | states |
|---|---|---|
| Slots.RangesAreBalanced | control/routing.go:91-109 | For 1 to 65536 nodes the slot ranges are contiguous, start at 0, end at 65535 and differ in size by at most one, with the uint64 wrap-around and the clamp of the code. |
| Slots.SlotPartition | control/routing.go:91-109 | Every slot lies in exactly one range if and only if there are at most 65536 nodes. |
| Slots.OverfullSplit | control/routing.go:91-109 | Beyond 65536 nodes the first range wraps below zero and overlaps the last. |
| Slots.FirstRangeIsSingleton | control/routing.go:91-109 | The first range is [0, 0], which matching reads as all slots, exactly when there are more than 32768 nodes. |
| Routing.BuildHealthyNodes | control/routing.go:81-89 | The filter loop keeps the healthy nodes in order. |
| Routing.BuildRoutesForSpace | control/routing.go:35-51 | The loop gives every healthy node its slot range and replicas. |
| Routing.BuildRoutesForNodes | control/routing.go:19-33 | The base table: empty without healthy nodes, one wildcard table without spaces, else one table per space. |
| Routing.RouteReplicaLimit | control/routing.go:71-79 | A route never has as many replicas as there are nodes. |
| Routing.OverrideRouteRange | control/migration_routes.go:35-56 | The loop overlays one task on the whole table. |
| Routing.ApplyMigrationRouteOverrides | control/migration_routes.go:14-29 | Overlays every task that still routes to its source, in plan order, and sorts. |
| Routing.Select | routing/routing.go:19-34 | The scan returns the first exact match, else the first namespace match, else the first wildcard match. |
| RoutingLaws.BaseOwner | control/routing.go:19-51 | With at least one healthy node every slot of every registered space has one base owner. |
| RoutingLaws.OverrideOwners | control/migration_routes.go:35-88 | Overlaying a task changes the owners of exactly the slots the task covers, to its source. |
| RoutingLaws.ApplyTasksOwner | control/migration_routes.go:14-29 | A slot with one owner keeps exactly one owner through any list of tasks. |
| RoutingLaws.OverlayOwnerIsLast | control/migration_routes.go:14-33 | The owner after the overlay is the source of the last covering task that is neither cut over nor done, else the base owner. |
| RoutingLaws.EffectiveOwner | control/migration_routes.go:9-33 | The sorted effective table has exactly that one owner for every slot of every registered space. |
| RoutingLaws.SelectReturnsOwner | routing/routing.go:19-34 | With at most 32768 healthy nodes, selecting a route for a key returns that owner. |
| RoutingLaws.SelectLimitIsExact | routing/routing.go:119-124 | Above 32768 nodes the first range is read as the full range, and selection names the first node for slots it does not own. |
| Rebalance.MigrationTasksForRoute | control/rebalance.go:115-134 | The loop builds one task per previous route of another node that overlaps the new route. |
| Rebalance.BuildMigrationTasks | control/rebalance.go:103-113 | All tasks of a table change. |
| Rebalance.TableMoves | control/rebalance.go:103-161 | Slot by slot, the tasks prescribe exactly the moves between the two owners of the slot. |
| Rebalance.PlanMovesNoTraffic | control/rebalance.go:75-141 | Overlaying the tasks built from two tables on the new one gives back the old owner; tasks are disjoint and cover exactly the slots whose owner changed. |
| Rebalance.BuiltTasksSafe | control/rebalance.go:103-161 | Tasks between tables of at most 32768 nodes never create a route spelled [0, 0]. |
| MigrationTasks.DeriveMigrationPlanState | control/migration_state.go:186-206 | A plan is failed if some task failed, running if some task is not done, else done. |
| MigrationTasks.RetryDelay | control/migration_executor.go:264-273 | The backoff doubled per attempt, capped at the task timeout after the first attempt. |
| ControlModel.FirstClaimableInRange | control/migration_state.go:155-174 | The task claimed first is claimable and no earlier one is. |
| ControlPlane.DropOldest | control/rebalance.go:63-65 | The trimming loops keep the newest events and plans. |
| ControlModel.KeepLastIs | control/rebalance.go:97-100 | Dropping the oldest one by one leaves exactly the last ones. |
| ControlPlane.NumberTasks | control/rebalance.go:84-88 | Tasks are numbered from one under their plan. |
| ControlPlane.FindClaimable | control/migration_state.go:155-162 | The index of the first claimable task. |
| ControlPlane.ClaimFirst | control/migration_state.go:29-47 | The plan list after claiming the first claimable task of the first plan that has one. |
| ControlPlane.UpdateFirst | control/migration_state.go:124-149 | The plan list after changing the task with the given identifiers. |
| ControlPlane.CollectItems | control/snapshot.go:162-199 | Restored items are filed under their normalised identity; an invalid one rejects the snapshot. |
| ControlPlane.LargestEventId | control/snapshot.go:201-208 | The largest of the stored counter and the event ids. |
| ControlPlane.LargestPlanId | control/snapshot.go:210-217 | The largest of the stored counter and the plan ids. |
| ControlPlane.ControlState.constructor | control/state.go:76-91 | A new state is empty at revision zero. |
| ControlPlane.ControlState.RecordMigrationPlan | control/rebalance.go:75-101 | Appends a numbered plan when the table change has tasks. |
| ControlPlane.ControlState.RecordRebalanceEvent | control/rebalance.go:42-73 | Logs the event, records the plan and remembers the current table. |
| ControlPlane.ControlState.CreateNamespace | control/catalog.go:21-45 | Creates once, at version 1, with one revision. |
| ControlPlane.ControlState.CreateSpace | control/catalog.go:47-82 | Needs its namespace, creates once, records the table change. |
| ControlPlane.ControlState.CreateEntity | control/catalog.go:84-117 | Needs namespace and space, creates once. |
| ControlPlane.ControlState.BumpNamespaceVersion | control/catalog.go:119-140 | One version and one revision up, or not found. |
| ControlPlane.ControlState.BumpSpaceVersion | control/catalog.go:142-167 | One version and one revision up, or not found. |
| ControlPlane.ControlState.RegisterNodeAt | control/node_state.go:14-47 | Stores the node as healthy; a new, moved or recovered node costs one revision and an event. |
| ControlPlane.ControlState.HeartbeatAt | control/node_state.go:57-104 | As registration, but a node that moved and recovered costs two revisions and one event. |
| ControlPlane.ControlState.RemoveNode | control/node_state.go:106-131 | Removes a known node with one revision and an event. |
| ControlPlane.ControlState.AdvanceLiveness | control/node_state.go:133-171 | Visits every node exactly once, in some order, and ages it to suspect or dead. |
| ControlPlane.ControlState.ClaimMigrationTask | control/migration_state.go:29-47 | Marks the first claimable task running, or changes nothing. |
| ControlPlane.ControlState.UpdateMigrationTask | control/migration_state.go:70-149 | Cutover, completion and failure of one task, or not found. |
| ControlPlane.ControlState.TimedOutMigrationTasks | control/migration_state.go:49-68 | Exactly the running or cleaning-up tasks past the timeout, in plan order. |
| ControlPlane.ControlState.Apply | control/fsm.go:86-238 | Every replicated command changes the state and answers, item included, as the model step does; a sweep visits every node once; the filing, the counters and the remembered table stay right. |
| ControlPlane.ControlState.Snapshot | control/state.go:148-166 | Publishes cluster, revision, sorted nodes and catalog and the effective routes; what equal revisions have in common is ControlLaws.EqualRevisionsPublishTheSame. |
| ControlPlane.ControlState.ExportSnapshot | control/snapshot.go:30-47 | The export of a valid state restores to exactly that state. |
| ControlPlane.ControlState.RestoreSnapshot | control/snapshot.go:49-88 | Replaces the whole state and rebuilds the remembered table, or changes nothing. |
| ControlLaws.BaseRoutesSame | control/routing.go:19-69 | The base table depends only on node identities, addresses and states and on which spaces exist. |
| ControlLaws.StepKeepsInv | control/fsm.go:86-238 | Every command keeps items filed under their identity, counters above all ids and the remembered table equal to the current one. |
| ControlLaws.RunKeepsInv | control/rebalance.go:42-73 | So the remembered table is the table of the current nodes and spaces in every reachable state. |
| ControlLaws.RevisionNamesContent | control/state.go:148-166 | Along a run the revision never decreases, and while it stays the same so does everything published but the times nodes were last seen. |
| ControlLaws.EqualRevisionsPublishTheSame | control/state.go:148-166 | Any two snapshots of a run with equal revision hold identical routes, namespaces, spaces and entities, and the same nodes but for when they were seen. |
| ControlLaws.RestoreOfExport | control/snapshot.go:30-88 | Restoring an exported reachable state gives back that state. |
| ControlLaws.RestoredReplicaAgrees | control/snapshot.go:30-88 | A restored replica answers every later command sequence identically under the same clock. |
| ControlRouting.HealthyCount | control/routing.go:11-17 | The sorted healthy list has as many nodes as there are healthy ids. |
| ControlRouting.StepKeepsSafe | control/migration_routes.go:14-29 | Every command keeps all recorded tasks safe to overlay while at most 32768 nodes are healthy. |
| ControlRouting.PublishedRoutingIsTotal | control/migration_routes.go:9-88 | In every state of a run with 1 to 32768 healthy nodes, every slot of every registered space has exactly one published owner and selection returns it. |
| ControlTraffic.RecordedTasks | control/rebalance.go:75-101 | After recording, the tasks are those of the surviving plans followed by the new ones. |
| ControlTraffic.RecordedOwner | control/rebalance.go:42-101 | A slot whose base owner changes is then served by its old base owner, every other slot by the node the plans left give it. |
| ControlTraffic.MembershipMovesTraffic | control/fsm.go:86-98 | In every reachable state a register, heartbeat, removal or space creation leaves a slot with its node if and only if its base owner stays on the same node or is the node serving it; where a full plan list drops a plan with outstanding tasks, the owner is the one the plans left give. |
| ControlTraffic.VisitMovesTraffic | control/node_state.go:133-171 | The same for every visit of a liveness sweep. |
| ControlTraffic.MembershipMovesNoTraffic | control/rebalance.go:42-101 | With nothing outstanding, a membership command leaves every slot of every registered space with the node that served it. |
| ControlTraffic.SecondJoinMovesTraffic | control/rebalance.go:75-141 | Two joins of the largest identities: the first keeps the last slot where its entries are, the second hands it to the first joiner before any import. |
| MigrationProtocol.ItemTracks | cache/engine/worker.go:102-227 | What any client command, bitmap writes included, answers is what it leaves readable under its key. |
| MigrationProtocol.FenceBlocks | transport/tcp/server_fence.go:10-19 | Behind a fence only reads and bitmap writes of the range get through. |
| MigrationProtocol.ImportCopies | cache/engine/migration.go:115-145 | Importing part of an export over older or equal copies leaves copies a retry can bring up to date; importing all of it brings the target up to date. |
| MigrationProtocol.CutoverKeeps | control/migration_executor.go:176-207 | Handing the range over to a full copy loses nothing. |
| MigrationProtocol.StepKeepsInv | control/migration_executor.go:159-218 | Every step of executor, clients (bitmap writes included unless harmful), sweeps and other fences, with calls that fail before, after or partway, keeps the protocol invariant. |
| MigrationProtocol.MigrationLosesNothing | control/migration_executor.go:159-218 | Along every run, with failures, retries and re-claims, the routed node holds exactly the last accepted content of each unexpired key of the range. |
| MigrationProtocol.ReadsSeeLastAccepted | cache/engine/worker.go:157-178 | A read at the routed node hits exactly when an unexpired accepted content exists, and returns its value, version and expiry. |
| MigrationExactness.BitmapWriteIsSafeIff | transport/tcp/server_fence_batch.go:77-89 | From every state a run reaches with the range fenced and routed to its source, a bitmap write is safe in all futures if and only if it changes nothing readable or comes before the export and renews any copy on the target. |
| MigrationExactness.HarmBeforeExport | cache/engine/migration.go:115-145 | A harmful bitmap write before the export has a continuation that loses it or brings back what it replaced. |
| MigrationExactness.HarmAfterExport | control/migration_executor.go:176-207 | A bitmap write between export and cutover that changes anything readable has a continuation that loses it. |
| MigrationExactness.ZeroClockLosesTheRange | control/migration_routes.go:31-33 | A cutover at Unix time zero followed by the delete loses nothing if and only if nothing in the range was readable. |
| Fences.RangeFenceSet.Add | transport/tcp/range_fence.go:35-45 | Adds a fence once. |
| Fences.RangeFenceSet.Remove | transport/tcp/range_fence.go:47-58 | Removes every copy of a fence and keeps the order of the others. |
| Fences.RangeFenceSet.Contains | transport/tcp/range_fence.go:60-70 | Tells whether some fence holds the key. |
| Fences.RangeFenceSet.FencedMutation | transport/tcp/server_fence.go:10-19 | A frame is refused exactly when a fence holds a key it writes with a checked kind. |
| Fences.MutationKeys | transport/tcp/server_fence_batch.go:22-71 | The keys of a frame that are checked. |
| Fences.FencedKeys | transport/tcp/range_fence.go:35-84 | Adding fences exactly the keys of the range; removing frees exactly those no other fence holds. |
| MigrationWaves.WaveIndex | control/migration_executor_batch.go:82-98 | The first wave that shares no node with the task. |
| MigrationWaves.MigrationTaskWaves | control/migration_executor_batch.go:67-122 | Waves hold the tasks in input order, no two tasks of a wave share a node, and each task conflicts with an earlier task in every wave before its own. |
| MigrationWaves.WavesPartition | control/migration_executor_batch.go:67-80 | Together the waves hold the input task for task. |
| MigrationWaves.WaveBound | control/migration_executor_batch.go:82-89 | A task has as many distinct earlier conflicting tasks as there are waves before its own. |
| MigrationWaves.WaveCountBound | control/migration_executor_batch.go:67-80 | The wave count is at most one plus the largest number of earlier conflicts. |
| Entries.PhysicalKeyInjective | cache/engine/entry.go:61-73 | Different keys never share a physical key. |
| Entries.SafeAddIsExact | cache/engine/adjust.go:127-135 | Counter addition fails exactly when the sum leaves 64 bits. |
| Entries.ApplyKeepsFiling | cache/engine/worker.go:102-227 | Every command leaves an entry of its own key, with its own cost and a version. |
| Entries.SnapRoundTrip | cache/engine/snapshot_entry.go:3-24 | An entry survives a snapshot exactly when its cost is its own and it has a version. |
| EntryLaws.BackAgrees | cache/engine/primitive.go:88-132 | Measuring and writing back a collection agree on the bytes, whatever order it is serialized in. |
| EntryLaws.EstimateMeasuresGrowth | cache/engine/primitive_estimate.go:61-90 | Counter, map, list and bitmap estimates bound the growth of the write and equal it unless a bit keeps its value in a missing bitmap or in a text of another length; not applied means no change. |
| EntryLaws.WrittenBitmapKeepsSize | cache/engine/primitive_bitmap_estimate.go:3-20 | A bitmap stored by a bitmap write is never of another length. |
| EntryLaws.StepKeepsVersion | cache/engine/migration.go:115-145 | A step that keeps the entry never lowers its version; an applied Set or Adjust raises it by one. |
| EntryLaws.ExpiredMutationRestarts | cache/engine/primitive.go:134-144 | A collection write on an expired entry starts again at version 1. |
| EntryLaws.VersionNeverDecreases | cache/engine/worker.go:102-143 | Over a run that never removes the key its version never decreases. |
| EntryLaws.OneWinnerPerVersion | cache/engine/adjust.go:33-90 | At most one Set or Adjust naming a given version is applied while the key stays. |
| Accounting.AccountInsert | cache/engine/worker.go:124-129 | Adding usage for a new entry keeps every total exact. |
| Accounting.AccountRemove | cache/engine/worker.go:229-252 | Subtracting a stored entry never underflows, keeps every total exact and keeps no empty space. |
| Accounting.AccountReplace | cache/engine/worker.go:145-155 | Adjusting the cost of a replaced entry, up or down, keeps every total exact. |
| Shards.Shard.constructor | cache/engine/memory.go:31-37 | An empty shard is accounted. |
| Shards.Shard.SubtractSpaceUsage | cache/engine/worker.go:243-252 | Subtracts from one space and drops it when empty. |
| Shards.Shard.ReplaceEntryCost | cache/engine/worker.go:145-155 | Moves the totals by the cost difference. |
| Shards.Shard.DeleteEntry | cache/engine/worker.go:229-234 | Removes the entry and its bytes. |
| Shards.Shard.ApplySet | cache/engine/worker.go:102-143 | Conditional set, replace or insert, keeping the accounting invariant. |
| Shards.Shard.ApplyGet | cache/engine/worker.go:157-178 | Expired entries are dropped, invisible ones missed, hits recorded. |
| Shards.Shard.ApplyDelete | cache/engine/worker.go:180-190 | Conditional delete. |
| Shards.Shard.ApplyTouch | cache/engine/worker.go:192-227 | New expiry for a live, visible entry of the expected version. |
| Shards.Shard.ApplyAdjust | cache/engine/adjust.go:19-113 | Counter creation and update; an expired counter is dropped and not applied. |
| Shards.Shard.ApplyAdjustEstimate | cache/engine/adjust_estimate.go:31-38 | The estimate, which drops an expired counter. |
| Shards.Shard.WriteCollection | cache/engine/primitive.go:88-132 | Creates or overwrites the serialized collection; equal bytes change nothing. |
| Shards.Shard.ApplyMutate | cache/engine/primitive.go:134-151 | An expired entry counts as absent, otherwise the expected version must match. |
| Shards.Shard.ApplyMutateLive | cache/engine/primitive_map.go:10-52 | Map set and delete, list push and pop, and setting a bit, on the live entry. |
| Shards.Shard.ApplyMutateEstimate | cache/engine/primitive_map_estimate.go:3-51 | The matching estimates. |
| Shards.Shard.Execute | cache/engine/worker.go:41-50 | The dispatch of one key command. |
| Shards.Shard.SweepExpired | cache/engine/eviction.go:80-102 | Removes exactly the expired entries and counts them. |
| Shards.Shard.DeleteRange | cache/engine/migration.go:147-169 | Removes exactly the entries of the range and counts them. |
| Shards.Shard.ExportEntries | cache/engine/migration.go:91-101 | Each unexpired entry of the range once. |
| Shards.Shard.ImportEntry | cache/engine/migration.go:115-138 | Imports unless the existing entry is newer or as new. |
| Shards.Shard.ImportEntries | cache/engine/migration.go:103-113 | Imports in order up to the first invalid key and counts what was taken over. |
| Shards.Shard.RestoreEntries | cache/engine/snapshot.go:143-169 | Keeps the last snapshot per key; the counters are exact if and only if no key repeats. |
| Shards.Shard.CollectEvictionCandidates | cache/engine/eviction.go:22-45 | Drops expired candidates and sorts the live ones by last access, then age. |
| Shards.Shard.Evict | cache/engine/eviction.go:9-78 | The eviction contract of one shard: freed is the real drop, target met or nothing left, others untouched, least recently used first, last one needed. |
| Removal.CutIsEviction | cache/engine/eviction.go:58-78 | Deleting a prefix of the sorted candidates meets that contract. |
| Removal.RestoreCount | cache/engine/snapshot.go:157-166 | A restored map has as many entries as snapshots exactly when no key repeats. |
| FlatMap.ContentPut | cache/engine/memory.go:246-295 | Storing in the home shard is storing under the key in the flat map. |
| FlatMap.ContentRejected | cache/engine/migration.go:56-76 | Removing by a test in every shard removes by that test in the flat map. |
| FlatMap.ContentTotal | cache/engine/stats.go:9-30 | Totals over shards are totals over the flat map. |
| FlatMap.GroupKeepsKey | cache/engine/snapshot.go:124-132 | Grouping snapshots by shard keeps every key its snapshots in order. |
| FlatMap.EvictedSpaces | cache/engine/memory.go:212-236 | The evicted space loses exactly the freed bytes and no other space loses any. |
| Engines.MemoryEngine.constructor | cache/engine/memory.go:12-46 | A new engine is empty, with 16 shards by default. |
| Engines.MemoryEngine.ShardFor | cache/engine/memory.go:283-295 | Finds the home shard. |
| Engines.MemoryEngine.Execute | cache/engine/memory.go:48-163 | A key command on the sharded engine is that command on the flat map; invalid keys change nothing. |
| Engines.MemoryEngine.SweepExpired | cache/engine/memory.go:184-197 | Removes exactly the expired entries of all shards and counts them. |
| Engines.MemoryEngine.DeleteRange | cache/engine/migration.go:56-76 | Removes exactly the range from all shards and counts it; an invalid range changes nothing. |
| Engines.MemoryEngine.Export | cache/engine/migration.go:10-34 | Exactly the unexpired entries of the range, once each, in physical key order. |
| Engines.MemoryEngine.GroupByShard | cache/engine/snapshot.go:124-132 | Splits snapshots by home shard. |
| Engines.MemoryEngine.Import | cache/engine/migration.go:36-54 | Succeeds exactly when all keys are valid; every key ends with the outcome of its own snapshots and the count is how many were taken over; on failure each key has a first part of them. |
| Engines.MemoryEngine.Evict | cache/engine/memory.go:199-236 | Over all shards: freed bytes reach the target or no candidate is left, freed is the real drop, others untouched, and each visited shard met its own contract for what was still missing. |
| Engines.MemoryEngine.Stats | cache/engine/memory.go:165-182 | Objects, bytes and per-space usage of the flat map. |
| Engines.MemoryEngine.Snapshot | cache/engine/snapshot.go:15-32 | Every entry once, in physical key order. |
| Engines.MemoryEngine.Restore | cache/engine/snapshot.go:34-50 | Succeeds exactly when all keys are valid; every key then ends with its last snapshot and the accounting is exact if and only if no key repeats; on failure each key is as before or has the last of a first part of them. |
| Engines.CopyEngine | cache/engine/snapshot.go:15-50 | A snapshot restored into an engine of any shard count gives the same content. |
| Engines.ImportOfExport | cache/engine/migration.go:91-145 | Importing an export gives each exported key its entry by the import rule and changes no other key. |
| Engines.MoveRange | cache/engine/migration.go:10-177 | Export, import into an engine of any shard count that is empty on the range, and delete move exactly the unexpired entries of the range and change nothing outside it. |
| SpaceStatistics.AddSpaceStats | cache/engine/stats.go:22-30 | Adds one shard usage map to the total. |
| SpaceStatistics.BuildSpaceStats | cache/engine/stats.go:32-50 | Lists each space with entries once, with exact usage. |
| SpaceStatistics.UsageFor | cache/quota.go:140-151 | The exact bytes of a namespace and of one space. |
| Quotas.EngineService.EnsureSpaceQuota | cache/quota.go:95-117 | Passes exactly when the record alone fits the space limit, evicting only from its space, and then there is room. |
| Quotas.EngineService.AdmitCostGrowth | cache/quota.go:76-124 | Rejects for the space exactly when the record alone is too big; what it admits fits space and namespace. |
| Quotas.EngineService.Set | cache/service.go:179-194 | A growing Set is rejected by the space check exactly when its own cost exceeds the limit; an applied one leaves space and namespace within their limits; no space is pushed over; read, eviction and write may each see another time. |
| Quotas.EngineService.Write | cache/service.go:276-293 | An adjust or collection write is rejected by the space check exactly when its estimated cost exceeds the limit; one that grows leaves space and namespace within their limits; no space is pushed over if and only if it adjusts no expired counter or the new counter fits in its place. |
| Quotas.EngineService.Pass | cache/service.go:196-267 | Get, touch and delete act on the flat map and push no space over its limit. |
| Quotas.EngineService.Sweep | cache/engine/memory.go:184-197 | Removes exactly the expired entries, counts them, and pushes no space over its limit. |
| Quotas.EngineService.Evict | cache/ops.go:32-44 | Meets the eviction contract for the request, freed bytes and count included, and pushes no space over its limit. |
| Quotas.EngineService.Serve | cache/quota.go:23-37 | Any run of Set, Get, Touch, Delete, Sweep and Evict never pushes a space over its limit. |
| Quotas.WriteMeasured | cache/quota.go:39-74 | An admission estimate bounds the write that follows it, also after dropping an expired collection. |
| Quotas.LapsedCounterExact | cache/quota.go:55-57 | Adjusting an expired counter is estimated as not applied, and the write then stays within the limits if and only if the new counter fits in the place of the old one. |
| Replication.HandedInOrder | transport/tcp/server_replication_queue.go:145-180 | In every run the sequences handed to a target within one incarnation strictly increase. |
| Replication.AcksMeanDelivered | transport/tcp/server_replication_ack.go:57-74 | If no enqueue is dropped, an ack offset in memory or on disk means every outbox entry of the target up to it was delivered, across crashes. |
| Replication.HonestUnlessOvertaken | transport/tcp/server_replication_queue.go:93-105 | A step keeps acks covering only delivered commands, and no waiting job past an undelivered one, if and only if it does not queue a command past a dropped one of the same target. |
| Replication.AcksStayTrueIff | transport/tcp/server_replication_queue.go:93-105 | From every honest state, at every capacity, acks keep meaning delivery while the waiting jobs are sent if and only if the step was no such overtaking. |
| Replication.OvertakingLies | transport/tcp/server_replication_queue.go:129-163 | After an overtaking, sending what is queued acknowledges the dropped command. |
| Replication.FirstOvertaking | transport/tcp/server_replication_replay.go:43-80 | Of a run from an honest state whose steps before the last do not overtake: acks keep meaning delivery, however the waiting jobs are then sent, if and only if the last step does not either. |
| Replication.HonestRun | transport/tcp/server_replication_replay.go:43-80 | Runs that drop but never overtake keep acks honest. |
| Replication.ReplayKeepsHonest | transport/tcp/server_replication_replay.go:43-80 | A replay never skips an entry, full queue or not. |
| Replication.AcknowledgeKeepsHonest | transport/tcp/server_replication_stats.go:98-107 | The job being sent is the oldest undelivered one of its target. |
| Replication.DroppedCommandIsAcknowledged | transport/tcp/server_replication_queue.go:165-180 | A concrete run: with room for one job, a dropped command is overtaken, acknowledged and never replayed. |
| ReplicationDispatch.AckStore.Record | transport/tcp/server_replication_ack.go:57-74 | Offsets only grow; the file follows when saving succeeds. |
| ReplicationDispatch.Dispatcher.constructor | transport/tcp/server_replication_replay.go:5-29 | Opening resumes numbering, loads saved acks and replays. |
| ReplicationDispatch.Dispatcher.RestoreOutboxSnapshot | transport/tcp/server_replication_stats.go:88-96 | Numbering resumes after the largest logged sequence. |
| ReplicationDispatch.Dispatcher.MarkQueued | transport/tcp/server_replication_replay.go:92-102 | The mark of a target becomes the maximum of the old one and the sequence, so it never falls; other targets keep theirs. |
| ReplicationDispatch.Dispatcher.EnqueueJob | transport/tcp/server_replication_queue.go:165-180 | Queues and marks, or drops when full. |
| ReplicationDispatch.Dispatcher.Submit | transport/tcp/server_replication_queue.go:93-105 | Numbers, logs and queues a command. |
| ReplicationDispatch.Dispatcher.ReplayOutbox | transport/tcp/server_replication_replay.go:43-80 | Queues every entry neither acknowledged nor already queued. |
| ReplicationDispatch.Dispatcher.SendNext | transport/tcp/server_replication_queue.go:129-163 | Takes the oldest job and retries it until success or shutdown, then acknowledges. |
| Varint.UvarintRoundTrip | cachewire/binary_cursor.go:27-30 | Reading a 64-bit varint gives back the value and its length, whatever follows. |
| Varint.UvarintPrefixFree | cache/engine/entry.go:70-73 | No varint is a prefix of another. |
| WireFormat.BigEndianRoundTrip | cachewire/binary_cursor.go:39-45 | Fixed-width integers are read back. |
| WireFormat.Int64Law | cachewire/binary_cursor.go:47-49 | Zigzag varints are read back for all 64-bit integers. |
| WireFormat.StringLaw | cachewire/binary_cursor.go:151-165 | Length-prefixed strings are read back. |
| WireFormat.ListLaw | cachewire/binary_cursor.go:212-218 | Counted lists are read back, and the count check never refuses a list that was written. |
| WireFormat.SetLaw | cachewire/binary_batch_cursor.go:3-41 | A packed set request is read back up to value and route epoch. |
| WireFormat.RecordLaw | cachewire/binary_batch_cursor.go:113-186 | A record is read back up to its value; a miss arrives empty. |
| WireFormat.ResultLaw | cachewire/binary_primitive_result_cursor.go:3-161 | A packed primitive result with its four lists is read back. |
| WirePayload.PackLaw | cachewire/types.go:157-232 | Unpacking what was packed gives every value back, whatever is appended to the payload later. |
| WirePayload.PackExact | cachewire/types.go:250-259 | Packing fails exactly when some offset or size exceeds 32 bits. |
| WireMessages.BatchSetRoundTrip | cachewire/binary_batch.go:3-41 | A batch set request encodes exactly when its values are addressable and decodes to itself up to transport-only fields. |
| WireMessages.BatchGetRoundTrip | cachewire/binary_batch.go:92-115 | The same for batch get responses. |
| WireMessages.ResultRoundTrip | cachewire/binary_primitive.go:28-51 | The same for primitive results with nested fields, members, scored members and list values. |
| WireCursor.MetadataCursor.constructor | cachewire/binary_cursor.go:56-64 | Starts after the version byte. |
| WireCursor.MetadataCursor.ReadString | cachewire/binary_cursor.go:151-165 | Agrees with the parse and advances by it. |
| WireCursor.MetadataCursor.ReadBool | cachewire/binary_cursor.go:167-181 | Agrees with the parse; other bytes are errors. |
| WireCursor.MetadataCursor.ReadUint64 | cachewire/binary_cursor.go:183-191 | Agrees with the parse. |
| WireCursor.MetadataCursor.ReadUint32 | cachewire/binary_cursor.go:193-201 | Agrees with the parse. |
| WireCursor.MetadataCursor.ReadInt64 | cachewire/binary_cursor.go:203-210 | Agrees with the parse. |
| WireCursor.MetadataCursor.ReadCount | cachewire/binary_cursor.go:212-218 | Agrees with the parse; a count above the bytes left is an error. |
| WireCursor.MetadataCursor.EnsureEOF | cachewire/binary_cursor.go:220-225 | Nothing is left. |
| WireCursor.MetadataCursor.ReadKey | cachewire/binary_cursor.go:115-133 | Agrees with the parse. |
| WireCursor.MetadataCursor.ReadBatchSetItem | cachewire/binary_batch_cursor.go:3-41 | Agrees with the parse. |
| WireCursor.MetadataCursor.ReadBatchRecord | cachewire/binary_batch_cursor.go:113-126 | Agrees with the parse. |
| WireCursor.MetadataCursor.ReadBatchSetItems | cachewire/binary_batch.go:21-32 | The counted loop agrees with the parse. |
| WireCursor.MetadataCursor.ReadBatchRecords | cachewire/binary_batch.go:178-199 | The counted loop agrees with the parse. |
| WireCursor.MetadataCursor.ReadMapFields | cachewire/binary_primitive_result_cursor.go:107-121 | The counted loop agrees with the parse. |
| WireCursor.MetadataCursor.ReadMembers | cachewire/binary_primitive_members.go:11-25 | The counted loop agrees with the parse. |
| WireCursor.MetadataCursor.ReadScoredMembers | cachewire/binary_primitive_members.go:36-50 | The counted loop agrees with the parse. |
| WireCursor.MetadataCursor.ReadListValues | cachewire/binary_primitive_result_cursor.go:144-161 | The counted loop agrees with the parse. |
| WireCursor.MetadataCursor.ReadPrimitiveResult | cachewire/binary_primitive_result_cursor.go:17-67 | Agrees with the parse. |
| WireCursor.PackItems | cachewire/types.go:157-207 | The packing loops compute the packing, errors included. |
| WireCursor.UnpackItems | cachewire/types.go:175-223 | The unpacking loops compute the unpacking, errors included. |
| WireCursor.AppendList | cachewire/binary_batch.go:8-12 | The encoding loop writes a count and the items. |
| WireCursor.EncodeBatchSetRequest | cachewire/binary_batch.go:3-14 | Computes the encoding. |
| WireCursor.DecodeBatchSetRequest | cachewire/binary_batch.go:16-41 | Computes the decoding. |
| WireCursor.EncodeBatchGetResponse | cachewire/binary_batch.go:92-103 | Computes the encoding. |
| WireCursor.DecodeBatchGetResponse | cachewire/binary_batch.go:105-115 | Computes the decoding. |
| WireCursor.EncodePrimitiveResponse | cachewire/binary_primitive.go:28-36 | Computes the encoding. |
| WireCursor.DecodePrimitiveResponse | cachewire/binary_primitive.go:38-51 | Computes the decoding. |
| Frames.FrameRoundTrip | protocol/frame.go:123-193 | A frame is encoded exactly when it names an operation and is within the limits, and is then read back with the rest of the stream left. |
| RoutedBatch.GroupItems | client/routed_batch_more_helpers.go:18-40 | Succeeds exactly when every request has a route; groups are in address order and hold exactly the stamped items of their address, in order. |
| RoutedBatch.OrderedGroups | client/routed_batch.go:231-244 | The groups in ascending address order. |
| RoutedBatch.GroupingSeparates | client/routed_batch.go:184-244 | No position is in two groups and none is lost. |
| RoutedBatch.FlattenDistinct | client/routed_batch.go:246-253 | Flattening groups keeps positions distinct. |
| RoutedBatch.CopyBatchResults | client/routed_batch_more_helpers.go:51-58 | Scatters a response to the positions of its items. |
| RoutedBatch.RunRoutedBatch | client/routed_batch.go:157-182 | Sends all groups in order up to the first that is refused, whose refusal it reports; answered positions hold their answers and are never sent again. |
| RoutedBatch.RetryRemaining | client/routed_batch.go:127-133 | The second pass is given exactly what the first left unanswered; it reports no error exactly when the fresh snapshot routes it and no send is refused; positions answered keep their answers either way. |
| RoutedBatch.Run | client/routed_batch.go:96-155 | When the first snapshot routes all requests, no error is reported exactly when no send of the first pass, or else of the retry, is refused, and every position is then answered exactly once with its own answer; when it cannot be read or does not route them, a refresh that succeeds makes the batch report no error with nothing sent. |

## Left out

- Quotas.EngineService.Write: one clock serves the estimate, the eviction and the write, where the code reads it again for each; `Quotas.EngineService.Set` takes three.
- Replication.AcksMeanDelivered: takes appends to the outbox as successful and an enqueue or a replay as one step; in the code the append and the queue push are separate.
- MigrationProtocol.MigrationLosesNothing: one task, atomic frames, one clock for all parties, one executor at a time, and clients that follow the current routes; chained plans, plans dropped past 128, clients holding old snapshots after unfencing, restarts that lose fences, evictions during the move and replica writes to the target are not covered. A bitmap write that is not harmless ends the run; what follows it is `MigrationExactness.BitmapWriteIsSafeIff`.
- ControlPlane.ControlState.Apply: one clock reading serves a whole command.
- ControlTraffic.MembershipMovesTraffic: a liveness sweep is covered visit by visit (`ControlTraffic.VisitMovesTraffic`), not as one step.
- Engines.MemoryEngine.Import: after an invalid key the count is only bounded; it leaves out what the failing shard had taken over.
- Sorted views are sorted by map key; the code sorts by the item's own name, which is the same key in every reachable state (`ControlLaws.StepKeepsInv`).
- Entries are values replaced in a map, where the code shares pointers; aliasing of entries between a shard and its callers is not captured (the code copies values at its boundaries).
- Set, scored-set, HLL and geo primitives: adding and removing members of a string set, setting and removing the scores of members, adding the hashes of members to a set that stands for a HyperLogLog and merging two of them, and storing coordinates by member. Like the map, list and bitmap ones modelled they load a collection, change it and write it back.
- The reading primitives: fields, ranges, members by score, bit counts and distances by the haversine formula, all computed from the decoded collection.
- Shard command queues, contexts, closing and the sweeper goroutine: goroutine plumbing.
- Batch and transaction wrappers of the service, exists requests and read locks: they loop over the operations modelled under a lock.
- The wire codecs of migration snapshots, single requests and primitive requests: the same pieces as the messages proved.
- Single-request retry in the client, the stale-route check of the server and the Redis ingress.
- Raft, HTTP endpoints, TCP listeners, JSON files, fsync, the event bus, configuration, admin and frontend: input, output and foreign libraries.
