# Cadence clients and archival, in Dafny

This project models three parts of Cadence that keep state and make decisions over many calls, and proves what each of
them promises over whole runs.

**Archival.** The history iterator (`HistoryIterator.dfy`) pages through an immutable workflow history, packs batches into
blobs of a target size, looks ahead to flag the last blob, and can be checkpointed and resumed. `HistoryChunks.dfy` says
what the blobs ought to be without mentioning pages: the greedy chunking, which is shown to be the only packing of its
kind. The iterator is proved to deliver exactly those blobs, for every history, target size and page length, through
read faults, retries and restarts. On top of it, the S3 archiver (`S3Archiver.dfy`) uploads the blobs with best-effort
progress records; through any sequence of attempts under any failures the bucket holds exactly the first blobs of the
history, and reading a complete archive page by page gives the history back.

**Routing in the matching client.** Partition names (`PartitionNames.dfy`), round robin (`RoundRobin.dfy`), the weighted
draw (`WeightSelector.dfy`), isolation groups and the choice of strategy (`LoadBalancers.dfy`), the configuration provider
(`PartitionConfig.dfy`) and its concurrent updates (`ConfigCacheProtocol.dfy`), what each strategy does with polls and tasks
(`RoutingLaws.dfy`), and the client that feeds responses back (`MatchingClient.dfy`).

**Scatter and gather in the history client, and a policy cache.** Grouping by peer (`PeerFanOut.dfy`), the stable sort and
the admission under a size limit (`ReplicationMerge.dfy`), its dependence on the order of arrival (`ArrivalOrder.dfy`), the
calls built from them (`HistoryScatterGather.dfy`), the redirect loop (`Redirect.dfy`), and the per-run policy cache of the active-cluster manager (`PolicyCache.dfy`).

`Runs.dfy` holds the induction over runs of a state machine that several of these use, `Decimal.dfy` the printing and
reading of integers, `TaskLists.dfy` and `Wrappers.dfy` shared datatypes.

How the outside world enters:

- A store read is decided by a `ReadChoice`: it fails, for a while or for good, or returns any non-empty prefix of the
  batches left. The history is any sequence of non-empty batches with event ids running on from 1, the empty one
  included, and never changes while it is read.
- Random numbers are a function `draw` from a bound to a number below it. Dynamic configuration, domain lookup and the
  answers of peers are parameters. Eviction and expiry of cache entries are deletions that may happen at any time.
- With isolation switched on, the client indexes partition ids 0 to n-1 of a configuration without looking them up
  first, so there, and only there, ids are required to run from 0 to n-1.
- The order in which concurrent answers arrive is a parameter, and results are shown not to depend on it.
- Event ids, round-robin counters and parsed partition numbers are 64-bit where it matters; sizes and weights are
  unbounded integers, that is, their sums are taken to fit.

Findings where the code does less than one might expect, each with the exact condition:
`HistoryIterator.PanicsExactlyOnBadTarget` (a target that is not positive makes `Next` index an empty list),
`PartitionNames.NameCollision` (task lists named like partitions), `RoundRobin.TurnKeptUnlessWrapped` (a wrapped counter
sends everything to the root), `LoadBalancers.MultiLoadBalancer.WriteStaysInReadRange` (isolation does not cut writes down
to the read partitions), `LoadBalancers.WeightedLoadBalancer.UpdateWeight` (a report under a negative partition number
panics), `MatchingClient.Client.RetryStays` (the next request after a read-only partition goes to the root only if it is
another request), `ConfigCacheProtocol.VersionKeptExactlyWithoutDeletion` (a deletion lets an older configuration in),
`ArrivalOrder.SameAnswersExactlyIfSettled` (tied answers compete for the space left) and `PolicyCache.KeysCollideExactly`
(ids that contain the separator).

The `states` column says what a contract promises; a class is qualified by its module.

## Model

| member | source | states |
|---|---|---|
| `HistoryChunks.TakeCountShortest` | common/archiver/historyIterator.go:185-231 | the greedy prefix is the shortest one whose size reaches the target, or everything; nothing else is |
| `HistoryChunks.PackingUnique` | common/archiver/historyIterator.go:185-231 | chunks that make up the history, none of which could have stopped earlier and only the last of which may fall short, are the greedy chunks, and the other way round |
| `HistoryChunks.BlobsTile` | common/archiver/historyIterator.go:149-167 | headers cover the event ids end to end, count their events, carry the version of the first event of the first batch and of the last event of the last batch of their body, and exactly the last is flagged last |
| `HistoryChunks.BlobBodies` | common/archiver/historyIterator.go:169-173 | the bodies of the blobs are the greedy chunks, and together they are the history |
| `HistoryIterator.HistoryIterator.ReadHistoryBatches` | common/archiver/historyIterator.go:185-231 | whatever the page lengths, success returns the greedy prefix and the state after it; it fails exactly when the history is missing or a fault is met, and "not exists" comes back only for a missing history |
| `HistoryIterator.HistoryIterator.AddPage` | common/archiver/historyIterator.go:199-215 | packing a page keeps the greedy prefix property and stops early only with batches of the page to spare |
| `HistoryIterator.HistoryIterator.Next` | common/archiver/historyIterator.go:138-173 | delivers the next greedy blob and moves past it, leaves the state alone on failure, is depleted exactly when finished, and panics exactly when there is nothing to index |
| `HistoryIterator.DeliveredHeaderMatches` | common/archiver/historyIterator.go:149-173 | whatever state a call starts in, the header of the blob it delivers has the ids, the count and the versions of the first and last event of the body, and says it is the last exactly when the iterator has finished |
| `HistoryIterator.HistoryIterator.GetState` | common/archiver/historyIterator.go:180-183 | the token decodes to the current state |
| `HistoryIterator.HistoryIterator.Reset` | common/archiver/historyIterator.go:247-256 | takes over the decoded state, or changes nothing if the token does not decode |
| `HistoryIterator.HistoryIterator.FromState` | common/archiver/historyIterator.go:100-116 | a fresh iterator at the checkpoint, at the start without one, and an error exactly for a token that does not decode |
| `HistoryIterator.StateRoundTrip` | common/archiver/historyIterator.go:180-183 | decoding a checkpoint gives back the state it was taken from |
| `HistoryIterator.NextFromResting` | common/archiver/historyIterator.go:138-173 | a call from any state that can be reached does not panic, stays reachable, and delivers the first of the blobs due |
| `HistoryIterator.RunDeliversGreedyBlobs` | common/archiver/historyIterator.go:138-256 | over any run of calls, faults, retries and restarts, blobs delivered followed by blobs left are the greedy blobs of the start; no call panics |
| `HistoryIterator.CompleteRun` | common/archiver/historyIterator.go:138-178 | a run that finishes has delivered every blob exactly once, in order, with headers that tile the history |
| `HistoryIterator.EnoughCallsFinish` | common/archiver/historyIterator.go:138-178 | every run from a resting state, with whatever failures and restarts in between, ends finished once as many calls have not failed as there were blobs left |
| `HistoryIterator.FaultFreeRunExists` | common/archiver/historyIterator.go:138-178 | from every resting state there is a run of one delivering call per blob left that ends finished |
| `HistoryIterator.RestsAtBatchStart` | common/archiver/historyIterator.go:206-214 | an iterator that has not finished stands at the first event of a batch |
| `HistoryIterator.PanicsExactlyOnBadTarget` | common/archiver/historyIterator.go:149-190 | a call that does not fail, from any unfinished resting state, panics if and only if the target is not positive, and delivers a blob otherwise |
| `S3Archiver.HistoryArchiver.LoadHistoryIterator` | common/archiver/s3store/historyArchiver.go:244-261 | resumes at the blob of the progress record when that can be loaded and at the first otherwise, and either way feeds blobs that are due given what the bucket holds |
| `S3Archiver.HistoryArchiver.GetNextHistoryBlob` | common/archiver/s3store/historyArchiver.go:370-391 | returns the blob that is due, or fails and leaves the iterator where it was: with an error that is not transient, or because the context expired after every call so far had met a fault |
| `S3Archiver.HistoryArchiver.StoreBlob` | common/archiver/s3store/historyArchiver.go:193-227 | the bucket keeps holding exactly the first blobs, even when an upload fails after storing; objects are never changed |
| `S3Archiver.HistoryArchiver.SaveHistoryIteratorState` | common/archiver/s3store/historyArchiver.go:263-276 | a recorded progress is a blob number with the iterator state that goes with it; a lost record changes nothing |
| `S3Archiver.HistoryArchiver.ArchiveOne` | common/archiver/s3store/historyArchiver.go:166-232 | one turn: a blob that shows a history other than the one announced stops the attempt with nothing stored or recorded; otherwise the blob is stored and, where that works, recorded, or the attempt stops for a reason that occurred |
| `S3Archiver.HistoryArchiver.Archive` | common/archiver/s3store/historyArchiver.go:126-242 | under any conditions the bucket holds exactly the first blobs, none of which shows another history than the one announced, nothing is lost or changed, and success means all blobs of the announced history; where nothing fails, success comes exactly for the announced history, or for any if incomplete ones are welcome |
| `S3Archiver.MutationCheckIsExact` | common/archiver/util.go:155-176 | the check passes on all blobs exactly when the last event of the last batch has the announced version and number and no blob ends at a later version |
| `S3Archiver.HistoryKeyInjective` | common/archiver/s3store/util.go:229-232 | blobs of a run have different keys |
| `S3Archiver.HistoryArchiver.Get` | common/archiver/s3store/historyArchiver.go:312-359 | a page is the whole blobs from the token on until the page is full or the last blob is read; it fails exactly when it needs a blob that is not stored or cannot be downloaded and decoded, also for a token beyond the last blob |
| `S3Archiver.PageEndsWhenFull` | common/archiver/s3store/historyArchiver.go:315-319 | a page ends at the first blob with which it has as many events as were asked for, or at the last blob, and nowhere else |
| `S3Archiver.ArchiveRoundTrip` | common/archiver/s3store/historyArchiver.go:278-359 | the pages of a complete archive, of any positive size, make up the archived history |
| `S3Archiver.HistoryArchiver.ReadBack` | common/archiver/s3store/historyArchiver.go:278-359 | calling `Get` with the token of the page before until there is none returns the history that was archived, and fails exactly when a blob cannot be read |
| `Decimal.AtoiItoa` | client/matching/weighted_loadbalancer.go:216-219 | reading a printed integer gives it back, or reports it out of 64-bit range |
| `Decimal.DigitsInPlace` | client/matching/loadbalancer.go:137-142 | the decimal text has each digit at its place, units last, and no leading zero |
| `PartitionNames.IndexOfName` | client/matching/weighted_loadbalancer.go:213-220 | the partition number comes back from the partition's name, for every root |
| `PartitionNames.NameCollision` | client/matching/loadbalancer.go:137-142 | two partitions share a name exactly when they are the same or one is partition 0 of a list named like the other |
| `PartitionNames.NameInjective` | client/matching/loadbalancer.go:137-142 | without the reserved prefix in the roots, name determines root and partition |
| `WeightSelector.SectorBounds` | client/matching/weighted_loadbalancer.go:107-121 | a draw selects a partition exactly when it lies between its neighbouring cumulative weights |
| `WeightSelector.DrawsAreProportional` | client/matching/weighted_loadbalancer.go:98-122 | of all possible draws, exactly as many select a partition as it has weight |
| `WeightSelector.SectorHasWeight` | client/matching/weighted_loadbalancer.go:98-122 | a partition without weight is never selected |
| `WeightSelector.WeightSelector.PickBetweenAll` | client/matching/weighted_loadbalancer.go:66-122 | choosing among all partitions and choosing without restriction return the same partition for the same draw |
| `WeightSelector.Search` | client/matching/weighted_loadbalancer.go:118-120 | the binary search returns the boundary between cumulative weights up to the draw and those above it |
| `WeightSelector.Accumulate` | client/matching/weighted_loadbalancer.go:106-113 | running sums, their total, and whether some weight exceeds the threshold |
| `WeightSelector.FindSector` | client/matching/weighted_loadbalancer.go:117-121 | the search over running sums finds the sector of the draw |
| `WeightSelector.WeightSelector.Pick` | client/matching/weighted_loadbalancer.go:98-122 | the sector of the draw when all weights are known, there is weight, and some backlog exceeds the threshold; -1 otherwise |
| `WeightSelector.WeightSelector.PickBetween` | client/matching/weighted_loadbalancer.go:66-96 | the same among given partitions, -1 also when one of them is not covered |
| `WeightSelector.WeightSelector.constructor` | client/matching/weighted_loadbalancer.go:58-64 | all weights unknown, selection off |
| `WeightSelector.WeightSelector.Update` | client/matching/weighted_loadbalancer.go:124-147 | resizes with unknown slots, files the report if it is in range, and selection is on exactly when no slot is unknown; panics exactly on a negative partition number, after resizing |
| `WeightSelector.SlotHoldsLastWord` | client/matching/weighted_loadbalancer.go:124-147 | after any reports, a slot holds the last weight reported since it last came into range, and is unknown without one |
| `WeightSelector.ShrinkForgets` | client/matching/weighted_loadbalancer.go:127-137 | a slot that went out of range stays unknown after growing again until it is reported anew |
| `RoundRobin.Partition` | client/matching/rr_loadbalancer.go:101-126 | whatever the counter, the pick is the root or a partition below the number of partitions |
| `RoundRobin.RoundRobinLoadBalancer.PickPartition` | client/matching/rr_loadbalancer.go:93-127 | advances the one counter of the list and direction and names the partition it falls on; does not touch counters for a single partition |
| `RoundRobin.PicksTakeTurns` | client/matching/rr_loadbalancer.go:76-127 | interleaved with anything concerning other lists or the other direction, the picks go round the partitions |
| `RoundRobin.StartsAtRoot` | client/matching/rr_loadbalancer.go:76-127 | without a counter, pick number i of a run goes to partition i modulo n, the first one to the root |
| `RoundRobin.RoundRobinIsFair` | client/matching/rr_loadbalancer.go:76-127 | of any m picks in a row every partition gets m/n, rounded down or up |
| `RoundRobin.TurnKeptUnlessWrapped` | client/matching/rr_loadbalancer.go:125-126 | exactly when a pick keeps its turn; a wrapped counter picks the root |
| `PartitionConfig.Dense` | client/matching/partition_config_provider.go:247-261 | a default configuration has the partitions 0 to n-1, none for n below 1, each open to all groups |
| `PartitionConfig.CreatePartitions` | client/matching/partition_config_provider.go:248-255 | the loop that fills a default configuration builds exactly those |
| `PartitionConfig.PartitionConfigProvider.GetNumberOfWritePartitions` | client/matching/partition_config_provider.go:119-162 | never more than the read partitions, in any mode and for any cached configuration |
| `PartitionConfig.PartitionConfigProvider.ConfigComesFrom` | client/matching/partition_config_provider.go:131-162 | the cached configuration for normal lists that have one, partitions by the dynamic configuration with writes cut down to reads, and the single partition 0 otherwise |
| `PartitionConfig.PartitionConfigProvider.UpdatePartitionConfig` | client/matching/partition_config_provider.go:164-192 | afterwards the key holds the configuration of the higher version, the old one when they are equal, and no other key has changed; nothing changes without a configuration or for sticky lists |
| `PartitionConfig.CacheAfterKeepsNewest` | client/matching/partition_config_provider.go:79-87 | what an update leaves in the cache is the only content with these properties |
| `PartitionConfig.PartitionConfigProvider.InvalidatePartitionCache` | client/matching/partition_config_provider.go:202-213 | forgets that list's configuration and no other |
| `ConfigCacheProtocol.StepKeepsVersion` | client/matching/partition_config_provider.go:79-87 | no atomic step but a deletion of the key takes a cached version back |
| `ConfigCacheProtocol.MethodIsSoloUpdate` | client/matching/partition_config_provider.go:164-192 | the lookup, conditional insert and compare of one updater with nothing in between change the cached contents exactly as one call of `UpdatePartitionConfig` does |
| `ConfigCacheProtocol.HighestVersionWins` | client/matching/partition_config_provider.go:164-192 | in every interleaving, once all updates of a key are through, its cached configuration is one delivered or cached before and has the highest version of them |
| `ConfigCacheProtocol.UpdatersGetThrough` | client/matching/partition_config_provider.go:164-192 | from every well-formed state there is a run without deletions in which all updates get through |
| `ConfigCacheProtocol.UpdaterCanStep` | client/matching/partition_config_provider.go:172-191 | no state blocks an update that is not through: it has a next step, which brings it closer to its end and leaves the others where they are |
| `ConfigCacheProtocol.OutcomeIsDetermined` | client/matching/partition_config_provider.go:164-192 | where a version fixes its content, runs from two states with the same configurations delivered or cached before end with the same one cached, however often and in whatever order each was delivered |
| `ConfigCacheProtocol.VersionNeverDecreases` | client/matching/partition_config_provider.go:79-87 | from any point of a run to any later one the cached version does not go back |
| `ConfigCacheProtocol.VersionKeptExactlyWithoutDeletion` | client/matching/partition_config_provider.go:164-213 | over any run, with deletions, an entry is kept at its version or a later one from every point to every later one if and only if no step deletes it while it is cached |
| `ConfigCacheProtocol.UpdateAfterDeletionCounts` | client/matching/partition_config_provider.go:164-213 | whatever was deleted before, an update that had no reference yet when the last deletion of the key happened is counted in the cached version once it is through |
| `ConfigCacheProtocol.OrphanedUpdateIsLost` | client/matching/partition_config_provider.go:79-87 | an update that holds a reference to an entry dropped since changes no cached configuration |
| `ConfigCacheProtocol.DeletionAllowsRollback` | client/matching/partition_config_provider.go:202-213 | a run in which a deletion leads to an older configuration being cached |
| `LoadBalancers.PartitionsForGroup` | client/matching/isolation_loadbalancer.go:113-144 | exactly the ids that accept the group, ascending; none for the empty group |
| `LoadBalancers.AcceptedByName` | client/matching/isolation_loadbalancer.go:133-144 | a partition is listed for a group exactly when it names the group or names none |
| `LoadBalancers.IsolationLoadBalancer.IsolatedWriteBeyondRead` | client/matching/isolation_loadbalancer.go:51-77 | some draw sends a write to a partition other than the root and beyond the first n if and only if isolation is on, the task has a group, there are several write partitions, and one of them beyond the root and the first n accepts the group |
| `LoadBalancers.WeightedLoadBalancer.PickWritePartition` | client/matching/weighted_loadbalancer.go:170-175 | the next write partition in turn |
| `LoadBalancers.WeightedLoadBalancer.PickReadPartition` | client/matching/weighted_loadbalancer.go:177-201 | the weighted choice when there is one, else the next read partition in turn |
| `LoadBalancers.WeightedLoadBalancer.WeightedChoiceIsProportional` | client/matching/weighted_loadbalancer.go:98-122 | there is a weighted choice exactly when all weights are known and some exceeds 100, and then exactly as many draws select a partition as it has weight |
| `LoadBalancers.WeightedLoadBalancer.UpdateWeight` | client/matching/weighted_loadbalancer.go:203-247 | files the weight under the partition the name stands for, forgets the list at one partition, leaves other lists alone; panics exactly when a weight is reported under a name that ends in a negative number for a list of several partitions |
| `LoadBalancers.WeightedLoadBalancer.PickBetween` | client/matching/weighted_loadbalancer.go:249-270 | a single partition as it is, the weighted choice among several, or -1 |
| `LoadBalancers.WeightedLoadBalancer.ChoiceBetweenIsProportional` | client/matching/weighted_loadbalancer.go:66-96 | a single partition as it is; among several the same proportion, exactly when the weights are known, cover them, and one of theirs exceeds 100; -1 otherwise |
| `LoadBalancers.ReportOutOfPlace` | client/matching/weighted_loadbalancer.go:209-230 | a report without a weight, or under a name that ends in no number, changes nothing, and any other drops the weights of a list with at most one partition |
| `LoadBalancers.ReportLandsInItsSlot` | client/matching/weighted_loadbalancer.go:213-246 | a report under a partition's own name does not panic and lands in that partition's slot and in no other |
| `LoadBalancers.IsolationLoadBalancer.WriteChoiceAccepts` | client/matching/isolation_loadbalancer.go:59-76 | with several write partitions of which some accepts the task's group, the one chosen does, for every draw |
| `LoadBalancers.IsolationLoadBalancer.ReadChoiceAccepts` | client/matching/isolation_loadbalancer.go:83-106 | the same for polls, whatever weights are on file |
| `LoadBalancers.IsolationLoadBalancer.PickWritePartition` | client/matching/isolation_loadbalancer.go:51-77 | the name returned is the root of a single partition and otherwise that of a partition which accepts the group if there is one; without one, or with isolation off, it is the fallback's |
| `LoadBalancers.IsolationLoadBalancer.PickReadPartition` | client/matching/isolation_loadbalancer.go:79-107 | the same for polls, by weight among the accepting partitions where possible |
| `LoadBalancers.IsolationLoadBalancer.ChooseRead` | client/matching/isolation_loadbalancer.go:83-104 | isolation decides on a partition that respects the group, and leaves the poll to the fallback only when it is off, without a group, or no partition accepts |
| `LoadBalancers.IsolationLoadBalancer.PickAccepting` | client/matching/isolation_loadbalancer.go:97-104 | the weighted choice among the accepting partitions, or a random one |
| `LoadBalancers.MultiLoadBalancer.PickWritePartition` | client/matching/multi_loadbalancer.go:62-80 | the choice of the strategy, random without a usable one, the list itself when it is not to be balanced |
| `LoadBalancers.MultiLoadBalancer.PickReadPartition` | client/matching/multi_loadbalancer.go:82-101 | the same for polls |
| `LoadBalancers.MultiLoadBalancer.UpdateWeight` | client/matching/multi_loadbalancer.go:103-127 | reports count exactly for requests that were not forwarded, for normal lists outside the reserved prefix, under the weighted and isolation strategies, and can panic only there |
| `LoadBalancers.MultiLoadBalancer.WriteStaysInReadRange` | client/matching/loadbalancer.go:99-127 | under every strategy, every draw sends a write to the root or a read partition, if and only if isolation is not in charge or no write partition beyond the read partitions accepts the group |
| `RoutingLaws.OthersStay` | client/matching/multi_loadbalancer.go:62-70 | forwarded requests, sticky lists and lists under the reserved prefix stay where they are, and no counter moves |
| `RoutingLaws.RandomReachesEach` | client/matching/loadbalancer.go:99-127 | at random, or without a usable strategy, each of several partitions is reached by exactly one draw |
| `RoutingLaws.RoundRobinTakesTurns` | client/matching/multi_loadbalancer.go:62-101 | round robin sends polls and tasks to the next partition in turn, whatever the draw and the weights |
| `RoutingLaws.WeightedPollsFollowBacklog` | client/matching/multi_loadbalancer.go:82-101 | under the weighted strategy exactly as many draws send a poll to a partition as it has weight, without moving a counter; where the weights say nothing polls take turns, and tasks always do |
| `RoutingLaws.WithoutIsolationByWeight` | client/matching/isolation_loadbalancer.go:54-95 | with isolation off, without a group, or where no partition accepts it, isolation does what the weighted strategy does |
| `RoutingLaws.NoGroupIsEmptyGroup` | client/matching/isolation_loadbalancer.go:59-62 | a task without a group is routed like one with an empty group |
| `RoutingLaws.IsolatedTasksSpread` | client/matching/isolation_loadbalancer.go:64-76 | a task goes to each of the partitions that accept its group on exactly one draw |
| `RoutingLaws.IsolatedPollsFollowBacklog` | client/matching/isolation_loadbalancer.go:87-106 | a poll goes to the partitions that accept its group in proportion to their weights where these allow it, and to each on exactly one draw where they do not |
| `MatchingClient.Client.RoutePoll` | client/matching/client.go:138-147 | points the request to the partition routed to, in a new task list object, and advances the counters as the choice demands |
| `MatchingClient.Client.Learn` | client/matching/client.go:158-169 | the newer configuration stays cached and the reported weight lands in the slot of the partition that served the poll |
| `MatchingClient.Client.Settle` | client/matching/client.go:157-171 | after a successful poll the request holds the caller's own task list again, renamed to the partition, and configuration and weights of that list, and of no other, are what the response makes of them |
| `MatchingClient.Client.Poll` | client/matching/client.go:133-173 | routes and advances the counters; on success restores the caller's task list, renames it to the partition, and leaves that list's configuration and weights as the response makes them; on failure the request keeps the partition and nothing is learnt; the weights of other lists never change |
| `MatchingClient.Client.RouteAdd` | client/matching/client.go:64-72 | the same routing for a task to be added |
| `MatchingClient.Client.Add` | client/matching/client.go:59-94 | routes and advances the counters, restores the task list only on success, keeps the newer configuration, forgets it on a read-only partition |
| `MatchingClient.Client.ForgottenRoutesToRoot` | client/matching/client.go:79-83 | with the configuration forgotten, the next write goes to the root of the list its request names, under every strategy |
| `MatchingClient.Client.RetryStays` | client/wrappers/retryable/matching_generated.go:45-54 | calling again with a request whose call failed at a partition other than the root goes to that partition again, whatever the configuration; a request that failed at the root is routed anew |
| `PeerFanOut.GroupByPeer` | client/history/client.go:734-750 | each peer's list is exactly its items in input order; fails exactly when an item cannot be resolved, at the first such |
| `PeerFanOut.GlobalRatelimitPeers` | client/history/peer_resolver.go:132-181 | the same for rate limit keys, which also needs a ring with members |
| `PeerFanOut.GroupingConserves` | client/history/client.go:1018-1034 | a peer gets an item as often as it was asked for if it owns it, and never otherwise |
| `PeerFanOut.GroupingKeepsOrder` | client/history/client.go:734-750 | each peer's list is made of its items at increasing places of the input, and of all of them |
| `ReplicationMerge.LessIsStrictWeakOrder` | client/history/client.go:850-879 | being less is a strict weak order, also for missing entries and missing times |
| `ReplicationMerge.OrderedOldestFirst` | client/history/client.go:844-879 | in order means older first, smaller first among equals, untimed last; and which entries tie |
| `ReplicationMerge.SortIsStable` | client/history/client.go:839-842 | the sort orders and keeps ties in the order they had |
| `ReplicationMerge.StableSortUnique` | client/history/client.go:839-842 | there is only one ordered stable rearrangement, so any stable sort gives it |
| `ReplicationMerge.SortPermutes` | client/history/client.go:839-842 | nothing is lost or added by sorting |
| `ReplicationMerge.SortStable` | client/history/client.go:839-842 | sorts the array in place into that arrangement |
| `ReplicationMerge.TakenExactlyIfFits` | client/history/client.go:811-829 | an answer is taken exactly when it stays below the limit on top of those taken before it |
| `ReplicationMerge.TakenBelowLimit` | client/history/client.go:809-829 | what is taken totals below the limit whenever anything is taken |
| `ReplicationMerge.MergeFitting` | client/history/client.go:808-836 | the loop merges exactly the answers that are taken |
| `ReplicationMerge.BuildResponse` | client/history/client.go:799-837 | sorts and merges into the specified response |
| `ReplicationMerge.TiesKeepTheirOrder` | client/history/client.go:839-842 | of two answers that tie, the sort leaves in front the one that was in front |
| `ReplicationMerge.LastWins` | client/history/client.go:831-833 | what the merge says about a shard is what the last answer taken that speaks of it says |
| `ReplicationMerge.BuildHolds` | client/history/client.go:808-836 | without contradictions, the response says about a shard exactly what the answers taken say |
| `ArrivalOrder.SameAnswersExactlyIfSettled` | client/history/client.go:754-837 | the answers taken are the same for every order of arrival if and only if every tie class settles: on top of what is taken before it, none of its answers fits or all of those fit together that fit alone |
| `ArrivalOrder.SameResponseExactlyIfSettled` | client/history/client.go:754-837 | where every answer brings shards of its own, so is the merged response, under the same condition |
| `ArrivalOrder.ArrivalOrderDoesNotMatter` | client/history/client.go:754-837 | the classes settle and the response is the same for every order if no two answers tie; and if the classes settle, as they do when everything fits, and no answer contradicts another |
| `ArrivalOrder.TieGoesToFirstArrival` | client/history/client.go:811-829 | of two tied answers of which one fits, the first to arrive is taken |
| `HistoryScatterGather.GetReplicationMessages` | client/history/client.go:729-794 | an unresolvable shard or a busy peer fails the call; otherwise the peers that answered are considered oldest first, the smaller first among those of the same age, then in order of arrival; each is taken exactly when its size stays below the limit on top of those taken before; and each shard is as the last one taken puts it |
| `HistoryScatterGather.ResponseSpeaksForOwner` | client/history/client.go:808-836 | if peers answer only for their own shards, the response speaks of a shard exactly when its owner is taken and speaks of it, in the owner's words |
| `HistoryScatterGather.OwnShardsAgree` | client/history/client.go:831-833 | if peers answer only for shards they were asked about, merging never overwrites a shard |
| `HistoryScatterGather.ReplicationIgnoresArrivalOrder` | client/history/client.go:752-837 | then the whole call gives the same response however the answers arrive, without ties, with everything fitting, or with tie classes that settle |
| `HistoryScatterGather.ReplicationExactlyIfSettled` | client/history/client.go:729-837 | over all orders in which the peers may answer, the call takes the same peers' answers if and only if the tie classes settle |
| `HistoryScatterGather.FailShards` | client/history/client.go:1090-1092 | each shard of a failed peer gets the cause, on top of what was there |
| `HistoryScatterGather.GetCrossClusterTasks` | client/history/client.go:1048-1106 | fails exactly on an unresolvable shard, else gathers what each peer contributes |
| `HistoryScatterGather.GatherSpeaksForOwner` | client/history/client.go:1086-1101 | about a shard the response says exactly what the shard's own peer contributes |
| `HistoryScatterGather.EveryShardCovered` | client/history/client.go:1053-1105 | each requested shard carries its failed peer's cause, or exactly its own peer's answer |
| `Redirect.ExecuteWithRedirect` | client/history/client.go:1160-1189 | the loop returns what following the hints turn by turn returns, with the calls made |
| `Redirect.ExpiredContextReturns` | client/history/client.go:1169-1174 | a context that has expired by turn n+1 ends the loop by then |
| `Redirect.NeverReturnsExactly` | client/history/client.go:1160-1189 | the loop runs for ever if and only if there is an endless trail of hosts that each point to the next before the context expires |
| `Redirect.HintsLeadToOwner` | client/history/client.go:1169-1189 | hints through k hosts to one that serves the call mean k+1 calls, the last there, and its result |
| `Redirect.EveryReturnIsExplained` | client/history/client.go:1160-1189 | every call that returns followed hints from the first host and ended with a served call, a dead hint or an expired context |
| `Redirect.OwnershipLostIsNotReturned` | client/history/client.go:1175-1184 | an ownership-lost error could only come from the resolver, never from the operation |
| `PolicyCache.CacheKeyInjective` | common/activecluster/manager.go:109-110 | runs have different keys whatever their workflow ids contain, given plain domain and run ids |
| `PolicyCache.KeysCollideExactly` | common/activecluster/manager.go:109-110 | two pairs of domain and run ids have workflow ids that give different runs the same key if and only if the pairs differ, one domain id is the other or continues it after a colon, and one run id is the other or precedes it with a colon in between |
| `PolicyCache.SeparatorInDomainCollides` | common/activecluster/manager.go:109-110 | the simplest collision: a colon in the domain id |
| `PolicyCache.LookupIsTransparent` | common/activecluster/manager.go:95-140 | a successful lookup returns what the store holds, a failed one changes nothing and fails as the store does |
| `PolicyCache.CacheIsTransparent` | common/activecluster/manager.go:95-140 | over any run of lookups, evictions and store changes, every successful lookup returns what a direct read would |
| `PolicyCache.DirectReadsTheStore` | common/activecluster/manager.go:95-137 | a direct read gives the policy recorded for the run that is given, whatever run is current, and for the current run when none is given |
| `PolicyCache.SecondLookupIsCached` | common/activecluster/manager.go:109-139 | once a run's policy has been looked up, looking it up again gives the same policy whatever the store holds and however it fails |
| `PolicyCache.ActiveClusterManager.GetClusterSelectionPolicy` | common/activecluster/manager.go:95-140 | with a coherent cache, the policy that the store records for the run given or else for the current one, not-exists where there is none, and a store fault only where a read that is needed can fail |
| `PolicyCache.ActiveClusterManager.GetActiveClusterInfoByWorkflow` | common/activecluster/manager.go:198-251 | unless a store fault gets in the way, the cluster of the attribute in the policy that the store records, an error for an attribute the domain does not know, and the domain's own cluster without a policy or attribute or for other domains |
| `PolicyCache.ActiveClusterManager.GetActiveClusterSelectionPolicyForWorkflow` | common/activecluster/manager.go:253-281 | the policy that the store records, none for other domains and runs without one, and a failure only for a store fault |

## Left out

- JSON: iterator tokens are modelled as the exact documents that are written, and other spellings of the same value count as malformed; blobs and progress records are stored as values, with failures to encode or decode them as parameters; the size of a batch is part of the batch.
- The paging inside a single read of the history, with its own tokens and stale batches: a read returns any non-empty prefix of what is left.
- Gaps, empty batches or changes in a history while it is read; a token that was not produced by an iterator is covered by `Next`, whose contract holds for every state.
- The other archivers (file store, Google Cloud) and visibility archival: the same iterator with other storage.
- The lookup of the highest failover version in S3, URI and bucket handling: library calls and string handling.
- The LRU caches: maps with deletions at any time; inserting never fails because nothing is pinned.
- Interleavings of concurrent weight reports and round-robin picks below the level of one call: each is atomic under a lock or an atomic increment.
- The weight computed from load balancer hints (floating point): any natural number.
- Overflow of the sum of weights and of blob sizes: taken to fit.
- The library's merging of sorted blocks beyond insertion sort: `ReplicationMerge.StableSortUnique` shows that any stable sort gives the same result.
- Timeouts and child contexts, metrics, logs and tags.
- The single-peer calls of both clients, which only add a shard key, and `NotifyFailoverMarkers` beyond its grouping.
- `GetActiveClusterSelectionPolicyForCurrentWorkflow` and the remaining lookups of the manager: the same cache with one more read.
- Redirect.ExecuteWithRedirect: the method covers the calls that return; that it runs for ever otherwise, and exactly when, is `Redirect.NeverReturnsExactly`.
- HistoryIterator.HistoryIterator.Reset: a token that spells the same two fields in another way counts as malformed, because the JSON decoder is library code.
- HistoryIterator.HistoryIterator.FromState: the same for the token that an iterator is created from.
