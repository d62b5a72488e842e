# Proofs about the Proxmox Datacenter Manager server

A datacenter manager server talks to many remotes (Proxmox VE clusters and backup servers), each of
which may have several nodes. This project models the parts of the server where several requests,
tasks, writers or remotes act at once, and proves what holds in every run of them.

| file | part of the server |
|---|---|
| `Failover.dfy`, `MultiClient.dfy`, `Modular.dfy` | the failover client: many requests share one counter over the nodes of a remote, and each has its own generator of nodes to try |
| `Fetcher.dfy`, `FetcherResponse.dfy`, `Ordering.dfy` | the parallel fetcher with its global and per-remote limits, and the response container |
| `Sdn.dfy`, `SdnTransaction.dfy` | the transaction over the SDN configuration of several remotes: lock all, edit all, roll back all or apply all |
| `NamespacedCache.dfy` | the file cache with timestamped entries |
| `UpdateSummary.dfy`, `SummaryWriters.dfy` | the cached summary of available updates and its concurrent writers and readers |
| `JobState.dfy` | the persisted state of a scheduled job |
| `ConnectionCache.dfy` | the cache of PVE clients |
| `RemoteUpid.dfy` | task ids that name their remote |
| `Basics.dfy` | ranges, repeats, safe identifiers |

Concurrent behaviour is a step function over a state; a run is a sequence of steps, and whatever the
surroundings decide (scheduling, reachability, the network, the clock, the file system, crashes) is
carried by the steps. Code that updates objects or works in loops is a class or a method proved
against a function or predicate on values.

## Findings

Some expected properties do not hold of the code. In each case there is a lemma that
exhibits failing inputs and one that says exactly when the property holds.

- A failover generator does not always try every node: those skipped in the call that gives up are
  lost (`Failover.SkippedNodeIsLost`, `Failover.RepeatedHostIsLost`, `Failover.DrainedReach`,
  `Failover.AloneOutcome`).
- A request that is not idempotent can arrive more than once, by exactly its number of timeouts
  (`MultiClient.TimeoutMayRepeat`, `MultiClient.NonIdempotentArrivals`).
- If the counter of a failover client wrapped around, nodes could repeat unless their number divides
  the wrap-around point (`Modular.ThreeEntriesCollide`, `Modular.WrapKeepsEntriesApart`).
- A fetcher with a zero limit deadlocks (`Fetcher.OneRemoteDeadlocks`, `Fetcher.NoDeadlock`).
- A failed attempt to lock several remotes can leave locks behind: those taken before a name that is
  not configured, and one that was taken although the reply was lost
  (`SdnTransaction.UnknownNameLeavesLock`, `SdnTransaction.LostReplyLeavesLock`,
  `SdnTransaction.NoLockLeftExactly`).
- `apply_and_release` is documented to return an error if applying fails on a remote
  (`server/src/sdn_client.rs:363-365`), but a refused apply call is only logged. The model follows the
  code (`SdnTransaction.RefusedApplyReportsOk`, `SdnTransaction.OkMeansApplied`).
- A writer that cannot read the cached update summary starts from an empty one and drops what the
  other writers stored (`SummaryWriters.FailedReadLosesNodes`, `SummaryWriters.KeptExactly`).
- The final refresh pass does not update the type of a remote that is already cached
  (`UpdateSummary.TypeStaysStale`, `UpdateSummary.ResponseDetermines`).
- Two starts in one session of a job can lower its last run time, at the second start or at a finish
  (`JobState.RestartMayLower`, `JobState.FinishMayLower`, `JobState.RunLowersExactly`), and a start
  whose write fails leaves the earlier task on record (`JobState.FailedStartKeepsOldTask`,
  `JobState.RecordedTaskExactly`).
- `parse_for_remote` reads a remote name with a separator in it as another remote
  (`RemoteUpid.SeparatorMisleads`, `RemoteUpid.RemoteExactly`). No caller passes such a name: the
  commands take the remote under a schema that admits safe identifiers only
  (`lib/pdm-api-types/src/remotes.rs:13-17`), and for those the result is right
  (`RemoteUpid.SafeRemoteKept`).

## Model

| member | source | states |
|---|---|---|
| `Failover.SkipsMarked` | server/src/connection.rs:545-560 | skipping ahead passes only hosts marked unreachable and stops at the first one that is not, once around at most |
| `Failover.MovedOffer` | server/src/connection.rs:686-712 | if other requests moved the counter on, a call leaves it there, hands out the entry it stands at, marked or not, labelled by the marks, and remembers the positions in between |
| `Failover.NextOffer` | server/src/connection.rs:686-712 | if the counter still stands where the request used it, a call hands out the next entry not marked, wherever that is, and remembers the marked ones before it |
| `Failover.GiveUpOffer` | server/src/connection.rs:691-698 | a call stops rotating if the counter was moved out of reach or all entries left are marked; then the remembered entries follow, the first at once, labelled unreachable |
| `Failover.CallKeepsTaskInv` | server/src/connection.rs:656-717 | one call of a generator keeps its history complete: positions handed out, remembered and pending are together the contiguous range from its start to its last used position, each once |
| `Failover.EveryRunKeepsInv` | server/src/connection.rs:519-717 | the same for all generators under every interleaving of any number of requests and any change of the reachability marks |
| `Failover.OthersOnlyAdvance` | server/src/connection.rs:540-542 | whatever other requests do leaves a generator alone and only moves the shared counter forward |
| `Failover.HandedIsRange` | server/src/connection.rs:592-717 | what a started generator handed out or has pending is, each position once, the range from its start to its last used position, and the last used position is less than the number of entries after the start |
| `Failover.HandedEntriesDiffer` | server/src/connection.rs:592-602 | all positions handed out name different entries, so there are at most as many as entries |
| `Failover.NoEntryTwice` | server/src/connection.rs:592-717 | in every run of every number of requests, no request is handed the same entry twice |
| `Failover.DrainedReach` | server/src/connection.rs:682-713 | a drained generator has handed out every entry if and only if it used the entry just before its starting point |
| `Failover.AloneOutcome` | server/src/connection.rs:545-717 | a request running alone tries its start, then in cyclic order every entry whose host was neither marked beforehand nor shared with an earlier entry, then the others up to the last of those; it has tried all entries if and only if the last entry in cyclic order is none of the others |
| `Failover.AloneAllReachable` | server/src/connection.rs:545-717 | with no host marked beforehand, no host shared and only its own failures marked, a lone request tries every entry exactly once in cyclic order and stops |
| `Failover.SkippedNodeIsLost` | server/src/connection.rs:691-710 | two nodes, the second marked beforehand: the generator ends without trying the second |
| `Failover.RepeatedHostIsLost` | server/src/connection.rs:545-560 | two entries with one host name: the failure of the first marks the second, which is never tried |
| `Failover.TriedIsSeen` | server/src/connection.rs:545-560 | the hosts a lone request tried, with those marked beforehand, are all hosts it passed |
| `Failover.SkipsBlocked` | server/src/connection.rs:545-560 | skipping ahead passes only entries marked beforehand or sharing a host with an earlier one |
| `Modular.DistinctEntries` | server/src/connection.rs:563-581 | positions less than the entry count apart name different entries |
| `Modular.EntryInWindow` | server/src/connection.rs:563-581 | as many consecutive positions as there are entries reach every entry |
| `Modular.WrapKeepsEntriesApart` | server/src/connection.rs:540-542 | a counter that wraps around keeps neighbouring positions on different entries if and only if the number of entries divides the wrap-around point |
| `Modular.ThreeEntriesCollide` | server/src/connection.rs:540-542 | with three entries the positions before and after a 64-bit wrap-around name the same entry |
| `MultiClient.MultiClientState.SkipUnreachable` | server/src/connection.rs:545-560 | the loop advances the counter to exactly the first unmarked position, once around at most |
| `MultiClient.ClientGenerator.Next` | server/src/connection.rs:656-717 | one call under the state lock does to the counter and the generator exactly what one call of the interleaving model does, and keeps its history complete |
| `MultiClient.ClientGenerator.Rotate` | server/src/connection.rs:682-713 | advancing the shared counter and remembering the skipped positions refines the rotating step of the interleaving model |
| `MultiClient.MovedTurn` | server/src/connection.rs:686-712 | the same for a turn of the retry loop in which other requests move the counter by any amount within reach |
| `MultiClient.NewEntry` | server/src/connection.rs:656-717 | a client handed out is a new entry, and there are never more than entries |
| `MultiClient.TryNodes` | server/src/connection.rs:748-850 | the loop asks the generator once per turn from where the counter stands, sends to exactly the nodes handed out that are not backed off, and stops at the first turn with no node left or an outcome that does not fail over; last error, timeout flag and connect retry are what the outcomes demand, the first two never together |
| `MultiClient.TryRequest` | server/src/connection.rs:723-892 | a whole call sends exactly what its surroundings determine, at most one request per entry, and one retry exactly if all failed over and the first could not connect; its result and the reachability marks are functions of the outcomes; nothing is sent behind the back-off or with bad parameters |
| `MultiClient.CallEndsExactly` | server/src/connection.rs:777-826 | the loop ends in the first turn that has no node left, or whose request is answered, or, for a method that is not idempotent, fails after connecting; it goes on past every other turn |
| `MultiClient.SendsExactly` | server/src/connection.rs:748-785 | one request is sent in every turn with a node that is not backed off, to that node, in the order of the turns, and no other |
| `MultiClient.MarksExactly` | server/src/connection.rs:807-847 | a position is marked unreachable exactly if its request could not connect, timed out, or, for an idempotent method, failed after connecting; and reachable exactly if its request was answered and its node labelled unreachable |
| `MultiClient.IdempotentFailsOver` | server/src/connection.rs:798-806 | a run with two nodes: an idempotent request fails after connecting to the first, which is marked, and the answer of the second is the result |
| `MultiClient.TraceIsUnique` | server/src/connection.rs:656-717 | the surroundings determine counter, generator and node handed out in every turn |
| `MultiClient.CallIsDetermined` | server/src/connection.rs:656-850 | two complete calls in the same surroundings end in the same turn, are handed the same nodes and send the same requests |
| `MultiClient.SentInTurns` | server/src/connection.rs:748-850 | while the loop goes on every turn hands out one more node, and every request sent failed over and went to another position |
| `MultiClient.CallHasShape` | server/src/connection.rs:748-850 | what a call sends goes to different entries, all but the last request failing over |
| `MultiClient.NothingSentExactly` | server/src/connection.rs:760-776 | a call sends nothing if and only if all nodes were handed out and all were backed off |
| `MultiClient.UnknownErrorExactly` | server/src/connection.rs:873-889 | the "unknown error" result means exactly that |
| `MultiClient.NonIdempotentArrivals` | server/src/connection.rs:748-871 | for a method that is not idempotent, the requests of one call that may have arrived are exactly its timed-out ones plus a final reply; without timeouts at most one; at most n+1 sends |
| `MultiClient.ResultMeaning` | server/src/connection.rs:852-889 | "unknown error" exactly if nothing was sent; the timeout verdict exactly if the last request of the loop timed out and so did the final retry, if it was sent; else the outcome of the very last request, leaving out a final retry that timed out |
| `MultiClient.TimeoutMayRepeat` | server/src/connection.rs:822-826 | a run with two nodes: the first times out, the second answers, and a request that is not idempotent has arrived twice |
| `Fetcher.StepConservesPermits` | server/src/parallel_fetcher.rs:355-413 | every step keeps available plus held global permits equal to the limit |
| `Fetcher.StepKeepsInv` | server/src/parallel_fetcher.rs:291-472 | every step of any task keeps the permits, the per-remote permits, the replies and the collected responses right |
| `Fetcher.LimitsRespected` | server/src/parallel_fetcher.rs:302-413 | in every reachable state permits are conserved, requests in flight (listings included) stay within the total limit, and node fetches of one remote within the per-remote limit |
| `Fetcher.NodeLimitReached` | server/src/parallel_fetcher.rs:375-413 | the bound is reached: a remote with enough nodes can have as many node fetches running at once as both limits allow |
| `Fetcher.TotalLimitReached` | server/src/parallel_fetcher.rs:302-315 | with enough remotes as many requests can be in flight at once as the total limit allows |
| `Fetcher.HolderCanMove` | server/src/parallel_fetcher.rs:395-472 | a task that holds a global permit can always move on its own, also while it waits for a per-remote one |
| `Fetcher.NoDeadlock` | server/src/parallel_fetcher.rs:341-472 | every run that can go no further has joined all tasks, if and only if the limits are not zero where they matter |
| `Fetcher.ZeroLimitDeadlocks` | server/src/parallel_fetcher.rs:247-258 | with a limit of zero where it matters there is a run that gets stuck with a task unjoined |
| `Fetcher.OneRemoteDeadlocks` | server/src/parallel_fetcher.rs:302-315 | with one remote and a total limit of zero no step is possible at all |
| `Fetcher.StepWeighsLess` | server/src/parallel_fetcher.rs:341-472 | every step lowers a measure, so every run ends |
| `Fetcher.EveryRunCompletes` | server/src/parallel_fetcher.rs:291-339 | every run is bounded, and with sufficient limits a run that can go no further has collected one response per remote whose task did not panic, each fitting its plan |
| `Fetcher.CollectedExactly` | server/src/parallel_fetcher.rs:415-472 | in a finished fetch the response of a listed remote holds every node response exactly as often as there are nodes of that name whose handler gave that result, failed handlers included; only panicked ones are missing |
| `Fetcher.OutcomeExactly` | server/src/parallel_fetcher.rs:341-448 | nothing is collected for a remote exactly if its task panicked; a failed listing gives its error, and a remote without a listing its one reply under the name of the local host |
| `FetcherResponse.GetRemoteResponse` | server/src/parallel_fetcher.rs:121-126 | the binary search finds a response if and only if a linear search does, and with distinct names the same one |
| `FetcherResponse.ResponseAnswersPlan` | server/src/parallel_fetcher.rs:325-338 | the assembled response is sorted and holds exactly the collected responses; if the remotes have different names, a linear search for one gives the answer of its own plan; a search for an unknown name gives nothing |
| `FetcherResponse.LookUp` | server/src/parallel_fetcher.rs:121-126 | binary search in the sorted response of a complete fetch: an answer exactly if a task for that name did not panic, it fits that task's plan, and with distinct names it is the one a linear search finds |
| `Ordering.SortByCorrect` | server/src/parallel_fetcher.rs:336-336 | sorting by name gives a sorted permutation |
| `Ordering.SortByStable` | server/src/parallel_fetcher.rs:336-336 | responses with the same name keep their order |
| `Ordering.AtMostExactly` | server/src/parallel_fetcher.rs:336-336 | the order of names is the lexicographic one: a beginning comes first, else the first difference decides |
| `Ordering.BinarySearch` | server/src/parallel_fetcher.rs:121-126 | the halving loop finds an element with the key exactly if there is one |
| `Sdn.Fabric.TakeLocks` | server/src/sdn_client.rs:195-236 | locks are taken in turn until a name is unknown or its lock refused, each exactly once |
| `Sdn.Fabric.FromRemoteNames` | server/src/sdn_client.rs:189-242 | the outcome of locking: the configuration was unreadable, a name unknown, a lock failed and earlier ones were released, or all are locked and the clients come back sorted by remote |
| `Sdn.Fabric.ForEach` | server/src/sdn_client.rs:249-317 | one callback per client; if all succeed the same clients come back, if one fails every client is rolled back and none come back |
| `Sdn.Fabric.ApplyAndRelease` | server/src/sdn_client.rs:366-442 | one apply per client, and success exactly if every accepted apply whose task id can be read has a reload task that succeeds |
| `SdnTransaction.AnsweredAt` | server/src/sdn_client.rs:249-317 | in a round of calls to different remotes each remote shows exactly the effect of its own call |
| `SdnTransaction.LocksDiffer` | server/src/sdn_client.rs:68-84 | remotes whose locks were all granted differ from each other, since a locked remote refuses another lock |
| `SdnTransaction.LockFailureAttempts` | server/src/sdn_client.rs:197-206 | a failed attempt asked each name up to the failing one for its lock, in turn, all granted but the last |
| `SdnTransaction.LockFailureReleases` | server/src/sdn_client.rs:206-220 | then exactly one release is sent to each earlier remote and to no other |
| `SdnTransaction.LockFailureLocks` | server/src/sdn_client.rs:206-220 | after that each earlier remote is as before the attempt, or its release took no effect and it is still locked |
| `SdnTransaction.LockFailureConfigs` | server/src/sdn_client.rs:195-241 | a failed attempt to lock changes no running or pending configuration anywhere |
| `SdnTransaction.UnknownRemoteKeepsLocks` | server/src/sdn_client.rs:197-198 | an unknown name ends the attempt with all earlier locks held and no release sent |
| `SdnTransaction.LostReplyKeepsLock` | server/src/sdn_client.rs:201-220 | a lock that was taken although its request failed stays, since no release is sent to that remote |
| `SdnTransaction.NoLockLeftExactly` | server/src/sdn_client.rs:182-242 | a failed attempt leaves all locks as they were if and only if the configuration was unreadable, the first name unknown, or the refused lock was not in fact taken and every release took effect |
| `SdnTransaction.UnknownNameLeavesLock` | server/src/sdn_client.rs:197-198 | two names, the second not configured: the lock of the first stays |
| `SdnTransaction.LostReplyLeavesLock` | server/src/sdn_client.rs:201-220 | one remote takes the lock but its reply is lost: the attempt fails and the lock stays |
| `SdnTransaction.LockedMeaning` | server/src/sdn_client.rs:197-241 | after successful locking there is one client per name, sorted by remote, all remotes different, unlocked before, locked now and otherwise unchanged; unless pending changes are allowed, none had any |
| `SdnTransaction.FailedCallbackRollsBack` | server/src/sdn_client.rs:278-312 | if a callback fails every client is rolled back exactly once; each remote is then unlocked with no pending changes, or its rollback took no effect |
| `SdnTransaction.CallbacksKeepLocks` | server/src/sdn_client.rs:249-317 | if no callback fails the same clients come back in order, all still locked, running what they ran |
| `SdnTransaction.Transact` | server/src/sdn_client.rs:189-442 | the three stages together end in exactly one of the described outcomes; after applying, success is reported exactly if every accepted apply whose task id can be read has a reload task that succeeds |
| `SdnTransaction.NotAppliedHasCause` | server/src/sdn_client.rs:189-317 | a transaction that does not get to apply has an unreadable configuration, a name that is not configured, a lock that was not granted, or a callback that did not succeed |
| `SdnTransaction.ReloadDecides` | server/src/sdn_client.rs:387-442 | a whole transaction in which every call succeeds: it reports failure exactly if the id of the reload task can be read and the task fails, and the remote runs the edit in any case |
| `SdnTransaction.NothingAppliedNothingChanged` | server/src/sdn_client.rs:189-317 | in every run that ends before applying no remote's running configuration has changed |
| `SdnTransaction.ApplyNeedsEverySuccess` | server/src/sdn_client.rs:366-379 | an apply is issued only after the granted lock of every name, in turn, and then the successful callback of every client, in order of arrival, and nothing else |
| `SdnTransaction.AppliedRunsCallbackEdit` | server/src/sdn_client.rs:366-412 | one apply per client, and where it took effect the remote runs exactly what its own callback wrote |
| `SdnTransaction.OkMeansApplied` | server/src/sdn_client.rs:366-442 | a transaction that reports success has every remote unlocked, reloaded and running its own callback's edit if and only if every apply call took effect and no reload task that was not waited for failed |
| `SdnTransaction.RefusedApplyReportsOk` | server/src/sdn_client.rs:403-408 | a whole transaction on one unlocked remote whose apply call is lost: it reports success, the remote runs what it ran, and the lock stays |
| `NamespacedCache.PathsDiffer` | server/src/namespaced_cache.rs:666-674 | for safe identifiers entry files and lock files of different namespaces or keys differ, and no entry is a lock file |
| `NamespacedCache.Namespace.Get` | server/src/namespaced_cache.rs:538-584 | a value is returned only if stored and, with a maximal age, at least zero and less than it old; which errors occur exactly when |
| `NamespacedCache.Namespace.Set` | server/src/namespaced_cache.rs:615-649 | writes the one entry and nothing else, or fails and writes nothing |
| `NamespacedCache.Namespace.SetIfNewer` | server/src/namespaced_cache.rs:586-613 | writes the entry, or returns the strictly newer one and leaves all files alone; an unreadable entry is overwritten, an error changes nothing |
| `NamespacedCache.Namespace.Remove` | server/src/namespaced_cache.rs:651-664 | the key is gone whether or not it was there, and all other files stay |
| `NamespacedCache.NewestWins` | server/src/namespaced_cache.rs:586-613 | after any writes to a key that held nothing readable the entry is the last one among those with the greatest timestamp |
| `NamespacedCache.EntryIsFirstWrite` | server/src/namespaced_cache.rs:593-598 | a key that held an entry behaves as if that had been the first write |
| `NamespacedCache.TimestampGrows` | server/src/namespaced_cache.rs:593-598 | the stored timestamp never decreases |
| `NamespacedCache.KeySeesItsWrites` | server/src/namespaced_cache.rs:586-674 | in any run on any keys of any namespaces a key sees its own writes and no others |
| `NamespacedCache.NewestStored` | server/src/namespaced_cache.rs:586-674 | the last newest write to a key is what it holds after any such run |
| `UpdateSummary.ReconcileNodes` | server/src/remote_updates.rs:273-300 | retaining and inserting leaves exactly the nodes that answered, each with the summary of its last answer |
| `UpdateSummary.ReconcileRemote` | server/src/remote_updates.rs:271-308 | an entry shows what its response says, nodes or error, whatever it showed before |
| `UpdateSummary.Reconcile` | server/src/remote_updates.rs:250-309 | the final pass leaves exactly the remotes of the response, each showing its last response |
| `UpdateSummary.ReconciledIsTarget` | server/src/remote_updates.rs:250-309 | there is exactly one such content |
| `UpdateSummary.ResponseDetermines` | server/src/remote_updates.rs:250-309 | apart from remote types the response alone determines the outcome; the types are those of the response if and only if no cached type differs |
| `UpdateSummary.TypeStaysStale` | server/src/remote_updates.rs:261-269 | a cached type that differs from the response stays |
| `UpdateSummary.NodeShown` | server/src/remote_updates.rs:30-53 | after the pass a node whose last answer was fetched shows a success with its refresh time, versions, repository status and number of updates, as a 32-bit number; one whose last answer failed shows an error with that message and nothing else |
| `UpdateSummary.FailedRemoteShown` | server/src/remote_updates.rs:302-308 | a remote whose nodes could not be listed shows that error and no nodes |
| `UpdateSummary.NothingElseShown` | server/src/remote_updates.rs:255-278 | no other remote is shown, and no node that did not answer |
| `UpdateSummary.TypeShown` | server/src/remote_updates.rs:261-269 | a cached type stays, a new remote has the type of its first response |
| `UpdateSummary.RerunChangesNothing` | server/src/remote_updates.rs:250-309 | running the pass again changes nothing |
| `UpdateSummary.EarlierWriteDoesNotShow` | server/src/remote_updates.rs:231-309 | a node write before the pass does not show in its outcome |
| `UpdateSummary.GetSummaryOrDefault` | server/src/remote_updates.rs:184-191 | missing, corrupt and unreadable entries read as the empty summary |
| `UpdateSummary.UpdateNode` | server/src/remote_updates.rs:200-224 | sets this node in the old summary, or in an empty one if that cannot be read: an existing entry keeps status, message, type and other nodes, a new one is a success without a message, other remotes stay; a failed write changes nothing |
| `UpdateSummary.FinishRefresh` | server/src/remote_updates.rs:250-310 | the cache entry becomes the reconciled content; a failed write changes nothing |
| `SummaryWriters.StepKeepsInv` | server/src/remote_updates.rs:194-224 | every step of every writer or reader, failing or killed, keeps the lock exclusive, a loaded copy current, and the stored summary equal to the completed writes |
| `SummaryWriters.EveryRunIsSerial` | server/src/remote_updates.rs:194-224 | in every interleaving the stored summary is that of the completed writes one after the other; they are those of the writers that ended well, each once, and every reader saw a prefix of them |
| `SummaryWriters.ReaderSeesCommits` | server/src/remote_updates.rs:194-198 | a reader sees every write committed before it got its lock, and the empty summary exactly if its read fails |
| `SummaryWriters.LastCommitExactly` | server/src/remote_updates.rs:200-310 | the last committed write sets its node or reconciles with its response, starting from what the writes before it left |
| `SummaryWriters.LockFreeExactly` | server/src/namespaced_cache.rs:99-172 | a waiting reader can get its lock exactly if no writer has it, a waiting writer exactly if nobody has it |
| `SummaryWriters.FailsExactly` | server/src/remote_updates.rs:194-224 | a process fails exactly if it is killed, does not get its lock or cannot write; a failing read does not end it |
| `SummaryWriters.RefreshHasTheLastWord` | server/src/remote_updates.rs:231-315 | after the final pass of a refresh the cache shows the response, whatever was written before and in whatever order |
| `SummaryWriters.LatestWordStored` | server/src/remote_updates.rs:200-224 | what the cache says about a node is the latest word of the completed writes on it |
| `SummaryWriters.BlankExactly` | server/src/remote_updates.rs:184-224 | in every run a write starts from an empty summary exactly if the read of its writer failed |
| `SummaryWriters.KeptExactly` | server/src/remote_updates.rs:184-224 | in every run a node's update survives later writes of other nodes if and only if the read of none of their writers failed |
| `SummaryWriters.FailedReadLosesNodes` | server/src/remote_updates.rs:184-191 | a run of two writers, whatever the cache held, in which the failed read of the second loses the first one's node |
| `JobState.LastRunIsRecorded` | server/src/jobstate.rs:128-185 | the last run time depends on the state file alone, not on whether the task runs or how it ended |
| `JobState.Job.Start` | server/src/jobstate.rs:211-221 | succeeds exactly if the job is not started and the write works; then every reader gets the task's start time, whatever became of the worker, and a running state exactly while the worker runs; an error leaves the file alone |
| `JobState.Job.Finish` | server/src/jobstate.rs:225-240 | succeeds exactly if a task was started and the write works; then every reader gets this result and the start time of the same task, whatever became of the worker; an error leaves the file alone |
| `JobState.UpdateLastRunTime` | server/src/jobstate.rs:103-124 | a schedule change touches neither a locked nor a running job; of any other job every reader gets the current time as last run time afterwards, unless the write fails; a recorded task and its result stay, and a task that stopped unrecorded gets the result its worker left, or an unknown one |
| `JobState.CreateStateFile` | server/src/jobstate.rs:95-98 | unless the job is locked or the write fails, every reader gets the current time as last run time afterwards |
| `JobState.LastRunNeverDecreases` | server/src/jobstate.rs:95-256 | over any run of sessions, crashes, failed writes and schedule changes the last run time never decreases, if tasks are created during their session and in order |
| `JobState.StepLowersExactly` | server/src/jobstate.rs:103-256 | an action lowers the last run time if and only if it writes, by a start or by a finish, a task whose start time is before one its session already wrote |
| `JobState.RunLowersExactly` | server/src/jobstate.rs:103-256 | in a run of timely starts what readers get never goes down if and only if no action is such a one |
| `JobState.RestartMayLower` | server/src/jobstate.rs:211-240 | a session with two starts that lowers it at the second start |
| `JobState.FinishMayLower` | server/src/jobstate.rs:211-240 | a session in which the write of the second start fails lowers it at the finish |
| `JobState.FinishedIsLatest` | server/src/jobstate.rs:103-256 | a recorded task is the one started last, if no write of a start failed |
| `JobState.RecordedTaskExactly` | server/src/jobstate.rs:103-256 | with fresh task ids a recorded task is the one started last if and only if that start was written or a finish after it in the same session was |
| `JobState.FailedStartKeepsOldTask` | server/src/jobstate.rs:211-221 | after a start whose write fails the file names the earlier task |
| `ConnectionCache.ConnectionCache.MakeClient` | server/src/connection.rs:331-352 | a returned client was built from a config equal to the one asked for; it is the cached one exactly if that config is cached; a failed connection changes nothing |
| `ConnectionCache.ConnectionCache.CleanupCycle` | server/src/connection.rs:323-329 | drops exactly the clients not used for longer than the timeout |
| `RemoteUpid.SplitOnce` | lib/pdm-api-types/src/remote_upid.rs:196-199 | splits exactly at the first occurrence of the separator, if there is one |
| `RemoteUpid.RoundTrip` | lib/pdm-api-types/src/remote_upid.rs:174-210 | printing and parsing is the identity, also if the inner id contains separators |
| `RemoteUpid.ParseExactly` | lib/pdm-api-types/src/remote_upid.rs:105-204 | a string reads as a task if and only if it is its printed form, or its older form and the type can be told from the inner id |
| `RemoteUpid.ParseErrors` | lib/pdm-api-types/src/remote_upid.rs:120-204 | which error a string that is not read gives: no separator, a bad remote, a bad type, or an inner id that tells no type |
| `RemoteUpid.PrintNormalizes` | lib/pdm-api-types/src/remote_upid.rs:192-210 | both forms normalize to one printed form, and different tasks have different ones |
| `RemoteUpid.ParseForRemoteExactly` | cli/client/src/upid.rs:5-25 | a string that names a remote is read exactly if it is a form of a task and no other remote was asked for; one that does not, exactly if it is one with the given remote in front; and when the two errors occur |
| `RemoteUpid.RemoteExactly` | cli/client/src/upid.rs:5-25 | a task read for a remote belongs to it if and only if the string names the remote itself or the given name has no separator |
| `RemoteUpid.SafeRemoteKept` | cli/client/src/upid.rs:5-25 | every task read for a remote with a safe name belongs to it |
| `RemoteUpid.SeparatorMisleads` | cli/client/src/upid.rs:19-23 | the function itself reads a name that begins with a type and a separator as another remote, whichever type, remote and task id |

## Left out

- HTTP, TLS, tokens and login: a request is an outcome drawn from connect error, client error, reply and timeout.
- The remote mapping cache and its back-off: reachability answers and back-off verdicts are given from outside, and may change at every step.
- Counter wrap-around in the running failover model: the counter is unbounded there; what wrapping would do is stated separately by `Modular.WrapKeepsEntriesApart`.
- The order in which waiting tasks get permits: the fetcher model allows every order, so its results do not depend on fairness.
- Changes to a remote's SDN configuration by anyone else during a transaction: only the calls of the transaction change remotes.
- The split of SDN callbacks into several API calls: one callback is one call that edits the pending configuration.
- Cancelled requests as a case of their own: a write that was already handed to a blocking task lands although nobody waits for it, so its writer counts as one that goes on; a cancelled writer before that is a killed one.
- Atomic file replacement, file locks and serialization are taken to work; a crash falls before or after a write, never inside it.
- Overflow of 64-bit timestamps: times are unbounded integers.
- `remove_state_file` and `compute_schedule_status` of the job state: the results are about a state file that exists and stays.
- The grammars of inner PVE and PBS task ids: they are arbitrary predicates.
- Subscription keys and their classification (`lib/pdm-api-types/src/subscription.rs`): splitting and matching of fixed key formats.
- Repository status checks, enum display tables, access control paths and view filters: settled by reading one branch.
- The user interface, the command line programs, the client library and the control plane described in `nexus/README.md`.
- Failover.NoEntryTwice: does not promise that every entry is tried, because that is false; `Failover.DrainedReach` has the exact condition.
- Failover.AloneAllReachable: asks for host names that differ, because without that it is false; `Failover.AloneOutcome` has the exact condition for all host lists.
- JobState.LastRunNeverDecreases: asks for the starts of one session to be in order, because without that it is false; `JobState.RunLowersExactly` has the exact condition.
- ConnectionCache.ConnectionCache.MakeClient: does not model the token lookup of a new connection, only that it may fail.
