# local-preview: verification model

local-preview builds each commit of a repository into content-addressed artifacts, runs one process per
backend artifact on demand, and may spread those processes over a fleet of workers. This project models the
stateful parts of it in Dafny and proves what they promise over every input and every run.

`dafny verify dfyconfig.toml` checks everything.

## How it is organised

| Files | Subject |
|---|---|
| Keys, Supervisor, SupervisorAnswers | The process table and what its callers are told: callers, start goroutines, exit watchers and stops interleave; every critical section or channel operation is one step. |
| InitProtocol, InitOnce | When init steps run, and when not again: the offer, the sticky wire cache, adoption, revocation, lost replies and worker reboots. |
| Reap, ReapRuns, Quotas, Placement | One node's warm policy, its passes interleaved with the processes, the split of the fleet's floor into per-worker quotas, and where a key is placed. |
| DeployNetwork | The Docker network a backend and its frontend share, removed by the last one out. |
| Reachability, Retention | Which commits fell out of branch history, and which deploys and artifacts a sweep reclaims. |
| Publish, TarArchive, TarNames, TarAgain, TarLinks, Hydrate, CacheEviction | The store: atomic publishing and forking, tar save and extract, names and links of archives, extracting again, refilling and trimming the cache. |
| Globs, Watch, WatchAnswers, WatchRuns | The watcher: branch patterns, one pass over a repository and what it asks for, and passes interleaved with everything else. |
| Compress, ExecStream, LogCursor | Streams: the compressing response writer, the exec frame protocol, incremental log views. |
| Basics, Sequences | The option type and bytes, and a few sequence and set rearrangements. |

Concurrent code is a state machine: a `Step` datatype, `Enabled`, `Apply`, an invariant every step keeps, and
theorems about every state of every run. Objects the program mutates are classes whose methods are proved
against functions on values; the theorems are about those functions. Where a machine and a class describe the
same code, the contract names the step the method is (`Supervisor.Manager.EnsureLookup`, and the methods of
`InitProtocol.Manager` in terms of the worker's operations and the row's update), states what the machine's invariant
needs (`Supervisor.Manager.ForgetEntry`), or a lemma turns the call into a run of steps
(`WatchRuns.ReconcileIsARun`, `Publish.PublishIsARun`, `Publish.ForkIsARun`).

## Assumptions about the surroundings

- Docker refuses to remove a network while an endpoint is attached, and a network lookup is by name.
- Go's os.Rename is two steps. It looks at its target first and refuses a directory; the rename(2) that follows is
  atomic, takes a free name or an empty directory, and fails on any other.
- A path lookup follows links, at most 40 of them, and ".." leads to the parent of the directory it reached.
- A database transaction is one step, and a table is a map.
- net/http commits the first final status; an informational one (1xx other than 101) commits nothing; a body or
  a flush without a header commits 200. A gzip stream is packed chunks, sync marks and one end mark.
- The rendezvous hash, `path.Match` and the notion of white space are parameters. Distinct weights are assumed
  only where a lemma says so.
- Times are integers. Placement load is an exact real quotient.

## Where the code does less than its comments say

Each is a lemma with a concrete input, beside a lemma that says exactly when the promise holds.

- A start whose `CreateContainer` fails never gives its network back: `DeployNetwork.CreateFailureLeaks`;
  exactly those networks remain: `LeftoverIffCreateFailed`.
- A fork does nothing when the state directory exists, its comment says. A fresh state directory created while a
  fork is inside os.Rename, after the look, is replaced: `Publish.EmptyDirectoryIsReplaced`. That and an
  overwriting publisher are all that ever changes a directory: `ExistingChangesIff` for a step, `PublishedStays` for
  a run. Unraced, nothing existing changes, empty or not: `AtomicRenameKeepsExisting`; an artifact never does:
  `ArtifactNeverChanges`.
- Entry names are checked as written, and extraction follows links that earlier entries made, so an entry can land
  elsewhere than its name says: `TarLinks.EntryLandsElsewhere`. It lands where it says exactly if it meets no link:
  `PlaceIsNameIff`; its path leaves the root exactly if it meets a link that leads out: `LeavesIffMeetsWayOut`, and
  `ArchiveLeavesIff` for whole archives; `LeavingHappens` shows that both sides occur. An archive in which no entry
  passes an earlier link changes nothing outside: `ExtractionStaysInside`.
- An archive of directories only is refused on extraction: `TarArchive.OnlyDirectoriesFail`; `RoundTrip` is an
  equivalence.
- A quiet poll is said to decide as a full one would. It works from stale tips after somebody else's fetch brought a
  push in, or after a pass failed past its fetch, and the push is then missed until refs move again:
  `WatchRuns.OutsideFetchHidesAPush`, `FailedPassHidesAPush`; these are the only two ways: `SyncUntilDisturbed`;
  the condition for one poll is `QuietPollExact`.
- With no surviving tips every commit is unreachable, but an origin that lost all its refs is read as unchanged:
  `WatchRuns.EmptiedOriginKeepsItsTips`. Nothing the old tips reach is reclaimed until a push:
  `EmptiedOriginReclaimsNothing`; `QuietPollExact` and `PollSeesTheOrigin` cover such origins.
- A commit still on some branch is never evicted, the comment says. From such stale tips it can be:
  `WatchRuns.OutsideDeployIsEvicted`; it cannot exactly if the pass's tips cover the mirror's:
  `EvictionSparesLiveIff`, as after every run without those two: `UndisturbedEvictionSparesLive`.
- A deploy left building when its commit fell out of history is said to be caught on a later poll. Quiet polls do not
  look: `WatchAnswers.BuildingDeployIsMissed`; `PollEvictsIff` is what a poll marks.
- Turning watching off and on while a pass is under way deploys the tips that were there:
  `OffAndOnDeploysOldTips`, `LoadedPassDeploysOldTips`; `SwitchUnderAPass` is the condition under which such a pass
  asks for nothing, wherever it is.
- An informational status before the real one makes the compressing writer deliver 200:
  `Compress.EarlyHintsLoseTheStatus`; `SameAsDirect` says when the status is kept.
- A flush before any header or body leaves a large body packed under a header that does not say so:
  `Compress.FlushFirstBreaksTheBody`; this is exactly when: `MisdeclaredIff`.
- The pushed quotas are said to protect exactly the fleet's top. They are counted over reported processes, starting
  ones included, and a worker protects ready ones only: `Quotas.StartingProcessTakesAQuota`. They do exactly if all of
  the top is running: `DistinctTouchesProtectExactly`, and `ProtectTheTopIff` with ties.
- Actively used processes are never pruned, and a backend never reaped while its frontend runs, as of the snapshot a
  pass decides on. One touched or started since is stopped all the same: `ReapRuns.TouchedProcessIsStopped`; exactly
  when: `PrunedWhileActiveIff`, `IdledOutWhileUsedIff`, `NewAttemptStoppedIff`; and `StrandedFrontendIsNew`.
- The waiting page numbers build logs 1 and 2 and run logs from 1, so going from one to the other can keep the old
  text and skip the new log's beginning: `LogCursor.EqualNumbersMixLogs`; `SwitchResets` is the condition.
- An exec stream cut between a frame's header and its payload ends like a clean end of stream:
  `ExecStream.TruncatedFrameFails`; there and at the end of a frame are the only places: `CutStreamKeepsFrames`.

## Model

| member | source | states |
|---|---|---|
| Supervisor.StepKeepsInv | internal/supervise/supervise.go:405-491 | Every interleaving of callers, starts, exit watchers and stops keeps the process table, the key locks and what callers and stoppers were told consistent. |
| Supervisor.RunKeepsInv | internal/supervise/supervise.go:877-1063 | So every state of every run is consistent. |
| Supervisor.AtMostOneLiveProcess | internal/supervise/supervise.go:405-491 | A launched process that has not exited is the tracked entry of its key, so a key has at most one live process and at most one start past the key lock. |
| Supervisor.ChannelsCloseOnce | internal/supervise/supervise.go:877-1063 | ready, failed and done are closed at most once, ready and failed exclude each other, and a start that is over closed exactly one of them. |
| Supervisor.ReturnedPortPassedHealth | internal/supervise/supervise.go:405-465 | A port EnsureRunning returned is that of a launched process of the asked key which passed its health check. |
| SupervisorAnswers.ReadyAnswer | internal/supervise/supervise.go:446-456 | In every run a caller that sees its process ready is given the port exactly if the process had not been seen to exit. |
| SupervisorAnswers.LostIsDroppedOrRetried | internal/supervise/supervise.go:446-465 | When the process died or failed, the caller's next step leaves it untracked; a caller in its first round asks again after a death, in its second it is refused, and a failed start is not retried. |
| SupervisorAnswers.RefusalHasReason | internal/supervise/supervise.go:405-465 | A call is turned down only after a shutdown, its own patience, a failed start, or two processes in a row that died after becoming ready. |
| SupervisorAnswers.PortWasLaunched | internal/supervise/supervise.go:975-1063 | A returned port is the one its process was launched with, before its health check passed and before ready was closed. |
| SupervisorAnswers.WaiterIsServed | internal/supervise/supervise.go:405-465 | In every state of every run a waiting caller can take its answer, or the start it waits for can move, or whoever holds that start's key lock can. |
| SupervisorAnswers.StopIsServed | internal/supervise/supervise.go:1336-1384 | A stop that has not returned can move, or whoever holds its key lock can. |
| SupervisorAnswers.HoldersHold | internal/supervise/supervise.go:388-397 | A key lock that is taken is held by a start past it or a stop that has not returned. |
| Supervisor.StopLeavesItDead | internal/supervise/supervise.go:1344-1384 | A process that Stop found launched has exited and is no longer tracked when Stop returns. |
| Supervisor.ShutdownCreatesNothing | internal/supervise/supervise.go:1406-1419 | From the moment shutdown began no new attempt enters the process table. |
| SupervisorAnswers.StoppingIff | internal/supervise/supervise.go:1406-1419 | The supervisor is shutting down exactly after a Shutdown step. |
| SupervisorAnswers.AfterShutdown | internal/supervise/supervise.go:405-412 | After it whoever asks is refused and no attempt is tracked that was not before. |
| Supervisor.StopAfterLaunchKills | internal/supervise/supervise.go:1344-1419 | A process that was launched when a stop of its key was requested, by shutdown or anybody, has exited once that stop returned, however it returned. |
| Supervisor.RunKeepsProcess | internal/supervise/container.go:148-174 | An entry is forgotten only after failing or exiting, and a closed channel or a launch is never undone. |
| Supervisor.Manager.EnsureLookup | internal/supervise/supervise.go:405-465 | The locked part of one round is exactly the Lookup step: it joins the tracked process or tracks a new attempt, clears the key's failure for a new attempt only, touches the process and a paired frontend's backend, and counts the round once, warm exactly if it joined a ready process. |
| Supervisor.LookupKeepsInv | internal/supervise/supervise.go:405-465 | A consistent table meets what the lookup needs and is consistent after it. |
| Supervisor.TouchedIff | internal/supervise/supervise.go:435-444 | A touch gives the process, and the tracked backend of a paired frontend, the new time and leaves all others theirs. |
| Supervisor.Manager.ForgetEntry | internal/supervise/supervise.go:485-491 | Afterwards the process is not tracked under the key, a newer attempt that took its place is, no other key moved, and for a failed or exited process the table stays consistent. |
| InitProtocol.RunKeepsWorker | internal/supervise/supervise.go:586-690 | Each critical section of a worker keeps cache, revocation mark and start in agreement with the log of inits, skips and revocations. |
| InitProtocol.StepKeepsInv | internal/workerapi/client.go:76-115 | Any delivery, loss, reboot or worker step keeps every "init done" claim backed by an init that succeeded. |
| InitProtocol.FlagTracesBackToInit | internal/supervise/supervise.go:947-970 | A set flag in the control row or a worker cache, and any skipped init, comes after a successful init in the run. |
| InitProtocol.NoSkipAfterRevocation | internal/supervise/supervise.go:657-690 | Within one worker boot no start skips init after a revocation until an init succeeded there, whatever is offered. |
| InitProtocol.ReInitNeedsFailedSkip | internal/supervise/supervise.go:1032-1055 | Between two successful inits of one boot a start skipped init, never went healthy and revoked. |
| InitProtocol.Manager.OfferWireSpec | internal/supervise/supervise.go:586-599 | An offer is sticky except under a revocation: the cache says done exactly if nothing is revoked and the offer or the cache before did. It is the worker's offer step and touches no other key. |
| InitProtocol.Manager.HandleEnsure | internal/workerapi/server.go:94-116 | Both shipped specs are offered before the start, nothing else moves, and the reply is 502 exactly if the start failed. |
| InitProtocol.Manager.LoadInitDone | internal/supervise/supervise.go:696-769 | The start reads the row if there is one, the wire cache otherwise, and treats a revoked flag as unset. |
| InitProtocol.Manager.MarkInitDone | internal/supervise/supervise.go:624-636 | Recording a success lifts the revocation and marks the cache, and writes the row only for a start that came from it; the start fails exactly if that write does. |
| InitProtocol.Manager.RevokeAfterFailedSkip | internal/supervise/supervise.go:657-672 | A revocation is remembered for the boot and clears the cache, whether or not the update of the row it came from succeeds. |
| InitProtocol.Manager.SettleEnsure | internal/workerapi/client.go:76-115 | A success that shipped "not done" adopts and a start failure that shipped "done" revokes, in the row as far as its update succeeds; every other outcome leaves the row alone, and only that failure revokes in memory. |
| InitOnce.OfferedDoneIsHonoured | internal/supervise/supervise.go:586-599 | A start skips init exactly if nothing is revoked and the cache or an offer since says done, on a worker that just booted too. |
| InitOnce.SuccessIsRemembered | internal/supervise/supervise.go:624-636 | However a start that ran init ends, the next one on that worker skips init, whatever is offered. |
| InitOnce.FailedSkipRerunsInit | internal/supervise/supervise.go:657-672 | A start that skipped init and never went healthy makes the next one run it, even if done is offered again. |
| InitOnce.OtherEndsKeepTheFlag | internal/supervise/supervise.go:1032-1063 | No other end of such a start does. |
| InitOnce.FailedInitIsRetried | internal/supervise/supervise.go:938-970 | After a failed init the next start runs it again. |
| InitOnce.RowMovesIff | internal/workerapi/client.go:76-115 | The control row moves exactly on a recorded reply that proves it wrong: a success that shipped "not done", or a start failure that shipped "done". |
| InitOnce.EnsureRunsInitIff | internal/workerapi/server.go:94-116 | An ensure makes a worker run init unless the row or the worker's cache says done and nothing is revoked there. |
| InitOnce.AdoptionReachesWorkers | internal/workerapi/client.go:76-115 | A recorded success spares every other unrevoked worker its init. |
| InitOnce.RevocationReachesWorkers | internal/workerapi/client.go:76-115 | A recorded start failure makes every worker whose own cache does not say done run init. |
| Reap.SortedCandidates | internal/supervise/supervise.go:1094-1119 | Lists every ready, running process once, most recently touched first, backends before frontends on a tie. |
| Reap.FloorIsHead | internal/supervise/supervise.go:1111-1125 | The head of that list is a choice of the most recent processes of the asked size. |
| Reap.PairedBackends | internal/supervise/supervise.go:1096-1108 | The backends shielded are exactly those a touched live frontend names as its peer. |
| Reap.StopIdle | internal/supervise/supervise.go:1122-1140 | Past the floor exactly the unpaired processes over their idle limit stop, the server-wide one when it is set and their own otherwise, and the rest stays in order. |
| Reap.Prune | internal/supervise/supervise.go:1142-1161 | Prunes at most the excess, oldest first, and never a floor, paired or active process. |
| Reap.Reap | internal/supervise/supervise.go:1087-1161 | One pass stops exactly the idle ones outside the floor, by the server-wide limit when set, prunes only processes untouched for two minutes, oldest first and not below the target; above the target only unprunable ones remain. |
| Reap.ExposedIff | internal/supervise/supervise.go:1091-1130 | What a pass may stop: healthy processes outside the floor that are not the backend of a live, touched frontend. |
| Reap.FloorMeans | internal/supervise/supervise.go:1111-1125 | A floor that leaves a healthy process out has the asked size, and keeps none touched earlier than it, nor a frontend before a backend touched at the same time. |
| ReapRuns.StopsWereChosen | internal/supervise/supervise.go:1087-1161 | Whatever starts, is touched or exits meanwhile, a pass stops only keys its snapshot exposed: past the floor, unpaired, and timed out or prunable then. |
| ReapRuns.QuietPassStopsItsChoices | internal/supervise/supervise.go:1087-1161 | A pass that nothing disturbs leaves the table exactly the entries its snapshot chose neither for idling nor for pruning. |
| ReapRuns.PrunedWhileActiveIff | internal/supervise/supervise.go:1142-1161 | A process that pruning stops is in active use exactly if its key was touched or tracked anew since the snapshot, within the window. |
| ReapRuns.IdledOutWhileUsedIff | internal/supervise/supervise.go:1122-1140 | A process stopped for idling has not idled for its limit exactly if its key was used since the snapshot, that recently. |
| ReapRuns.NewAttemptStoppedIff | internal/supervise/supervise.go:1087-1161 | The process stopped is another than the one chosen exactly if a new attempt was tracked since. |
| ReapRuns.StrandedFrontendIsNew | internal/supervise/supervise.go:1080-1108 | A backend stopped under a running frontend lost it to one that became ready or was touched since the snapshot. |
| ReapRuns.TouchedProcessIsStopped | internal/supervise/supervise.go:1087-1161 | A run in which a process just touched is stopped for idling. |
| Quotas.MinWarmQuotas | internal/fleet/fleet.go:178-206 | The quotas count, worker by worker, a choice of the fleet's most recent live processes of size min(floor, live), and add up to it. |
| Quotas.QuotasProtectTheTop | internal/fleet/fleet.go:154-206 | If what the quotas count is running, workers that each keep a floor of their quota keep together as many as the fleet floor, and no live process left out, started or not, was touched later than one kept. |
| Quotas.ProtectTheTopIff | internal/fleet/fleet.go:154-206 | However ties are broken, they do so exactly if some choice of the fleet's most recent that fits the quotas is running throughout. |
| Quotas.DistinctTouchesProtectExactly | internal/fleet/fleet.go:154-206 | With distinct touches they protect exactly the top that the quotas count if and only if all of it is running; what is starting below does no harm. |
| Quotas.MostRecentIsUnique | internal/fleet/fleet.go:178-206 | With distinct touches there is one choice of the most recent of each size. |
| Quotas.StartingProcessTakesAQuota | internal/fleet/fleet.go:154-206 | An instance: a process reported while it starts takes a quota its worker cannot use, and the ready one elsewhere is left unprotected. |
| Quotas.SizeByWorker | internal/fleet/fleet.go:178-206 | Two choices that agree on every worker's count have the same size. |
| Placement.TopWeight | internal/fleet/fleet.go:596-606 | Returns a worker of the list that none outweighs. |
| Placement.LeastLoaded | internal/fleet/fleet.go:610-626 | Returns a worker of least load and, among those, of greatest weight. |
| Placement.Place | internal/fleet/fleet.go:557-580 | The worker chosen is beaten by no fresh non-draining one, and there is none exactly if no worker is fresh and not draining. |
| Placement.ChoiceMeans | internal/fleet/fleet.go:550-626 | Worker by worker: the choice was heard of lately and does not drain; with room it is outweighed by none with room, and without room none has any and none is less full, or as full and heavier. |
| Placement.SameKeyIff | internal/fleet/fleet.go:583-593 | Two artifacts hash alike exactly if repository and backend hash, or own hash without a backend, agree. |
| Placement.ChoiceIsUnique | internal/fleet/fleet.go:557-580 | With distinct weights the choice does not depend on the order workers are listed in. |
| Placement.EqualWeightsLeaveAChoice | internal/fleet/fleet.go:596-626 | For instance, with two workers of equal weight that both have room, either may be chosen. |
| Placement.ChoicesAreTied | internal/fleet/fleet.go:596-626 | In general, next to one choice the others are exactly the workers that take placements with equal weight, and both have room or both are full with equal load. |
| Placement.RemovalMovesOnlyItsKeys | internal/fleet/fleet.go:557-580 | Removing a worker moves only the keys placed on it, among workers with room and when all are full. |
| Placement.AdditionMovesOnlyOntoIt | internal/fleet/fleet.go:557-580 | Adding a worker moves keys only onto it. |
| Placement.FullOnlyWhenAllFull | internal/fleet/fleet.go:557-580 | A full worker is chosen only if every worker that takes placements is full. |
| Placement.PairPlacedTogether | internal/fleet/fleet.go:587-593 | A frontend and the backend it is paired with get the same worker. |
| Placement.HitCounters.RecordHeartbeat | internal/fleet/fleet.go:263-284 | Totals never fall over reboots and grow by exactly what a heartbeat adds. |
| DeployNetwork.StepKeepsInv | internal/supervise/container.go:59-82 | Every start, exit, reap and purge keeps attached containers on existing networks and at most one lock holder. |
| DeployNetwork.RunningNetworkExists | internal/supervise/container.go:112-134 | In every run the network of every running container exists, a created container can always start, and running containers of one deploy share it. |
| DeployNetwork.NobodyIsStuck | internal/supervise/container.go:59-134 | In every state of every run a container that has not come to an end can take its next step, or the one that holds the lock can. |
| DeployNetwork.LastOneOutRemoves | internal/supervise/container.go:136-161 | Giving a network back removes it once nothing else is attached. |
| DeployNetwork.LeftoverIffCreateFailed | internal/supervise/container.go:112-161 | Once every container is reaped or aborted a network remains exactly if the last decision about it was a failed CreateContainer. |
| DeployNetwork.NothingLeftBehind | internal/supervise/supervise.go:1650-1657 | Without such a failure no network remains. |
| DeployNetwork.CreateFailureLeaks | internal/supervise/container.go:112-118 | A run in which one failing start leaves its network behind. |
| Reachability.Gather | internal/gitrepo/gitrepo.go:467-487 | Collects the distinct resolvable candidates in input order with their commits. |
| Reachability.Walk | internal/gitrepo/gitrepo.go:490-515 | Stopping early or not, a candidate was visited exactly if some tip reaches it. |
| Reachability.UnreachableSHAs | internal/gitrepo/gitrepo.go:458-524 | Returns exactly the distinct resolvable candidates no tip reaches, in input order, on any graph with missing commits as dead ends. |
| Reachability.SelectMeaning | internal/gitrepo/gitrepo.go:447-457 | What the result lists: each qualifying name once, nothing else, in the order of first occurrences. |
| Reachability.ClosedHoldsPath | internal/gitrepo/gitrepo.go:490-515 | Once the queue is empty nothing reachable is unvisited. |
| Retention.Store.LiveHashes | internal/supervise/supervise.go:1493-1520 | Finds exactly the hashes non-evicted deploys of the repository reference, per kind. |
| Retention.Store.GCDeploy | internal/supervise/supervise.go:1493-1549 | Removes exactly what the deploy used, no surviving deploy references and the disk lets go, and nothing when survivors cannot be listed. |
| Retention.Store.Sweep | internal/retain/retain.go:167-227 | Evicts exactly the rows wanted whose update succeeds; the disk loses exactly what they used, no survivor references and it lets go, and nothing a survivor references. |
| Retention.ShieldedDeploysSurvive | internal/retain/retain.go:188-226 | Queued, building and aliased deploys and each repository's newest ready deploy survive. |
| Retention.NewestReadySeen | internal/retain/retain.go:188-226 | The sweep's bookkeeping knows exactly the repositories whose newest ready deploy it has passed. |
| Retention.KeptCountsStaying | internal/retain/retain.go:188-226 | The running count per repository is the number of deploys so far that stay. |
| Retention.EvictedIffOverLimit | internal/retain/retain.go:188-238 | A deploy goes exactly if it is unshielded and beyond the newest that stay, or created before the cutoff; an unreadable timestamp is never before it. |
| Retention.SweepOutcome | internal/retain/retain.go:167-238 | In terms of the tables before and after, whatever limits are set: a deploy is evicted exactly if it is unshielded and the limit's number of newer ones of its repository are left, or it was created before the cutoff. |
| Retention.UsesKinds | internal/supervise/supervise.go:1493-1549 | What a deploy uses: its backend and frontend if it has them, and its downloads. |
| Retention.SecondSweepOnlyRetries | internal/retain/retain.go:167-227 | A second sweep at the same clock touches only deploys whose eviction was not recorded. |
| Retention.SecondSweepEvictsNothing | internal/retain/retain.go:167-227 | When every eviction is recorded it changes nothing. |
| Publish.StepKeepsInv | internal/store/store.go:256-286 | Staging, renames, races and crashes keep every published directory a whole tree meant for its name. |
| Publish.DestinationIsWhole | internal/store/store.go:256-345 | At every moment of every run a destination is absent or holds one whole tree some publisher, forker or fresh start brought for it. |
| Publish.ExistingChangesIff | internal/store/store.go:256-345 | A step changes an existing directory exactly if an overwriting publisher moves it aside, or a rename that looked before it appeared replaces it while it is empty. |
| Publish.PublishedStays | internal/store/store.go:256-345 | In every run a directory is the same at every moment exactly until one of these two happens to it. |
| Publish.AtomicRenameKeepsExisting | internal/store/store.go:256-345 | Without overwriting publishers, and as far as no rename is overtaken between its look and its landing, nothing that exists changes, empty or not. |
| Publish.ArtifactNeverChanges | internal/store/store.go:256-286 | A content-addressed artifact that nobody overwrites never changes, whatever races. |
| Publish.EmptyDirectoryIsReplaced | internal/store/store.go:308-345 | A fork whose rename has looked replaces the fresh state directory that appears before it lands. |
| Publish.ForkSparesSource | internal/store/store.go:317-345 | In every run no step of a fork, from beginning to end, changes the directory it forks. |
| Publish.SuccessMeansPresent | internal/store/store.go:256-345 | A publisher or forker reports success only with the destination present. |
| Publish.PublishIsARun | internal/store/store.go:256-286 | A publish alone, with any of its calls failing, is a run of the machine that ends with the directories and answer of the method `Publish`. |
| Publish.Store.Publish | internal/store/store.go:256-286 | Without faults a publish succeeds; success means the destination is there, with the new tree if it was free or is overwritten; an existing artifact is otherwise kept. |
| Publish.ForkIsARun | internal/store/store.go:317-345 | A fork alone, with any of its calls failing, is a run of the machine that ends with the directories and answer of the method `Fork`. |
| Publish.Store.Fork | internal/store/store.go:317-345 | A fork to a free name succeeds exactly if the source exists and nothing fails, and then both hold the same tree; to a taken name it succeeds and changes nothing. |
| TarArchive.TarDir | internal/s3store/tar.go:19-103 | Writes the walk in order and reports its content bytes and file count; fails exactly on an unsupported or vanished entry. |
| TarArchive.WalkBytes | internal/s3store/tar.go:19-103 | The bytes of the entries are the bytes of the tree's files. |
| TarArchive.EntryNamesStayBelowRoot | internal/store/archive.go:163-183 | As written, an accepted name has no parent step left once cleaned; where it leads is the subject of TarLinks. |
| TarArchive.EntryWithinCap | internal/store/archive.go:190-213 | One entry writes at most one byte past the cap, and none past it without an error. |
| TarArchive.ExtractTarStream | internal/store/archive.go:80-159 | Equals extracting entry by entry to the first error, links on the way followed; with a cap, success means at most the cap and any run at most one byte more. |
| TarArchive.ExtractWalk | internal/store/archive.go:80-159 | Extracting the walk of a subtree into a directory that is found at its place adds exactly that subtree and touches nothing outside, or fails exactly if it is not acceptable. |
| TarArchive.RoundTrip | internal/s3store/tar.go:19-103 | Extracting what was archived succeeds exactly for trees with content, accepted links and size within the cap, and rebuilds the tree with the same byte count, also where links lead to the extraction directory. |
| TarArchive.OnlyDirectoriesFail | internal/store/archive.go:66-159 | A tree of directories only is refused. |
| TarAgain.ExtractingAgain | internal/store/archive.go:80-159 | Extracting a saved archive once more over its own result succeeds and changes nothing. |
| TarAgain.WalkAgain | internal/store/archive.go:80-159 | The walk of a tree that is there leaves it as it is, or is refused exactly as in an empty directory. |
| TarAgain.FileAgain | internal/store/archive.go:185-213 | A file over one with the same content keeps it and its mode, counted again. |
| TarAgain.LinkAgain | internal/store/archive.go:104-146 | A link entry replaces the file or link that is there. |
| TarNames.RefusedIff | internal/store/archive.go:161-183 | An entry name is refused exactly if it is empty, absolute, or climbs out of the root somewhere on its way. |
| TarNames.JoinIsCleaned | internal/store/archive.go:163-183 | Any other name lands where its path from the root on leads once cleaned. |
| TarNames.LookupIsCleaned | internal/store/archive.go:120-138 | A cleaned path is where a lookup that meets no link ends. |
| TarNames.StrictLinkFails | internal/store/archive.go:104-136 | Outside payloads a symlink that is absolute or leads out as written ends the extraction. |
| TarNames.HardlinkFails | internal/store/archive.go:104-136 | A hard link whose target would be refused as a name does so everywhere. |
| TarNames.PayloadLinksAreAccepted | internal/store/archive.go:46-64 | In a payload no symlink is refused, wherever it leads. |
| TarLinks.LeavesIffMeetsWayOut | internal/store/archive.go:163-183 | The path of a name below the root leads outside exactly if it meets, while still below, a link that leads out. |
| TarLinks.ArchiveLeavesIff | internal/store/archive.go:80-183 | In a whole archive some entry's path, in its turn, leads outside exactly if some entry's path meets a link that leads out. |
| TarLinks.PlaceIsNameIff | internal/store/archive.go:80-159 | What a name leads to lies where the name says exactly if no link is on its way. |
| TarLinks.FileChangesOutsideIff | internal/store/archive.go:185-213 | A file extracted into a directory that is there changes something outside the root exactly if its name leads outside and did not hold that content. |
| TarLinks.OutsideChangesOnlyThroughLinks | internal/store/archive.go:80-159 | A whole extraction changes nothing outside the root unless some entry, in its turn, meets a link that leads out. |
| TarLinks.ExtractionStaysInside | internal/store/archive.go:80-159 | In a fresh directory it cannot happen to an archive in which no entry passes the name of an earlier link, whatever the links. |
| TarLinks.EntryLandsElsewhere | internal/store/archive.go:80-159 | After a link "a" to ".", the file "a/x" is extracted at "x", under either link policy. |
| TarLinks.LeavingHappens | internal/store/archive.go:80-213 | Where a link leads up from the root, a file named below it leaves, and changes what is outside exactly if it is not there with this content already. |
| Hydrate.Store.Hydrate | internal/store/hydrate.go:68-141 | Publishes exactly when tier, scratch space and publish work, the stream is whole, extraction succeeds and the bytes are the recorded ones; otherwise the store is unchanged and the first failure is reported. Only on the backend side may a symlink be absolute or lead out. |
| Hydrate.Store.SaveThenHydrate | internal/store/hydrate.go:105-130 | What was saved from a tree comes back as that tree, exactly under the round-trip condition; a backend tree whatever its symlinks lead to. |
| Hydrate.LeadingOutIsNotIntact | internal/store/hydrate.go:105-130 | An object of another side with a symlink that is absolute or leads out is not accepted. |
| Hydrate.IntactIff | internal/store/hydrate.go:105-130 | An object is accepted exactly if it is whole, extracts, and has its recorded content size, if one was recorded. |
| Hydrate.TotalIsBytes | internal/store/archive.go:80-159 | A successful extraction counted exactly the stream's content bytes. |
| Hydrate.TruncationIsCaught | internal/store/hydrate.go:105-130 | A shortened stream is accepted exactly if it ends between entries, extracts, and lost no content bytes. |
| CacheEviction.Store.CachedDirSize | internal/store/cache.go:198-210 | The memoized size is the real one as long as changed content has a changed mtime. |
| CacheEviction.Store.ResidentArtifacts | internal/store/cache.go:38-83 | Lists every resident directory once with its real size and the later of publish and access. |
| CacheEviction.Sort | internal/store/cache.go:115-154 | Reorders those entries coldest first. |
| CacheEviction.Store.EvictCacheToWatermark | internal/store/cache.go:115-154 | Directory by directory: what is pinned or freshly published stays; the watermark is met or only that is left, unless a deletion failed; a disk within it loses nothing; what goes was used no later than any removable one left; and exactly the bytes removed are reported. |
| CacheEviction.GoodSweepTrims | internal/store/cache.go:85-154 | So does every good sweep of the sorted entries. |
| CacheEviction.StoppedSweepIsGood | internal/store/cache.go:115-154 | Wherever the loop stops, what it removed is a good sweep. |
| CacheEviction.TakenMeaning | internal/store/cache.go:115-154 | The removals are exactly the unspared entries passed. |
| Globs.MatchIffCut | internal/watch/watch.go:296-322 | A branch matches exactly if its segments can be cut so that each `**` takes a run and every other pattern segment one match. |
| Globs.OneSegmentIff | internal/watch/watch.go:296-322 | A pattern without slashes is for branches without slashes that it matches. |
| Globs.DoubleStarMatchesAll | internal/watch/watch.go:296-322 | `**` is for every branch. |
| Globs.MatchBranch | internal/watch/watch.go:274-289 | A branch is watched exactly if it is included and not excluded by the set of patterns. |
| Globs.OrderDoesNotMatter | internal/watch/watch.go:274-289 | Permuting the list changes neither. |
| Globs.ValidatePatterns | internal/watch/watch.go:250-267 | Accepts exactly lists of valid patterns, and its canonical form splits into the same list. |
| Globs.ValidPatternIff | internal/watch/watch.go:250-267 | A pattern is valid if it is not empty and its segments are `**` or well formed; a "!" in front changes nothing. |
| Globs.TrimCuts | internal/watch/watch.go:237-248 | Trimming takes all white space off both ends and nothing else. |
| Globs.CanonicalSplitsTheSame | internal/watch/watch.go:237-267 | Joining and splitting again gives the patterns of the input. |
| Watch.Store.SetRepoWatch | internal/db/repos.go:139-173 | Switching on without backfill arms the baseline and with backfill does not, switching off drops it, editing patterns keeps it, and the patterns are as given; a missing repository changes nothing. |
| Watch.Store.SetWatchBaseline | internal/db/repos.go:177-198 | The baseline becomes exactly the given tips and the row is marked. |
| Watch.Store.PruneWatchBaseline | internal/db/repos.go:205-220 | Keeps exactly the entries that are still tips. |
| Watch.Store.Evict | internal/build/build.go:302-340 | Newly marks exactly the evictable deploys whose commit no tip reaches. |
| Watch.PassAsksForTheWanted | internal/watch/watch.go:186-208 | A pass asks for exactly the matching tips outside the baseline without a deploy row, and adds exactly the rows it created. |
| Watch.RowsStayDistinct | internal/watch/watch.go:186-208 | No pass gives a commit a second row. |
| Watch.NextPassRetriesFailures | internal/watch/watch.go:171-233 | The next pass over the same tips asks again for exactly the requests that left no row. |
| WatchAnswers.PassAsksFor | internal/watch/watch.go:171-233 | A pass without failures gets through and asks for exactly the matching tips outside its baseline without a row. |
| WatchAnswers.FirstPassAfterSwitchOn | internal/db/repos.go:132-173 | The first pass after watching is switched on asks for every matching tip without a deploy with backfill, and for nothing without. |
| WatchAnswers.NextPassSeesChangesOnly | internal/watch/watch.go:162-208 | Without backfill the pass after it asks for exactly the matching tips the first one did not see. |
| WatchAnswers.EditedPatternsKeepBaseline | internal/db/repos.go:147-166 | After an edit of the patterns a pass asks for the tips they match outside the same baseline. |
| WatchAnswers.PollEvictsIff | internal/watch/watch.go:143-161 | A poll marks a deploy exactly if refs moved, no pass is remembered or a row appeared, and no tip it works from reaches the commit. |
| WatchAnswers.QuietPollMarksNothing | internal/watch/watch.go:143-161 | Otherwise it marks nothing, whatever fails. |
| WatchAnswers.BuildingDeployIsMissed | internal/build/build.go:302-320 | A deploy that was building when its commit fell out of history is not marked by the quiet polls after it is ready. |
| Watch.Watcher.Reconcile | internal/watch/watch.go:171-233 | Tables, evictions, requests and cached pass after a pass that runs through or stops at any failing call. |
| Watch.Watcher.RequestTips | internal/watch/watch.go:186-208 | The loop over the tips asks and records as the pass function says. |
| Watch.Watcher.PollRepo | internal/watch/watch.go:143-161 | Tables, mirror and cached pass of the repository after a poll, whichever call fails; no other repository changes. |
| Watch.Watcher.PollAll | internal/watch/watch.go:105-131 | Every watched repository that is ready and has its turn before cancellation is polled once in whatever order, no other changes, and only polled ones keep a cached pass. |
| WatchRuns.HeldUntilReleased | internal/db/repos.go:139-220 | A baselined commit stays held through every step but switching off and a prune that lacks it, pattern edits included, and no step asks for it while held. |
| WatchRuns.OldTipsAreNotDeployed | internal/watch/watch.go:162-185 | After switching on without backfill nothing is asked for before the first pass, and its tips not until a prune that lacks them. |
| WatchRuns.ArmedRequestsNothing | internal/watch/watch.go:171-185 | Until the baseline is taken no run asks for anything. |
| WatchRuns.RequestsWereWanted | internal/watch/watch.go:186-208 | Every commit asked for in any interleaving was a matching tip of its pass outside the loaded baseline and without a row. |
| WatchRuns.ReconcileIsARun | internal/watch/watch.go:171-233 | Reconciling on whole tables is a run of the interleaved machine with nothing in between. |
| WatchRuns.SwitchUnderAPass | internal/watch/watch.go:105-131 | A pass under way when watching is switched on, wherever it is: before it loaded its baseline it asks for nothing if its row awaited the baseline or every matching tip has a deploy, after that if every matching tip left is in its copy or has a deploy; and only then if no call fails. |
| WatchRuns.RestAsksNothingIff | internal/watch/watch.go:171-233 | The rest of any pass asks for nothing if every matching tip left is in its baseline or has a deploy, and only then if no call fails. |
| WatchRuns.RestIsARun | internal/watch/watch.go:171-233 | The rest of a pass with nothing in between, from either place, is a run of the machine. |
| WatchRuns.OffAndOnDeploysOldTips | internal/watch/watch.go:105-131 | A run in which a baselined tip is deployed that way. |
| WatchRuns.LoadedPassDeploysOldTips | internal/watch/watch.go:105-131 | A run in which a pass that loaded its baseline before deploys a tip that was there when watching was switched on again. |
| WatchRuns.SyncUntilDisturbed | internal/watch/watch.go:133-161 | A step leaves remembered tips other than the mirror's exactly if it is an outside fetch that moves branches while tips are remembered, or a failure between a fetch that did and its record. |
| WatchRuns.PollSeesTheOrigin | internal/watch/watch.go:133-161 | After any run without those, a poll works from the origin's tips, quiet or not, exactly if the origin has refs or the mirror has no tips. |
| WatchRuns.QuietPollExact | internal/watch/watch.go:143-161 | From any state a poll works from the origin's tips exactly if, the origin having refs, refs differ, nothing is cached, or the cached tips are the mirror's, and, the origin having none, what it remembers has no tips. |
| WatchRuns.EmptiedOriginKeepsItsTips | internal/gitrepo/gitrepo.go:240-249 | A run in which the only branch is deleted and the next poll works from it still. |
| WatchRuns.EmptiedOriginReclaimsNothing | internal/gitrepo/gitrepo.go:240-249 | As long as nothing is pushed to an origin that lost its refs, no poll marks a deploy that the old tips reach. |
| WatchRuns.OutsideFetchHidesAPush | internal/build/build.go:266-289 | A push fetched by a deploy request is missed by the polls that follow. |
| WatchRuns.FailedPassHidesAPush | internal/watch/watch.go:143-161 | A push fetched by a pass that then failed is missed by the polls that follow. |
| WatchRuns.EvictionSparesLiveIff | internal/build/build.go:302-340 | Eviction against a pass's tips spares every deploy that a branch of the mirror reaches, whatever the deploys, exactly if each mirror tip is in the history of a tip of the pass. |
| WatchRuns.UndisturbedEvictionSparesLive | internal/watch/watch.go:143-161 | So it does in every run without those two kinds of step. |
| WatchRuns.OutsideDeployIsEvicted | internal/watch/watch.go:143-161 | A run in which a branch tip deployed by name is evicted by the quiet poll that follows. |
| Compress.GzipWriter.WriteHeader | cmd/server/compress.go:74-86 | Fixes the first status and commits at once exactly for responses that must not be compressed. |
| Compress.GzipWriter.Write | cmd/server/compress.go:88-113 | Buffers below the threshold, then packs the held bytes before the new ones; always takes all bytes. |
| Compress.GzipWriter.StartGzip | cmd/server/compress.go:144-159 | Commits the held status with headers fit for a packed body. |
| Compress.GzipWriter.Finish | cmd/server/compress.go:163-185 | Ends the packed stream or sends what is held plain. |
| Compress.GzipWriter.Flush | cmd/server/compress.go:190-205 | Sends what is held plain, marks a packed stream, and flushes the response. |
| Compress.RunKeepsInv | cmd/server/compress.go:74-205 | Any further calls keep status, header and body in agreement; gzip is chosen exactly if enough is written before the next flush. |
| Compress.ResponseIsDelivered | cmd/server/compress.go:31-42 | Whatever a handler calls, the decoded body is what it wrote, the status is known, and the body is packed exactly if nothing forbids it and enough was written before the first flush after the first status or write; without a leading flush one header is committed. |
| Compress.MisdeclaredIff | cmd/server/compress.go:144-205 | A packed body goes out under a header that does not say so exactly if a flush came first and the rest is packed. |
| Compress.SameAsDirect | cmd/server/compress.go:74-205 | Against writing straight to the response the body is always the same, and the status exactly if a flush came first, the first status is final, or the direct one is 200. |
| Compress.LiveResponsesAreNotHeld | cmd/server/compress.go:115-142 | Partial and switched responses, event streams, downloads and encoded bodies reach the client at every moment as if written straight. |
| Compress.SmallResponsesWait | cmd/server/compress.go:88-113 | Any other response below 1024 bytes waits for a flush or the end, header included. |
| Compress.LargeResponsesArePacked | cmd/server/compress.go:144-159 | And from 1024 bytes on it is packed, its type kept and its length and ranges dropped. |
| Compress.EarlyHintsLoseTheStatus | cmd/server/compress.go:74-86 | 103 followed by 404 is delivered as 200. |
| Compress.FlushFirstBreaksTheBody | cmd/server/compress.go:190-205 | For instance after a flush and then a large body. |
| ExecStream.Writer.WriteFrame | internal/execstream/execstream.go:94-118 | What reaches the connection is as much of the encoded chunks as it takes before it fails, and success means all of them. |
| ExecStream.ReadFrame | internal/execstream/execstream.go:64-81 | Takes exactly the first frame off the stream or reports why there is none. |
| ExecStream.ChunksAre | internal/execstream/execstream.go:94-118 | A write's frames have its type, hold at most MaxPayload, join to the payload, are full but the last, and number 1 for nothing and ceil(n / MaxPayload) otherwise. |
| ExecStream.DecodeEncode | internal/execstream/execstream.go:64-118 | A frame within the cap is read back whole whatever follows. |
| ExecStream.EncodedFrameIs | internal/execstream/execstream.go:94-118 | A frame is its type, four bytes of length with the highest first, and the payload. |
| ExecStream.TooLargeIsRefused | internal/execstream/execstream.go:64-81 | A header announcing more than 1 MiB is refused, any other is read as soon as its payload is there. |
| ExecStream.EncodeDecode | internal/execstream/execstream.go:64-81 | Whatever is read is the encoding of its frame and within the cap. |
| ExecStream.TruncatedFrameFails | internal/execstream/execstream.go:64-81 | A stream cut anywhere inside a frame yields an error and no frame. |
| ExecStream.CutStreamKeepsFrames | internal/execstream/execstream.go:64-118 | A stream cut anywhere reads as exactly its whole frames, and ends like a closed one exactly at the end of a frame or between a header and its payload. |
| ExecStream.WriteAll | internal/execstream/execstream.go:94-118 | Any writes, up to the first that fails, send the encoding of the session as far as it goes. |
| ExecStream.SessionRoundTrip | internal/execstream/execstream.go:64-118 | Reading the bytes of any writes never fails before their end, gives exactly their frames, and each type's bytes in order. |
| ExecStream.RegroupsToTheWrites | internal/execstream/execstream.go:94-118 | The frames regroup into the original types and payloads. |
| ExecStream.ResizeRoundTrip | internal/execstream/execstream.go:135-148 | A terminal size survives encoding. |
| ExecStream.ResizePayloadIs | internal/execstream/execstream.go:133-140 | Columns first, then rows, the higher byte first. |
| ExecStream.ResizeIsOnto | internal/execstream/execstream.go:143-148 | Exactly the four-byte payloads decode, each as the encoding of its size. |
| LogCursor.RunLog | internal/supervise/view.go:45-89 | Answers from the highest-numbered log, from the echoed offset if it belongs to that log and from a tail otherwise. |
| LogCursor.ViewMeans | internal/supervise/view.go:66-89 | An answer is the bytes from the echoed offset, or from a tail, up to one answer's cap, and is marked as cut exactly if something before it is missing. |
| LogCursor.FirstViews | internal/supervise/view.go:60-89 | A first view holds the last 256 KiB of a run log, 16 KiB of a build log. |
| LogCursor.NextViews | internal/supervise/view.go:79-88 | An echoed cursor is answered with up to 1 MiB of a run log, 64 KiB of a build log. |
| LogCursor.TailFile | internal/proxy/interim.go:157-186 | The same for one build log; a missing file reads as an empty one. |
| LogCursor.Page.Tick | internal/proxy/interim.go:236-248 | A new attempt clears the pane, the same one appends, an answer without one changes nothing. |
| LogCursor.StepKeepsInv | internal/supervise/view.go:45-89 | Whatever is appended, restarted or lost, the pane is the log's bytes from the first view's start to the offset. |
| LogCursor.SameAttemptContinues | internal/supervise/view.go:45-89 | Over any run within one attempt what the pane gained is exactly the log's next bytes. |
| LogCursor.RestartResets | internal/supervise/view.go:66-78 | The poll after a restart shows a tail of the new log and nothing of the old. |
| LogCursor.CatchesUp | internal/supervise/view.go:79-88 | Once appends stop a page is up to date after exactly the needed polls and no fewer. |
| LogCursor.PollsNeededIs | internal/supervise/view.go:79-88 | That number is the backlog divided by the chunk cap, rounded up. |
| LogCursor.SwitchResets | internal/proxy/interim.go:120-143 | A page moved to another log of any length shows what a new page would exactly if the attempts differ, or its cursor is past that log and it shows nothing, or its cursor is in it, it shows the log's tail up to there, and the next answer ends where a first one would. |
| LogCursor.EqualNumbersMixLogs | internal/proxy/interim.go:157-186 | A build log followed by a run log of the same number shows both mixed. |

## Left out

- Docker, S3, git objects, SQLite, HTTP transport, authentication and configuration: only the small machines above.
- Supervisor.ShutdownCreatesNothing: speaks of the process table; a start that was queued before may still launch after shutdown began, because a stop can take the key lock before it. `StopAfterLaunchKills` covers what was launched; that StopAll asks for every key tracked is not a step.
- Supervisor: a frontend's start ensures its backend from inside; that nested call, and waiting for the peer's lock in it, are not modelled.
- Supervisor.Manager.EnsureLookup: contexts that end while waiting are the machine's GiveUp step, not part of the method; a call that retries is looked up, and counted, once a round.
- InitProtocol: the worker is assumed to have no artifact row of its own, and starts on the control node itself are not steps of the machine.
- Reap.Reap: one pass over one snapshot of the table; what happens until the listed keys are stopped is ReapRuns.
- ReapRuns: a stop is one step, and the policy of a pass is read once, where the code reads the warm target after the idle stops.
- Quotas.QuotasProtectTheTop: the report and the workers' tables are one moment's, with each key on one worker; a key live on two workers is counted where the report puts it.
- Placement.Place: reads the registry as one snapshot, and floating-point rounding of the load is not modelled.
- DeployNetwork: image pulls, init containers and container options.
- Reachability.UnreachableSHAs: how names resolve to commits is a parameter.
- Retention.Store.Sweep: deploys that arrive during a sweep, processes, log files and the sweep of tmp; an artifact's directory goes or stays as a whole, and the calendar that turns days into the cutoff is a parameter.
- Publish: removal of a whole repository and directory modes are not steps; a fork reads its source in one step, and a failed copy leaves only staging behind.
- TarArchive.ExtractTarStream: umask, modes of created directories, and that names made by a hard link go on sharing content; bytes that cannot be written (a full disk) are no case.
- TarLinks: lemmas that need a sound tree leave out extraction into "/" itself, and into a directory that links on the way lead to. What a whole archive leaves changed outside has no condition short of running it, since a later entry may put old content back.
- Hydrate.Store.Hydrate: a caller that stops waiting, and callers that share one transfer.
- Hydrate.TruncationIsCaught: says nothing about objects whose content size was never recorded, because the code checks none.
- CacheEviction.Store.EvictCacheToWatermark: the pins are fixed for one sweep, and a deletion removes all of a directory or fails.
- Watch.Watcher.PollAll: the polls of one call run with nothing in between; interleaving is the subject of WatchRuns, for one repository, where looking up a deploy and requesting it is one step. Deleting a repository is not modelled.
- WatchRuns: deleting a deploy row is not a step. Without deletions the newest row id grows exactly when rows do, so it is modelled as their number. A fetch that fails half way leaves the mirror as it was here.
- WatchRuns.EvictionSparesLiveIff: which deploys are pending or serving is a parameter, and reachability does not change during a pass.
- Compress: negotiation by Accept-Encoding, hijacked connections, header edits after the status, and write errors of the connection.
- ExecStream: the WebSocket carrier and the mutex around a write.
- LogCursor: text encoding; a chunk that ends inside a multi-byte character is exact as bytes only. Files that shrink are not modelled.
- The reconciler, cloud scaling, storage reports and the JSONC stripper would add only smaller loops.
