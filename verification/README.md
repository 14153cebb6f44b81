# Verified models of the ActWeave backend

Dafny models of five parts of the backend and proofs about all their runs. `dafny verify dfyconfig.toml`
checks everything.

- **Inbound A2A execution** (`InboundRows`, `InboundProtocol`, `InboundSafety`, `InboundTheorems`, `InboundLimits`,
  `InboundWorks`, `InboundStore`, `FinalizeOutbox`, `ExternalKey`). Gateway replicas race to own and finish a durable
  task. Each SQL transaction is a function on the tables; `Repository` performs it row by row with rollback and is
  proved equal to it. The protocol is a state machine in which claims, leases, finishes, cancels, cleanups, outbox
  workers and the clock interleave freely.
- **Generated surfaces** (`FencePreview`, `ComponentGraph`, `JsonPointer`, `Splitting`). The streaming fence filter,
  the component graph check and JSON Pointers.
- **Data-plane quota** (`DataPlaneQuota`, `QuotaRuns`, `RedisQuota`). One abstract fixed-window quota and its two
  implementations.
- **Protocol task store and bounded reader** (`TaskStore`, `TaskWalk`, `PageToken`, `BoundedReader`).
- **AAP file pipeline** (`AapFiles`, `AapPipeline`, `AapTheorems`, `AapWorks`, `AapRepository`). Versioned files and
  claimable jobs under one clock. An evaluation is three separate events (read the file, list the jobs, mark), so
  anything may happen in between.

Conventions. An id stands for the pair of workspace and id. Identifiers are taken already trimmed and upper- or
lower-cased. Minted tokens and ids are fresh where the protocol relies on it. A missing row, a bad argument and a lost
race are outcomes, not preconditions.

What the proofs found:

- Agreement of task, run and delegation is the caller's doing: the finish transaction accepts three different statuses
  (`MixedStatusesCommit`, `UniformityIsNeeded`), and a binding to another run's delegation would be stuck for ever
  (`ForeignBindingIsForEver`).
- The gateway's delegation key leaves the principal out, so of two principals asking one exposure the same question in
  the same context the second gets no delegation while the exposure keeps its version (`SecondPrincipalCannotBind`,
  `SecondPrincipalIsReachable`); its task stays RUNNING until someone cancels it or cleans it up
  (`UnboundTaskCanBeClosed`).
- An outbox row at 32 attempts is never retried, even when its command is enqueued again (`RetriableExactly`,
  `ExhaustedRowIsReachable`).
- A promote job can go from SUCCEEDED back to PENDING, even under a READY file (`PromoteCanReopen`);
  `OnlyPromoteIsRewritten` says exactly when.
- A RUNNING pipeline job whose worker died is never reclaimed (`RunningJobKeptExactly`, `OverdueJobIsReachable`).
- The pointer "/" means the root rather than its empty key, and the empty pointer reports a null root as absent
  (`PrintedPointerResolves`, `ExceptionsOccur`).
- The two quota limiters differ exactly when the in-memory map is full (`LimitersAgreeExactly`, `LimitersCanDiffer`).
- A page that ends at a task id with an underscore cannot be continued (`WalkContinuesExactly`,
  `UnderscoreWalkStops`).
- A response body that stalls when the reader asks for more at the limit is taken for cleanly ended, even if it goes
  on or breaks off (`DrainExact`, `StallingBodyEndsCleanly`).
- Preview and splitter keep different text exactly when a start marker is left over (`SplitterAgreesExactly`).

A method that stands for one guarded statement on one row is part of the code without a row in the table below; what
such statements promise together is stated by the lemmas.

## Model

| member | source | states |
|---|---|---|
| `InboundTheorems.FourObjectAgreement` | backend/internal/a2agateway/fenced_terminal.go:57-395 | In every state any legal run reaches, each task, its run, its bound delegation and every step of that delegation are in one status; the task is RUNNING or terminal; while it is RUNNING every delegation the gateway made for its run has a RUNNING step. Delegations the running agent makes itself open and settle freely meanwhile. |
| `InboundTheorems.TerminalIsFinal` | backend/internal/a2agateway/fenced_terminal.go:57-395 | Once a task is terminal its row never changes again and the four objects stay in that status, over every continuation. |
| `InboundTheorems.CancelAndFinishHaveOneWinner` | backend/internal/a2agateway/fenced_terminal.go:183-271 | Whichever of cancel, finish or cleanup closes the task first, in every later state a finish is refused without effect and a cancel is a successful no-op. |
| `InboundTheorems.UniformityIsNeeded` | backend/internal/a2agateway/inbound.go:755-766 | A finish that succeeds leaves the four objects in agreement if and only if its task, run and delegation statuses coincide: the transaction itself does not enforce it, the caller does. |
| `InboundTheorems.StaleProofIsFenced` | backend/internal/a2agateway/fenced_terminal.go:94-115 | A finish whose generation is below the task's, or on a terminal task, conflicts and changes nothing in every later state, however often it is replayed. |
| `InboundTheorems.RaisingFencesEarlierProofs` | backend/internal/a2agateway/repository.go:1008-1047 | After a reclaim, cancel or cleanup takes effect, every proof handed out before is refused in every later state. |
| `InboundTheorems.OneHolder` | backend/internal/a2agateway/repository.go:1122-1143 | In every reachable state at most one (owner, token, generation) passes the held check for a task, and it was handed out by a claim. |
| `InboundTheorems.ClaimsCountUp` | backend/internal/a2agateway/repository.go:1008-1047 | A successful execution claim gets a generation above every proof handed out before, none of which is held afterwards. |
| `InboundTheorems.LostLeaseStaysLost` | backend/internal/a2agateway/repository.go:1051-1081 | A proof that has been handed out and is not held now is held in no later state: renewing cannot revive it. |
| `InboundTheorems.CleanupRespectsLeases` | backend/internal/a2agateway/fenced_terminal.go:313-328 | In every reachable state, while a proof is held, no cleanup event, of its task or of another, moves the task, its run, its bound delegation or any of that delegation's steps. |
| `InboundTheorems.FinishExactly` | backend/internal/a2agateway/fenced_terminal.go:94-177 | A command for the task's own run, its bound delegation named or left empty, with any three terminal statuses, commits if and only if its proof is held and the run status and lock version it expects, if any, are the run's; otherwise the answer is exactly Conflict. |
| `InboundTheorems.DroppedRowIsHarmless` | backend/internal/a2agateway/finalize_worker.go:124-131 | A row dropped on conflict changed nothing, and its task is terminal, claimable, or held under a live lease by a different proof. |
| `InboundTheorems.NoDeadEnd` | backend/internal/a2agateway/repository.go:1008-1047 | From every reachable state, a RUNNING task with a bound delegation reaches any chosen terminal status with all four objects in it by waiting out the lease, claiming and finishing. |
| `InboundTheorems.OneAuthority` | backend/internal/a2agateway/repository.go:732-855 | Two tasks with the same request identity, or with the same run, are the same task. |
| `InboundTheorems.NoOrphanRun` | backend/internal/a2agateway/repository.go:732-855 | Every run that exists belongs to a task: no claim, failed or not, leaves a run behind. |
| `InboundTheorems.RetriesFindTheAuthority` | backend/internal/a2agateway/repository.go:732-855 | After a claim committed, any retry in any later state gets the same task and run for the same body hash (unless its external task id names another task), and changes nothing for another hash. |
| `InboundTheorems.LookupIsStable` | backend/internal/a2agateway/repository.go:1167-1214 | Whatever task a principal sees under an external task id, by primary id or alias, is the only one it ever sees under it. |
| `InboundTheorems.OnlyTheLatestClaimantActs` | backend/internal/a2agateway/repository.go:1281-1318 | At most one outstanding outbox claim can acknowledge or reject a row, and the row still holds the payload and attempts that claim carried away. |
| `InboundTheorems.StaleClaimStaysStale` | backend/internal/a2agateway/repository.go:1230-1318 | An outbox claim that lost its row never gets it back, over every continuation. |
| `InboundTheorems.ReenqueueInvalidatesClaims` | backend/internal/a2agateway/repository.go:980-995 | After a re-enqueue no claim handed out before can act on the row in any later state. |
| `InboundTheorems.AttemptsCountRejections` | backend/internal/a2agateway/repository.go:1297-1318 | In every reachable state a row's attempts equal its accepted rejections and never exceed 32. |
| `InboundTheorems.ExhaustedRowIsNeverRetried` | backend/internal/a2agateway/repository.go:1230-1278 | A row at 32 attempts stays so and unclaimed over every continuation without the executor's own delete, even when re-enqueued, because the upsert keeps the attempts. |
| `InboundSafety.StepSafe` | backend/internal/a2agateway/fenced_terminal.go:57-395 | Every single transaction of claim, prewrite, bind, lease, renew, finish, cancel, cleanup, enqueue, outbox claim, acknowledge, reject, delete and clock tick keeps the whole invariant. |
| `InboundStore.Repository.ClaimInboundTask` | backend/internal/a2agateway/repository.go:732-855 | The claim transaction equals its specification: replay, body conflict, failed prepare, or run, task and alias together. |
| `InboundStore.Repository.AssertInboundExecutionHeld` | backend/internal/a2agateway/repository.go:1122-1143 | Invalid exactly without owner or token; otherwise Ok exactly for the live holder of the generation asked for (0 for any) and Conflict for anyone else. |
| `InboundStore.Repository.FinalizeDelegationTx` | backend/internal/a2agateway/fenced_terminal.go:500-634 | Finalizes the delegation and its step with the source's order of checks and answers. |
| `InboundStore.Repository.FencedInboundTerminal` | backend/internal/a2agateway/fenced_terminal.go:57-177 | Row by row updates with rollback equal the atomic finish: all four rows or none. |
| `InboundStore.Repository.AtomicInboundCancel` | backend/internal/a2agateway/fenced_terminal.go:183-271 | Row by row updates with rollback equal the atomic cancel. |
| `InboundStore.Repository.AtomicUnownedInboundCleanup` | backend/internal/a2agateway/fenced_terminal.go:276-395 | Row by row updates with rollback equal the atomic cleanup. |
| `InboundStore.Repository.ProcessRow` | backend/internal/a2agateway/finalize_worker.go:108-141 | The worker equals one fenced finish followed by acknowledge on success or conflict and reject otherwise. |
| `InboundStore.Repository.CleanupFailedPreDispatch` | backend/internal/a2agateway/inbound.go:852-929 | With a usable lease: fenced finish, unowned cleanup on conflict, outbox otherwise; without one: unowned cleanup only. |
| `InboundStore.Repository.CancelInbound` | backend/internal/a2agateway/inbound.go:957-1010 | Cancels a task visible to the principal, is a no-op on a terminal one, and reports not found exactly when none is visible. |
| `ExternalKey.KeysIdentifyRequests` | backend/internal/a2agateway/repository.go:688-699 | Two requests, with no bar in the id each key starts with, share a key if and only if they are the same message in the same context or, without a message, the same task and context; or a message spells the other's context and closing bar. |
| `ExternalKey.BarsCollide` | backend/internal/a2agateway/repository.go:688-699 | With a bar in the id written first two different requests share a key. |
| `InboundLimits.MixedStatusesCommit` | backend/internal/a2agateway/fenced_terminal.go:57-177 | Some reachable state accepts a finish with three different statuses, and the four objects no longer agree. |
| `InboundLimits.NestedDelegationsSettleEarly` | backend/internal/agentdelegation/agent_tool.go:278-595 | Some reachable state has a RUNNING task with a settled step in its run, made by the agent itself. |
| `InboundLimits.UnboundTaskCanBeClosed` | backend/internal/a2agateway/fenced_terminal.go:183-395 | In every reachable state a RUNNING task without a delegation can be cancelled, and can be cleaned up if and only if nobody holds a live lease; either way its objects agree. |
| `InboundLimits.BindableExactly` | backend/internal/a2agateway/inbound.go:552-604 | An unbound RUNNING task can be given a delegation and bound to it if and only if its idempotency key has not been taken by another run. |
| `InboundLimits.PrewriteExactly` | backend/internal/agentdelegation/repository.go:507-633 | The audit writer gives a RUNNING task's run a delegation, minted and running with its step or replayed, if and only if no other run, or delegation of the other kind, has taken the key; otherwise it conflicts. |
| `InboundLimits.SecondPrincipalCannotBind` | backend/internal/a2agateway/inbound.go:552-588 | The key leaves the principal out: once one principal has its delegation, the prewrite of another with the same exposure, external key, call and exposure version conflicts in every later state. |
| `InboundLimits.SecondPrincipalIsReachable` | backend/internal/a2agateway/inbound.go:552-588 | Such a state is reachable: two principals, one question, and the second one's prewrite conflicts whatever ids it mints, with its task RUNNING and unbound. |
| `InboundLimits.ForeignBindingIsForEver` | backend/internal/a2agateway/fenced_terminal.go:500-634 | A RUNNING task bound to a delegation of another run stays so over every continuation, and no finish, cancel or cleanup ever closes it, which is why binding is limited to the run's own delegation. |
| `InboundLimits.ClaimIsIdempotent` | backend/internal/a2agateway/repository.go:732-855 | A claim that succeeds, repeated, answers with the same task and changes nothing more, and a lookup of its external task id sees that task; one that fails has left every table as it was. |
| `InboundLimits.RetriableExactly` | backend/internal/a2agateway/repository.go:1230-1278 | In every reachable state some continuation without the executor's own delete claims an outbox row if and only if its attempts are below 32. |
| `InboundLimits.ExhaustedRowIsReachable` | backend/internal/a2agateway/repository.go:1297-1318 | A row that no continuation claims again is reachable, by 32 claims and rejections, with its task still RUNNING. |
| `InboundWorks.CancelWorks` | backend/internal/a2agateway/fenced_terminal.go:183-271 | In every reachable state cancelling a RUNNING task, bound or unbound, leased or not, succeeds and leaves task, run, delegation and step CANCELLED together. |
| `InboundWorks.CleanupExactly` | backend/internal/a2agateway/fenced_terminal.go:276-395 | In every reachable state cleaning up a RUNNING task, bound or unbound, succeeds if and only if nobody holds its lease, and otherwise conflicts; on success all four objects, and a delegation named while none is bound, are in the status asked for. |
| `InboundWorks.CleanupWrites` | backend/internal/a2agateway/fenced_terminal.go:276-395 | A cleanup that commits, in any database, closes the task and the delegation bound to it or, with none bound, the one named, which may be given a status of its own; naming another than the bound one is refused. |
| `InboundWorks.ClosersTolerateClosedRuns` | backend/internal/a2agateway/fenced_terminal.go:636-714 | In any database, without a delegation, cancel goes through if and only if the run is RUNNING, PENDING or already CANCELLED, and cleanup if and only if no lease is live and the run is RUNNING, PENDING or already in its status; a run already there keeps its lock version. |
| `InboundWorks.FirstClaimExactly` | backend/internal/a2agateway/repository.go:732-855 | In every reachable state a request without an authority gets one if and only if a fresh run was prepared and neither its new task id nor its external task id is in use, with the answer for each refusal; then task and run are RUNNING under its key and hash. |
| `InboundWorks.PrewriteAnswers` | backend/internal/agentdelegation/repository.go:507-633 | In any database a delegation under a free key is written if and only if its run is RUNNING or waiting and its ids are not in use, with the answer for each refusal. |
| `InboundWorks.BindExactly` | backend/internal/a2agateway/repository.go:912-942 | In every reachable state a bind succeeds if and only if the task is RUNNING and unbound or already bound to that delegation, and nothing but the binding changes. |
| `InboundWorks.LeaseExactly` | backend/internal/a2agateway/repository.go:1008-1047 | In every reachable state an execution claim succeeds if and only if the task is RUNNING and nobody holds it, and the proof handed out is then held for exactly the lease. |
| `InboundWorks.RenewExactly` | backend/internal/a2agateway/repository.go:1051-1081 | In every reachable state a renewal succeeds if and only if its proof is held, which it then is for exactly the new lease. |
| `InboundWorks.LeaseLengthFits` | backend/internal/a2agateway/repository.go:1008-1047 | A lease counts in whole milliseconds, at least one, and two minutes if none is asked for. |
| `InboundWorks.NestedFinalizeWorks` | backend/internal/agentdelegation/repository.go:636-892 | In every reachable state settling a running delegation succeeds and ends it in the status reported, together with the steps of one the agent made itself. |
| `InboundWorks.NestedFinalizeIsIdempotent` | backend/internal/agentdelegation/repository.go:636-892 | Settling it again in the same status changes nothing and in another status conflicts. |
| `InboundWorks.EnqueuedIsClaimedNext` | backend/internal/a2agateway/repository.go:980-995 | What is enqueued is what the next worker to claim the row gets, at once, if and only if the row has fewer than 32 attempts; no other row changes. |
| `InboundWorks.OutboxClaimLasts` | backend/internal/a2agateway/repository.go:1230-1278 | A claim keeps the row from other workers for exactly its lease: whole seconds, thirty if none is asked for. |
| `InboundWorks.AcknowledgeExactly` | backend/internal/a2agateway/repository.go:1281-1295 | The claimant's acknowledgement removes its row and nothing else; anyone else's removes nothing. |
| `InboundWorks.RejectExactly` | backend/internal/a2agateway/repository.go:1297-1318 | The claimant's rejection adds one attempt, keeps the payload, and the row is claimable again exactly once the backoff is over and attempts are below 32; anyone else's does nothing. |
| `InboundWorks.BackoffGrows` | backend/internal/a2agateway/repository.go:1297-1318 | The backoff starts at 20 milliseconds, grows by as much with each attempt and stops at 30 seconds. |
| `FencePreview.ChunkInvariance` | backend/internal/a2ui/fence_preview.go:23-79 | For every cutting of a text into chunks, the shown pieces and the flushed rest concatenate to the whole-string filtering of the text. |
| `FencePreview.OptimalWithholding` | backend/internal/a2ui/fence_preview.go:23-69 | After every chunk the text shown is exactly the longest prefix common to the results of all continuations. |
| `FencePreview.Preview.Feed` | backend/internal/a2ui/fence_preview.go:23-55 | The in-place loop equals the recursive scan of held text plus chunk: output, mode and held suffix. |
| `FencePreview.Preview.Flush` | backend/internal/a2ui/fence_preview.go:62-69 | Returns and drops the held text outside a fence, nothing inside one. |
| `FencePreview.MaskFences` | backend/internal/a2ui/fence_preview.go:74-77 | Equals the text without its fenced spans, closed or not. |
| `FencePreview.PartialMarkerSuffix` | backend/internal/a2ui/fence_preview.go:82-93 | Returns the longest proper suffix that is a prefix of the marker. |
| `FencePreview.ShownText` | backend/internal/a2ui/fence_preview.go:71-77 | Spelled out on the text: from the first start marker to the first end marker after it the span goes and the rest is treated alike; without a start marker all is shown, without an end marker nothing more. |
| `FencePreview.TrimLeftExactly` | backend/internal/a2ui/split.go:67-76 | Exactly the leading blanks, tabs and line breaks go. |
| `FencePreview.TrimRightExactly` | backend/internal/a2ui/split.go:67-76 | Exactly the trailing blanks, tabs and line breaks go. |
| `FencePreview.SplitCutsTheFirstHiddenSpan` | backend/internal/a2ui/split.go:50-76 | The span the splitter removes is the first completed hidden span: the preview has shown exactly the text before it, is silent inside, and leaves it with nothing held. |
| `FencePreview.UnclosedFence` | backend/internal/a2ui/split.go:50-76 | With an unclosed fence the splitter keeps the raw text while the preview shows only what precedes the fence. |
| `FencePreview.SingleFence` | backend/internal/a2ui/split.go:50-76 | With a single complete fence the preview shows exactly what surrounds it, and the splitter keeps the same text up to blanks. |
| `FencePreview.SplitterAgreesExactly` | backend/internal/a2ui/split.go:50-76 | For every text the finished preview and the splitter keep the same characters, blanks aside, if and only if the splitter leaves no start marker behind: none unclosed and none after the first closed fence. |
| `ComponentGraph.ValidateComponentGraph` | backend/internal/a2ui/graph.go:17-66 | Accepts if and only if there are at most 64 components with unique ids, a root, resolving references, every walk from root at most 16 nodes long and every component reachable; every report is justified. |
| `ComponentGraph.Walker.Walk` | backend/internal/a2ui/graph.go:68-96 | The depth-first walk restores the path set on success, marks exactly what it can reach, and succeeds only if all walks fit in the remaining depth. |
| `ComponentGraph.WithinIsAboutWalks` | backend/internal/a2ui/graph.go:68-96 | The recursive depth bound holds if and only if every walk from the node has at most that many nodes. |
| `ComponentGraph.CycleExceedsAnyBound` | backend/internal/a2ui/graph.go:80-88 | A reachable cycle exceeds every depth bound. |
| `ComponentGraph.JustifiedMeansBroken` | backend/internal/a2ui/graph.go:17-66 | No justified report is ever made of a well-formed tree. |
| `ComponentGraph.ChildReferences` | backend/internal/a2ui/graph.go:100-118 | Returns the single child if there is one and otherwise exactly the strings among the children. |
| `ComponentGraph.ReferencesExactly` | backend/internal/a2ui/graph.go:100-118 | A component refers to a name if and only if the name is its single child or, without one, a string among its children; if all children are strings they are the references, position by position. |
| `ComponentGraph.ReferencesInOrder` | backend/internal/a2ui/graph.go:100-118 | Every string among the children gives one reference in its place and every other entry none. |
| `ComponentGraph.EdgeExactly` | backend/internal/a2ui/graph.go:100-118 | The edges of all walks, read off the fields: both ends declared, and the second is the single child or a string among the children of the first. |
| `ComponentGraph.TableFinds` | backend/internal/a2ui/graph.go:17-35 | With unique ids every component is found under its own id. |
| `ComponentGraph.CheckReferences` | backend/internal/a2ui/graph.go:40-50 | Reports nothing only if every reference resolves; otherwise names one that does not. |
| `JsonPointer.PrintedPointerResolves` | backend/internal/a2ui/chart_semantics.go:157-185 | For every tree and valid path, resolving the printed pointer reaches the node if and only if the path is not the single empty key and not the empty path at a null root. |
| `JsonPointer.ExceptionsOccur` | backend/internal/a2ui/chart_semantics.go:157-165 | The pointer to an object's empty key finds the object, and the pointer to a null document finds nothing. |
| `JsonPointer.UnescapeUndoesEscape` | backend/internal/a2ui/diagnostic.go:85-87 | Unescaping an escaped segment gives the segment back. |
| `JsonPointer.EscapedHasNoSlash` | backend/internal/a2ui/diagnostic.go:85-87 | An escaped segment contains no slash. |
| `JsonPointer.AtoiUndoesItoa` | backend/internal/a2ui/chart_semantics.go:174-178 | A printed array index reads back as itself. |
| `JsonPointer.ResolvesOnlyToNodes` | backend/internal/a2ui/chart_semantics.go:157-185 | Whatever any pointer resolves to is a node reachable by some path. |
| `JsonPointer.StrayPointersFail` | backend/internal/a2ui/chart_semantics.go:157-185 | A printed path that leaves the tree (a missing key, an index out of range, a step below a leaf) resolves to nothing, and so does a pointer without its leading slash. |
| `JsonPointer.AtoiExactly` | backend/internal/a2ui/chart_semantics.go:174-178 | Exactly an optional sign followed by one or more digits is read as a number. |
| `JsonPointer.EscapesOfRfc6901` | backend/internal/a2ui/diagnostic.go:85-87 | The escapes are those of section 3 of RFC 6901. |
| `JsonPointer.PointerAppend` | backend/internal/a2ui/diagnostic.go:75-83 | The builder loop appends the printed form of the path. |
| `JsonPointer.ResolveJsonPointer` | backend/internal/a2ui/chart_semantics.go:157-185 | The loop equals following the unescaped segments from the root. |
| `QuotaRuns.SlidingBound` | backend/internal/agentaccess/data_plane_quota.go:109-180 | Under a nondecreasing clock any half-open interval of one window length admits at most 2*limit-1 calls of an operation whose workspace (or client, agent, subject) is a given id. |
| `QuotaRuns.NeverRefusedEarly` | backend/internal/agentaccess/data_plane_quota.go:109-180 | A call whose workspace, client, agent and subject each had fewer than the limit of calls admitted within the last window length is admitted, unless the map is full. |
| `QuotaRuns.BucketsStayWithinLimit` | backend/internal/agentaccess/data_plane_quota.go:128-176 | No bucket ever counts above its operation's limit, whatever the calls and their times. |
| `QuotaRuns.RefusedCallLeavesNoTrace` | backend/internal/agentaccess/data_plane_quota.go:127-160 | Taking a refused or invalid call out of any timed sequence changes no other decision. |
| `QuotaRuns.NeverAboveMaxEntries` | backend/internal/agentaccess/data_plane_quota.go:149-160 | The map never holds more than MaxEntries buckets, whatever the calls and their times. |
| `DataPlaneQuota.KeysAreDistinct` | backend/internal/agentaccess/data_plane_quota.go:190-198 | The four dimensions of a request never share a bucket. |
| `DataPlaneQuota.KeyNamesOperation` | backend/internal/agentaccess/data_plane_quota.go:190-198 | Requests for different operations never share a bucket. |
| `DataPlaneQuota.KeysIdentify` | backend/internal/agentaccess/data_plane_quota.go:190-198 | Two requests share the bucket of a dimension if and only if they have the same operation and the same workspace (or client, agent, subject); buckets of different dimensions are never shared. |
| `DataPlaneQuota.InvalidExactly` | backend/internal/agentaccess/data_plane_quota.go:210-224 | A call is invalid if and only if its operation has no limit or one of its five ids is no canonical UUID. |
| `DataPlaneQuota.UuidExactly` | backend/internal/agentaccess/data_plane_quota.go:226-229 | The ids accepted are five groups of 8, 4, 4, 4 and 12 lower-case hexadecimal digits between hyphens, and nothing else. |
| `DataPlaneQuota.InMemoryQuota.Allow` | backend/internal/agentaccess/data_plane_quota.go:109-180 | Refuses ids that are no canonical UUID and unknown operations as invalid; admits all four dimensions or none; remaining is the exact minimum left and the reset time the exact earliest; a refusal names the full bucket and its wait or, when the map is full, the window. |
| `DataPlaneQuota.InMemoryQuota.PruneExpired` | backend/internal/agentaccess/data_plane_quota.go:182-188 | Removes exactly the buckets whose window has ended. |
| `RedisQuota.LimitersAgreeExactly` | backend/internal/agentaccess/redis_quota.go:10-31 | On every timed call sequence the in-memory and the Redis limiter make the same decisions if and only if no call is turned away for lack of map entries. |
| `RedisQuota.LimitersCanDiffer` | backend/internal/agentaccess/data_plane_quota.go:149-160 | Two calls inside one window, with room for four entries, on which the two limiters decide differently. |
| `RedisQuota.RedisSlidingBound` | backend/internal/agentaccess/redis_quota.go:10-31 | The Redis limiter, too, admits at most 2*limit-1 calls of an operation for a given workspace, client, agent or subject in any half-open interval of one window length, whatever MaxEntries says. |
| `RedisQuota.RedisNeverRefusesEarly` | backend/internal/agentaccess/redis_quota.go:10-31 | The Redis limiter admits every call whose four ids each had fewer than the limit of calls admitted within the last window length. |
| `RedisQuota.ScriptRefinesDecide` | backend/internal/agentaccess/redis_quota.go:10-31 | The script decides and updates as the abstract all-or-nothing quota on the unexpired keys, and leaves no key without expiry. |
| `RedisQuota.ViewAges` | backend/internal/agentaccess/redis_quota.go:23-25 | As time passes the store loses exactly the keys the in-memory limiter prunes. |
| `RedisQuota.RedisLimiter.RunScript` | backend/internal/agentaccess/redis_quota.go:10-31 | The two loops equal the script's specification; a refusal returns the TTL of a full key, an admission the least positive TTL of its keys or the window. |
| `RedisQuota.RedisLimiter.Allow` | backend/internal/agentaccess/redis_quota.go:51-91 | Ids that are no canonical UUID and unknown operations are invalid; otherwise the script decides. |
| `TaskWalk.NoTaskTwice` | backend/internal/a2agateway/task_store.go:185-311 | Following next-page tokens returns no task twice and everything in one strictly descending order, however saves interleave with per-task nondecreasing timestamps. |
| `TaskWalk.UntouchedExactlyOnce` | backend/internal/a2agateway/task_store.go:185-311 | On a complete walk every matching task nobody touched is returned exactly once. |
| `TaskWalk.OnlyMatching` | backend/internal/a2agateway/task_store.go:205-231 | Every key returned was that of a matching row when its page was read. |
| `TaskWalk.WalkIsBounded` | backend/internal/a2agateway/task_store.go:256-300 | A walk of n+1 pages has met n times the page size different tasks, so it ends once the store has no more. |
| `TaskWalk.WalkEnds` | backend/internal/a2agateway/task_store.go:256-300 | If saves stamp later than everything stored at the start, the walk returns only tasks of that first store and ends within its size, whatever is saved meanwhile. |
| `TaskWalk.WalkContinuesExactly` | backend/internal/a2agateway/task_store.go:239-255 | While there is a next token the next call succeeds, whatever the store has become, if and only if the last id of the last page has no underscore. |
| `TaskWalk.UnderscoreWalkStops` | backend/internal/a2agateway/task_store.go:347-362 | A store of two tasks whose walk stops after a first page with a next token, one task unseen. |
| `TaskWalk.PageIsExact` | backend/internal/a2agateway/task_store.go:240-300 | A page holds the first matching keys after the cursor, and has a next token exactly when something was left behind. |
| `TaskWalk.ListAnswersExactly` | backend/internal/a2agateway/task_store.go:185-311 | Page sizes outside 0 to 100 and negative history lengths are refused; 0 means 50; the total is the number of tasks matching the filters, wherever the cursor stands. |
| `TaskWalk.UnderscoreStopsTheWalk` | backend/internal/a2agateway/task_store.go:347-362 | A token made from a cursor is refused by the next call if and only if the task id contains an underscore. |
| `TaskWalk.VersionsCountSaves` | backend/internal/a2agateway/task_store.go:72-151 | A task's version is the number of its accepted saves and its row is what the last of them wrote. |
| `TaskWalk.SaveAnswersExactly` | backend/internal/a2agateway/task_store.go:72-151 | After every history of saves, a save is accepted with the number of accepted saves plus one if and only if its id is not empty and it names no version or that number (0 for a task not yet stored); it then writes exactly its own row, and otherwise nothing. |
| `TaskWalk.NoLostUpdate` | backend/internal/a2agateway/task_store.go:128-150 | A save naming a version is accepted if and only if no other save of the task was accepted since that version was handed out. |
| `TaskWalk.OneSavePerVersion` | backend/internal/a2agateway/task_store.go:128-150 | Of two saves naming the same version the later is a concurrent modification. |
| `TaskWalk.SaveEvolves` | backend/internal/a2agateway/task_store.go:72-151 | A save no earlier than the task's last one keeps all rows and no timestamp goes back. |
| `TaskStore.OrderedIsExact` | backend/internal/a2agateway/task_store.go:260-264 | The listing order contains exactly the given keys, each once, strictly descending by time and id. |
| `TaskStore.LessIsLexicographic` | backend/internal/a2agateway/task_store.go:260-264 | Ids compare by their first different byte, a proper prefix coming first. |
| `TaskStore.PostgresTaskStore.Save` | backend/internal/a2agateway/task_store.go:72-151 | Saves by version into the caller's own partition and touches no other; every error changes nothing. |
| `TaskStore.PostgresTaskStore.List` | backend/internal/a2agateway/task_store.go:185-311 | Equals the page specification with the source's error cases; a bad token is an error, never the first page. |
| `PageToken.TokenRoundTrip` | backend/internal/a2agateway/task_store.go:341-362 | A token reads back as its cursor if and only if the task id has no underscore, is refused otherwise, and is never empty. |
| `PageToken.Base64RoundTrip` | backend/internal/a2agateway/task_store.go:341-351 | Decoding the URL-safe base64 of any bytes gives the bytes back (section 5 of RFC 4648). |
| `PageToken.AlphabetIsUrlSafe` | backend/internal/a2agateway/task_store.go:341-351 | The symbols are those of the URL-safe alphabet of section 5 of RFC 4648, by code point. |
| `PageToken.BreaksAreSkipped` | backend/internal/a2agateway/task_store.go:347-351 | The decoder skips carriage returns and line feeds wherever they stand, and nothing else. |
| `BoundedReader.DrainExact` | backend/internal/a2agateway/ssrf.go:187-231 | For every body, however it chunks and stalls, and all buffers: a prefix of at most limit bytes comes out and, once an ending is reported, bytes and ending are those owed if and only if not (the body stalled when asked for more at the limit, and it had more bytes or an ending other than end of file to come). |
| `BoundedReader.SteadyBodyIsRight` | backend/internal/a2agateway/ssrf.go:187-231 | A body without empty successful reads comes out whole with its own ending within the limit, and otherwise as its first bytes and the limit error, never a clean end, after at most one read more than the limit. |
| `BoundedReader.DrainEnds` | backend/internal/a2agateway/ssrf.go:195-231 | Reading ends: one read more than the limit and the body's stalls together always brings an ending. |
| `BoundedReader.StallingBodyEndsCleanly` | backend/internal/a2agateway/ssrf.go:199-211 | A body of two bytes that stalls after the first ends cleanly behind a limit of one byte. |
| `BoundedReader.ReadOneExact` | backend/internal/a2agateway/ssrf.go:195-231 | Each single read keeps the reader on its prefix, and the ending it reports is right if and only if it was not misled by a stall at the limit. |
| `BoundedReader.BytesComeFirst` | backend/internal/a2agateway/ssrf.go:212-231 | The limit error never comes with bytes, and a clean end comes with bytes only if the body gave both at once. |
| `BoundedReader.MaxBytesReader.Read` | backend/internal/a2agateway/ssrf.go:195-231 | The object's read, with its probe and its peek, equals the specified step for every buffer size and every body. |
| `BoundedReader.MaxBytesReader.ReadAll` | backend/internal/a2agateway/ssrf.go:195-231 | Reading with any non-empty buffers ends for every body and is a drain of the specification, so all of the above holds of it. |
| `AapTheorems.SettledJobIsFrozen` | backend/internal/aapfile/repository.go:937-1134 | Over every interleaving the row of a terminal webhook, virus_scan or mime_detect job never changes again. |
| `AapTheorems.TimeoutShutsOutCallbacks` | backend/internal/aapfile/repository.go:1273-1283 | Once a worker holds a claim on a job no callback changes anything: timeout and callback have one winner. |
| `AapTheorems.OnlyPromoteIsRewritten` | backend/internal/aapfile/repository.go:303-312 | A step changes a terminal job status if and only if it is one of four writes on a promote job: release or completion by the claim still held, or a promotion result that passes its file guard. |
| `AapTheorems.PromoteCanReopen` | backend/internal/aapfile/repository.go:995-1019 | A reachable state has a READY file whose promote job is PENDING again, because promotion leaves the claim in place. |
| `AapTheorems.AbandonedJobStaysRunning` | backend/internal/aapfile/repository.go:956-964 | A RUNNING job of any stage stays as it is, and unclaimable, over every continuation in which nobody presents its token or, for promote, reports a promotion of its file, however long its claim has expired. |
| `AapTheorems.RunningJobKeptExactly` | backend/internal/aapfile/repository.go:956-964 | A RUNNING job of any stage keeps its row along a run if and only if no event presents its token with an accepted status or, for promote, reports a promotion that passes its file guard. |
| `AapTheorems.OverdueJobIsReachable` | backend/internal/aapfile/repository.go:937-992 | A reachable state has a required webhook job RUNNING under a claim that expired. |
| `AapTheorems.EvaluationIsItsEvents` | backend/internal/aapfile/service.go:1205-1276 | The read, list and mark events of an evaluation, with nothing in between, do what the undisturbed evaluation does. |
| `AapTheorems.ReadyIsJustified` | backend/internal/aapfile/service.go:1205-1276 | Every READY upload was declared so on a job list containing mime_detect, and each required stage on it, promote aside, still stands as SUCCEEDED or SKIPPED. |
| `AapTheorems.ReadyStaysJustified` | backend/internal/aapfile/service.go:1205-1276 | The same over every continuation, with the file still READY and its object set. |
| `AapTheorems.FileLifecycle` | backend/internal/aapfile/repository.go:127-390 | Over every continuation the version grows with every change, the status moves forward and never leaves READY, FAILED or EXPIRED, and the permanent object is set at most once and never cleared. |
| `AapTheorems.FileFacts` | backend/internal/aapfile/repository.go:652-705 | In every reachable state READY implies a permanent object, the staging key is absent exactly when the deletion mark is present, and UPLOADED or PROCESSING files have their promote job. |
| `AapTheorems.OvertakenVersionIsRefused` | backend/internal/aapfile/repository.go:1322-1417 | After any change to a file, a write naming the version before it is refused in every later state. |
| `AapPipeline.StepKeepsInv` | backend/internal/aapfile/repository.go:127-390 | Every event keeps the pipeline invariant, moves files only forward and leaves terminal non-promote jobs untouched. |
| `AapWorks.CallbackExactly` | backend/internal/aapfile/repository.go:1224-1319 | A callback settles a job if and only if the job is DELIVERED under that delivery and before its deadline, and then in exactly the status reported; it bumps the version of the file and touches nothing else. |
| `AapWorks.FailedCallbackFailsTheFile` | backend/internal/aapfile/service.go:1205-1276 | From every reachable state, a timely FAILED callback on a required stage and the evaluation after it make an unsettled promoted file FAILED, and no continuation makes it anything else. |
| `AapWorks.EvaluationExactly` | backend/internal/aapfile/service.go:1205-1276 | In every reachable state an undisturbed evaluation of an unsettled promoted file makes it FAILED if and only if some required stage failed or timed out, READY if and only if every required stage succeeded or was skipped, and otherwise changes nothing. |
| `AapWorks.EnqueueExactly` | backend/internal/aapfile/repository.go:1102-1134 | A new stage is PENDING, unclaimed and due at once; one already there is left alone. |
| `AapWorks.WebhookRoundTrip` | backend/internal/aapfile/repository.go:937-1099 | A due job can be claimed, delivered and settled by its callback, ending in the status reported with its delivery, deadline and flag and one attempt more. |
| `AapWorks.TimeoutRoundTrip` | backend/internal/aapfile/repository.go:937-1058 | Past its deadline a DELIVERED job takes no callback; it can be claimed and timed out, and the claim keeps it from other sweeps for exactly its lease. |
| `AapWorks.ReleaseRoundTrip` | backend/internal/aapfile/repository.go:937-1019 | A claimed PENDING job is claimable by nobody; released, it has the status, time and code named, and as PENDING is claimable exactly from that time on. |
| `AapWorks.JobCanSettle` | backend/internal/aapfile/repository.go:937-1058 | From every state a PENDING job can be settled in any terminal status, and a DELIVERED one with a deadline timed out, by waiting, claiming and completing. |
| `AapWorks.NewFilesExactly` | backend/internal/aapfile/repository.go:40-73 | A new upload is PENDING_UPLOAD with its staging key, a generated file READY with its object, both at version 1; an id in use is left alone. |
| `AapWorks.PendingFileMoves` | backend/internal/aapfile/repository.go:127-247 | In every reachable state a pending upload can be finished, which queues its promotion, failed, or expired while it has a staging key, with exactly these columns changed. |
| `AapWorks.UploadedFileMoves` | backend/internal/aapfile/repository.go:249-390 | In every reachable state an UPLOADED file has its promote job and no mime_detect; promoting it records the object and settles both, failing it fails file and promote job, with exactly these columns changed. |
| `AapWorks.ProcessingFileMoves` | backend/internal/aapfile/repository.go:1322-1417 | In every reachable state a PROCESSING file can be made READY or FAILED with its object kept, and is never failed by the write meant for files without one. |
| `AapWorks.HousekeepingExactly` | backend/internal/aapfile/repository.go:652-705 | Retention is cleared exactly on READY files that have one, staging exactly once, and only a pending upload that is to expire changes status. |
| `AapRepository.Repository.CompleteUploadCAS` | backend/internal/aapfile/repository.go:127-210 | The upload's compare-and-set and its promote job together; says exactly when it answers Ok (fresh or already done), NotFound or Conflict. |
| `AapRepository.Repository.ApplyPromoteSuccess` | backend/internal/aapfile/repository.go:249-338 | File, promote job and mime_detect in one transaction; the promote claim is left alone. |
| `AapRepository.Repository.MarkPromoteFailed` | backend/internal/aapfile/repository.go:341-390 | File and promote job FAILED together, or Conflict. |
| `AapRepository.Repository.ApplyCallbackCAS` | backend/internal/aapfile/repository.go:1224-1319 | Finds a job of the delivery or reports there is none; Ok exactly for a settled job, as it stands, or a timely callback, which puts the job in exactly the status reported and bumps the file; late and other callbacks change nothing. |
| `AapRepository.Repository.JudgeStages` | backend/internal/aapfile/service.go:1223-1239 | The loop's flags decide: failed iff some required stage failed or timed out, done iff all required stages succeeded or were skipped. |
| `AapRepository.Repository.EvaluateReady` | backend/internal/aapfile/service.go:1205-1276 | Leaves settled or unpromoted files alone and otherwise applies the verdict on the jobs by the version read. |
| `AapRepository.Repository.TimeoutDelivered` | backend/internal/aapfile/pipeline_worker.go:219-231 | Settles the claimed job as TIMED_OUT keeping its required flag and evaluates the file, or changes nothing. |

## Left out

- Writers of a single row or without a fence (`UpdateInboundTaskStatus`, `ForceMarkInboundTaskStatus`, `MarkInboundExecutionFinished`, `FencedTransitionAgentRun`): not on the gateway's path, and they would break the four-object agreement.
- `DeleteFinalizeOutbox` except after a successful finish, and all outbound calls.
- InboundStore.Repository.ProcessRow: the fenced payload only; an unfenced payload finalizes a nested delegation, which the protocol has as an event of its own that may happen at any time, but its outbox rows are not kept.
- The run repository and the audit writer appear only as their effect: a claim creates a RUNNING run, and `CreateDelegationAndStep` (backend/internal/agentdelegation/repository.go:507-633) inserts a running delegation with its step or replays it by idempotency key; child runs of nested delegations are not in the run table.
- Database triggers, the order and size of outbox claim batches, SKIP LOCKED, and output, error and summary columns.
- HTTP, JSON-RPC, JSON encoding, hashing, signatures, encryption, DNS, dialing and object storage; hashes and tokens are plain values.
- Schema and catalog validation; the fence splitter's JSON checks; the chart rules around the pointer resolver (stacking, series names, alignment, negative values).
- RedisQuota.RedisLimiter.Allow: only the decision, because the remaining count and reset time it reports are fixed guesses; times and window are whole milliseconds and a key is gone once its time to live has elapsed.
- PageToken.TokenRoundTrip: the timestamp text (RFC 3339 with nanoseconds) is a parameter that must read back what it prints and contain no underscore; calendars are not modelled.
- TaskStore.PostgresTaskStore.List: task ids are ordered bytewise, history and artifact projection of the returned tasks is omitted, and the page and its total are read from one state of the store.
- BoundedReader.DrainExact: bodies that stall only finitely often, since one that stalls for ever never ends.
- The worker's HTTP delivery: any later complete, deliver or release event of the claimed job; a claim takes some claimable job rather than the oldest.
- AapRepository.Repository.EvaluateReady: as a method it runs undisturbed; the interleaved form is the three evaluation events of `AapPipeline`, tied to it by `EvaluationIsItsEvents`.
- Job result contents other than the required flag, download tokens, artifacts, feature gates and metrics of the file pipeline.
- Console, SDKs, code generators, migrations, prompts and the remaining repositories: thin or easy.
