# ctxt: models and proofs of its hard cores

This project models, in Dafny, the parts of ctxt whose correctness is hard to see from any single
function, and proves what those parts promise. Code that changes state step by step is modelled by classes
and methods with loops; what it computes is tied to specification functions, and the promises are lemmas
about those functions or invariants over whole runs. Stores, clocks, the network and other processes are
nondeterministic steps: they may answer, fail or be cut off at any point.

* **Federation sync** (`PushRequests`, `SyncWorld`, `Pushers`, `LocalTarget`, `LocalPushing`,
  `SkipHistory`, `Syncing`). A source others keep writing to is pushed to a target in ChangeSeq order.
  `SyncWorld.World` records every state that is ever reached, so "every recorded state is good" is a
  statement about a sync cut off anywhere; `Syncing.Life` runs one Syncer after another, each dying after
  an arbitrary recorded state. "Acknowledged" means that the request holding the version was answered with
  success (remote) or that the watermark write that ends the push took effect (local). `World` also counts
  the calls that failed and keeps the last of them, so that why a push or a sync ended as it did, and whom
  it blames, is stated in both directions. The request split, the edges' placement, the watermark, the
  two-pass page push, the skip after three failures and the count a sync returns are all modelled.
* **Task leases** (`TaskLeases`, `TaskSettlements`, `TaskWatchers`). A state machine over the job row, the
  workers, their in-flight entries, claim objects and lease watchers of any number of pools.
* **Blank-line restoration** (`BlankLines`) and **layer edits** of the configuration files: `LayerNodes`
  changes YAML nodes in place, `LayerEdit` says what that makes of the tree and which laws it keeps.
* **Cycle detection** (`CycleDetection`), **re-projection** (`Reprojection`, with `Paging`),
  **key rotation** (`RotationChain`), **browser sessions** (`Sessions`) and the **syslog structured-data
  element** (`SyslogData`) with a reader following section 6.3 of RFC 5424.

## Where the code and what is said about it differ

The model follows the code.

* A failed remote push is said to leave the watermark at the last acknowledged object. It does if and only
  if the store carried out the watermark write after the last acknowledged request
  (`Pushers.WatermarkFollowsItsLastWrite`); when that write is lost the push fails with a whole request
  acknowledged above the watermark (`Pushers.WatermarkCanLag`). A caller sees an ordinary error in both
  cases.
* "Three syncs in a row" is three syncs in which that version failed, with no other object's failure and
  no success of a page holding it in between; a sync that failed for another reason in between does not
  start the count again (`SkipHistory.EverySkipIsEarned`).
* A local push succeeds although the target refused some of its objects. A row is refused when another has
  its id, its content hash in the same profile, its source key, or the id of one of its graph nodes: the
  database's unique indexes are four, the lookup before an insert checks one of the first two, and a
  violation of any is passed over. Of a batch of one source's rows, an acknowledged object's own row is at
  the target if and only if it was there before or no row there shared one of those keys
  (`LocalTarget.OwnRowReachesTheTarget`). So an edited object is acknowledged and its row stays as it was
  (`LocalTarget.EditsDoNotReachTheTarget`), and an object may be shut out with neither its id nor its
  content at the target (`LocalTarget.SourceKeyShutsOut`, `LocalTarget.NodesShutOut`).
* Renewing leases in time is said to keep a task job with one pool. Inside one pool exclusion needs no
  premise. Across pools, with every renewal in time, it holds if and only if three things never happen
  (`TaskLeases.RenewalKeepsExclusion`): a worker whose first lease attempt errors requeues the job by its
  id, whoever runs it by then (`TaskLeases.StrayRetryStartsSecondHandler`); an operator retries a job that
  has a handler, for example one cancelled a moment ago
  (`TaskLeases.OperatorRetryStartsSecondHandler`); or recovery finds the expired lease of a handler that no
  renewal could keep, because it renews with a claim its own pool handed over late
  (`TaskLeases.StaleTakeOverStartsSecondHandler`) or because its pool is stopping and it is slow to return
  (`TaskLeases.StoppingHandlerMeetsSecondHandler`). Only the first takes a failing store call.
* A job is completed or failed by its id, too. A running row is settled by a worker that handled the job, or
  by one whose first lease attempt errored and whose retry was refused or errored, and by nobody else
  (`TaskLeases.SettledByAHandlerOrAStrayFail`). While exclusion holds, the handler is the row's own; without
  it, it may be an earlier one (`TaskLeases.RivalSettlesAnothersRun`). The other worker fails a job that is
  running elsewhere even while exclusion holds (`TaskLeases.StrayFailSettlesAnothersRun`).
* A cancelled job does not always stay cancelled. Its row is rewritten by an operator's retry, but also by a
  handler that succeeds although it was told, by one that errs without having been told yet, and by a worker
  whose first lease attempt errored; by nothing else (`TaskSettlements.CancelledRowStands`).
* `ErrLeaseLost` is said to mean that the job no longer runs under the pool's claim, `ErrJobCancelled` that
  an operator cancelled it. The watcher compares its token, asks the job's status and only then cancels the
  handler, so what it tells may be overtaken. It is so at that moment if and only if, since the comparison,
  nobody handed the handler the claim the row runs under now, and, since the status was read, nobody settled
  or retried the job without its being cancelled again (`TaskLeases.HandlersAreToldTheTruth`). Otherwise a
  handler is stopped although its pool had just taken the job up again for it, on a live lease, and nobody
  else has it (`TaskLeases.TakeOverOvertakesTelling`), or as cancelled although the job is pending
  (`TaskLeases.RetryOvertakesTelling`).
* Also when what it is told is so, the token may be one its own pool handed over late: a worker that acquired
  an earlier claim replaces the running handler's newer one, and a handler whose row is live under its own
  claim is stopped (`TaskLeases.StaleTakeOverStopsHolder`).
* A request to a remote target is said to be repeated on 429 and 5xx answers. It is repeated on any answer
  but 200 and the other 4xx, so also on 204 (`SyncWorld.World.Send`).
* A row with an empty id is never reached by the re-projection cursor: with such a row stale, a run with no
  failure ends without stamping. A run whose context ends right after a row was re-projected does not count
  that row. Text repair may mark rows stale under a signature that stays stamped; that is the only way a
  stamped table holds a stale row, and the only way a finished row is attempted again under one projection
  version (`Reprojection.Life`).
* `restoreBlankLines` always ends the text with a newline, also where the original had none
  (`BlankLines.TextIsRestored`).
* Repeating a `Set` changes nothing except when an empty block collection replaced a non-empty flow one,
  which the YAML encoder never produces (`LayerEdit.SetTwiceIsSetOnce`).

## Model

| member | source | states |
|---|---|---|
| Syncing.Life | internal/federation/sync.go:92-203 | over any run of source writes, syncs, partial pushes, crashes after any state and new Syncers, no state has a current version at or below the watermark that is neither acknowledged nor skipped |
| Syncing.Syncer.Sync | internal/federation/sync.go:92-122 | a sync keeps every recorded state good; it returns exactly the number of versions acknowledged in it up to the end of the last page that went through, on failure too, and with no error that is all of them; with no error it covers everything committed before its last listing and leaves none of it above a watermark kept; it fails exactly when a call it needs failed, blaming an object exactly when that last failure was down to the object, or when its context ended; every earlier failure was down to an object and that object was given up on at once; an object error is returned only below three failures; it lists on only after full pages |
| Syncing.Syncer.SyncPage | internal/federation/sync.go:99-120 | one listing and its push: the position, the watermark and the count stay in step, on failure too; a page that was not full is the last and leaves nothing above the position |
| Syncing.Syncer.PushPage | internal/federation/sync.go:128-168 | at most two passes, two only after a second failure in a row was on file; success covers the page to its end, sets the watermark there and has acknowledged exactly what was kept of it; it counts what was kept of a page that went through and nothing else; it fails exactly when a call that is not down to a skipped object failed |
| Syncing.Syncer.Pass | internal/federation/sync.go:129-167 | a pass goes through, fails counting nothing unless only the watermark is missing, or skips one object and asks for another pass with the rest of the page still to send; it blames an object exactly when its one failure was down to the object |
| Syncing.Syncer.CountFault | internal/federation/sync.go:158-165 | the failing fields count, for every version at once, the run of its failures in the event log; the third is told apart |
| Syncing.Syncer.ClearFailing | internal/federation/sync.go:190-194 | a successful page clears the count exactly when it holds the failing version |
| Syncing.Syncer.SkipObject | internal/federation/sync.go:172-186 | the version joins the skipped ones, the count restarts, and the record is the newest hundred of all objects given up on |
| Syncing.Syncer.Prune | internal/federation/sync.go:197-203 | exactly the skips above the position remain, so after a sync without error none is kept of a version the watermark has passed |
| Syncing.Syncer.FindObject | internal/federation/sync.go:205-212 | an object with that id when there is one |
| Syncing.Syncer.Unskipped | internal/federation/sync.go:130-135 | the page less exactly the versions being skipped |
| Syncing.Syncer.constructor | internal/federation/sync.go:60-65 | a Syncer starts with nothing failing or skipped and the given batch size, or a hundred |
| Syncing.SkippedOnlyAfterThreeFailures | internal/federation/sync.go:158-186 | every version a Syncer has skipped had three failures in three syncs with nothing between them that starts the count again |
| Syncing.ShortPageIsLast | internal/federation/sync.go:118-120 | after a page that was not full, nothing committed by its listing is above the page's end, whatever was written since |
| Syncing.PassSkips | internal/federation/sync.go:140-166 | versions acknowledged before the failing object are sent again in the next pass, so each is counted once |
| Syncing.PageCovers | internal/federation/sync.go:140-148 | with the rest of a page acknowledged, everything up to the page's end is acknowledged or skipped |
| Syncing.PushObjects | internal/federation/sync.go:217-235 | hands over exactly the edges the source last listed from each object, in order, and the entities it last answered for them; a failed listing has acknowledged nothing; else the push's own outcome, with why it ended so |
| Syncing.CollectEdges | internal/federation/sync.go:217-232 | all edges from the objects, object by object, or a failure exactly when a listing failed |
| Syncing.Advance | internal/federation/remote.go:107-117 | moves a kept watermark only over covered versions, to just there when it succeeds, and fails exactly when the write was not reported to take effect |
| SkipHistory.EverySkipIsEarned | internal/federation/sync.go:150-166 | behind each object given up on: three failures of that version in three different syncs, the last in this one, no other object's failure and no success of a page holding it in between |
| SkipHistory.OneSkipPerSync | internal/federation/sync.go:128-168 | no sync gives up on two objects |
| SkipHistory.RunHasWitnesses | internal/federation/sync.go:158-162 | a run of n failures is n failures of that version in n different syncs |
| Pushers.RemotePush | internal/federation/remote.go:150-201 | the requests acknowledged are a prefix of the optimal split's requests, all of them on success, with one watermark write for each; the watermark stands at the last acknowledged object, or one request earlier when the last write was lost; it succeeds if and only if no call it made failed, and else ends at the first that did, blaming an object, one not acknowledged, if and only if that was its missing content or a too large answer to a request holding it alone; on success the content of every object was looked at |
| Pushers.WatermarkFollowsItsLastWrite | internal/federation/remote.go:171-178 | of the watermark writes of a push all but the last took effect, and the watermark is at the last acknowledged object if and only if the store carried that one out, too |
| Pushers.WatermarkCanLag | internal/federation/remote.go:171-178 | a push of two requests, both acknowledged, whose second watermark write is lost: it fails with the watermark a whole request behind |
| Pushers.Flush | internal/federation/remote.go:162-181 | a request is acknowledged before the watermark moves, which it does when its write lands, reported or not; success means both; an object is blamed if and only if the receiver answered 413 to a request holding it alone |
| Pushers.SuccessSendsEverythingOnce | internal/federation/remote.go:140-149 | a successful push has sent every object once in order and every edge once, in requests within the cap |
| PushRequests.SplitIsOptimal | internal/federation/remote.go:183-200 | no order-preserving split into requests within the cap, or of one object, is shorter; this one keeps order and cap |
| PushRequests.TakeIsMaximal | internal/federation/remote.go:190-199 | the open request takes as many objects as any fitting request starting there |
| PushRequests.GreedyStaysAhead | internal/federation/remote.go:183-200 | what any other split has not sent yet needs no more requests than that split has left |
| PushRequests.EverythingIsSentOnce | internal/federation/remote.go:183-200 | the requests' objects are the batch in order and their edges the batch's edges, each once |
| PushRequests.EdgesRideWithFirstTouched | internal/federation/remote.go:156-157 | each edge is in the request holding the first object it touches, one touching none in the first, which alone carries the entities |
| PushRequests.AssignEdges | internal/federation/remote.go:205-223 | the groups hold, in order, the edges whose first touched object is theirs, and every object with such edges has a group; loose are those touching none |
| PushRequests.FirstTouch | internal/federation/remote.go:203-216 | the first object an edge touches from either end, and none only when it touches none |
| LocalPushing.LocalPush | internal/federation/local.go:198-294 | success stores exactly the rows, edges and named entities that nothing at the target refused and then moves the watermark; a push whose watermark write does not land acknowledges nothing; nothing at the target is ever replaced; it succeeds if and only if no call it made failed, opening the target included, and blames an object if and only if its content was missing |
| LocalPushing.WriteRows | internal/federation/local.go:234-285 | although lookups may miss rows, the rows end up as if each object were offered once to all the unique indexes, and the edges added are those touching a created object |
| LocalPushing.CreateObject | internal/federation/local.go:51-94 | a row goes in only when nothing refuses it and only once its content was found, which is looked at again once the row is in; refused only when a unique key is taken, and always then unless a call failed; broken exactly when a call failed, with the row in or not |
| LocalPushing.LinkObject | internal/federation/local.go:266-284 | after a created object, every edge of the batch touching it is at the target and no other was added |
| LocalPushing.UpsertEntities | internal/federation/local.go:223-232 | the named entities are there before anything that may mention them |
| LocalTarget.AbsorbKeepsAndCovers | internal/federation/local.go:234-264 | rows are only added and are created objects' own, the unique indexes hold, and afterwards every object is at the target or would be refused |
| LocalTarget.OwnRowReachesTheTarget | internal/federation/local.go:254-264 | of a batch of one source's rows, an object's own row is at the target afterwards if and only if it was before or no row there shared its id, content, source key or a graph node |
| LocalTarget.OwnRowIsDecidedAtItsTurn | internal/federation/local.go:234-264 | for any batch: what is refused at its turn stays refused, and what is taken stays |
| LocalTarget.StoredBesideExactly | internal/storage/sqlite/objects.go:923-943 | a target with one row stores an object if and only if they share no id, no content in one profile, no source key and no graph node, and the object's own nodes differ |
| LocalTarget.SourceKeyShutsOut | internal/storage/sqlite/migrations/026_source_key.sql:5 | a successful push leaves out an object whose source key another row has, with neither its id nor its content at the target |
| LocalTarget.NodesShutOut | internal/storage/sqlite/objects.go:923-943 | so does a graph node's id that is taken, or that the object has twice |
| LocalTarget.RepushIsNoOp | internal/federation/local.go:184-197 | a batch pushed again, whatever else the target took since, changes no row |
| LocalTarget.EditsDoNotReachTheTarget | internal/federation/local.go:254-264 | an edited object whose id is taken is not stored, and the target's row stays as it was |
| SyncWorld.World.Others | internal/federation/sync.go:87-91 | other writers never put a version behind the source's clock, so coverage up to the clock lasts |
| SyncWorld.World.List | internal/federation/sync.go:100-107 | the next current versions in ChangeSeq order, none passed over |
| SyncWorld.World.Send | internal/federation/remote.go:225-288 | at most three attempts, another one exactly while the last answer is transient and the context lasts; only an answer of 200 acknowledges the request, only a final 413 reports it too large |
| SyncWorld.AttemptsEnd | internal/federation/remote.go:240-288 | only a last answer of 200 acknowledges and only a last 413 is too large; at most three attempts, fewer only after 200, a client error other than 429, or a context cut short, and no attempt after one of those answers |
| SyncWorld.World.SetWatermark | internal/storage/sqlite/watermarks.go:34-45 | the watermark moves only to a point up to which everything is acknowledged or skipped; the write may fail, or land and report an error |
| SyncWorld.PrefixCovers | internal/federation/remote.go:171-178 | acknowledging the first objects of a batch covers everything up to the last of them |
| SyncWorld.ListedIsReady | internal/federation/sync.go:99-111 | pushing a listed page leaves nothing before its end unacknowledged |
| Paging.PageIsNextKeys | internal/storage/sqlite/reproject.go:30-51 | a page is ascending, and a later key is left out only when the page is full of smaller ones |
| TaskLeases.OneHandlerPerPool | internal/jobs/tasks.go:112-129 | in any run at all, a pool that re-acquires a job it is running never starts a second handler |
| TaskLeases.RenewalKeepsExclusion | internal/jobs/tasks.go:24-33 | in any run in which live pools renew in time, for any pools, crashes, recoveries, cancels, shutdowns and take-overs: a job is its one handler's in every state if and only if no stray retry and no operator's strikes under a handler and no handler that cannot be kept outlives its lease into a recovery |
| TaskLeases.RecoveryFindsOnlyOutlived | internal/jobs/tasks.go:179-233 | the watcher's renewals keep the lease of every handler that renews with its own claim in a pool not stopping, so recovery finds only the others |
| TaskLeases.OneHandlerAcrossPools | internal/jobs/tasks.go:112-233 | then two handlers never run at once, the running row is the handler's own, and a handler that can be kept has a live lease |
| TaskLeases.ExclusionBreaksOnlyByHazard | internal/jobs/tasks.go:112-177 | punctual or not, a step breaks exclusion if and only if it recovers or retries the row under an active handler |
| TaskLeases.SettledByAHandlerOrAStrayFail | internal/jobs/tasks.go:131-177 | in any run, a running row is completed or failed by a step if and only if that is the settlement of a worker that handled the job, or the fail of one whose first lease attempt errored; while exclusion holds, the worker is the row's own handler |
| TaskLeases.RivalSettlesAnothersRun | internal/jobs/tasks.go:151-171 | a run without exclusion in which an earlier handler completes a job another pool is handling |
| TaskLeases.StaleTakeOverStartsSecondHandler | internal/jobs/tasks.go:118-128 | a run with every renewal in time and every store call answered in which a late take-over gives the job a second handler |
| TaskLeases.StoppingHandlerMeetsSecondHandler | internal/jobs/tasks.go:184-212 | such a run in which the pool stops and its slow handler outlives its lease |
| TaskLeases.StrayFailSettlesAnothersRun | internal/jobs/worker.go:413-436 | a run in which a worker that never got its lease fails a job another pool is handling |
| TaskLeases.AbandonedJobIsRecoverable | internal/jobs/tasks.go:24-33 | a running job nobody handles is one lease's end and one recovery from pending |
| TaskLeases.LateRenewalStartsSecondHandler | internal/storage/sqlite/jobs.go:269-300 | a run in which a lease that ran out gives the job a second handler |
| TaskLeases.StrayRetryStartsSecondHandler | internal/jobs/tasks.go:131-135 | a run without delay in which a failed first lease requeues another pool's job |
| TaskLeases.OperatorRetryStartsSecondHandler | internal/storage/sqlite/jobs.go:237-252 | a punctual run with every call answered in which a job cancelled and retried before its watcher looks gets a second handler |
| TaskLeases.HandlersAreToldTheTruth | internal/jobs/tasks.go:184-233 | in any run, a handler told of a cancel, a shutdown or a lost lease is told what is so at that moment if and only if no hand-over of the claim the row now runs under, and no settlement or retry of a cancelled job, overtook the telling; only its own watcher tells it |
| TaskLeases.TakeOverOvertakesTelling | internal/jobs/tasks.go:217-229 | a run in which the pool takes the job up again between the token's comparison and the cancel: the handler loses a job that runs under its token on a live lease and that nobody else has |
| TaskLeases.RetryOvertakesTelling | internal/jobs/tasks.go:207-211 | a run in which the job is retried between the status read and the cancel |
| TaskLeases.UnheldRun | internal/jobs/tasks.go:213-230 | a token once found unheld is never held again, since no claim is minted twice |
| TaskLeases.StaleTakeOverStopsHolder | internal/jobs/tasks.go:118-128 | a run in which a late take-over makes a handler lose the lease it holds |
| TaskLeases.PoolRun | internal/jobs/tasks.go:112-129 | claims stay unique and each pool's in-flight entry belongs to the worker that will delete it |
| TaskSettlements.SettlementsFollowTheHandler | internal/jobs/tasks.go:149-177 | in any run, each step a worker takes to settle leaves the row as what its handler returned and had been told by then say: completed after success; untouched when told of a cancel or a lost lease; running, its lease released under the token read, when told the pool stopped; failed for good; or requeued with one retry more while one is left, failed after that; whatever happened in between, and nothing else changes |
| TaskSettlements.CancelledRowStands | internal/jobs/tasks.go:131-177 | in any run a cancelled row is changed if and only if by an operator's retry, or the settlement of a worker whose handler succeeded, erred without having been told, or never started because its first lease attempt errored; one that was told and did not succeed leaves it |
| TaskSettlements.RunningRowEnds | internal/jobs/tasks.go:149-177 | in any run a running row is completed exactly by a worker whose handler succeeded, failed exactly by one whose handler, not told to stop, erred for good or was refused its retry, requeued exactly by recovery, an operator or such a handler with a retry left, and retries go up only there |
| TaskSettlements.HandlerSettles | internal/jobs/tasks.go:116-177 | a worker whose handler has returned settles in at most three steps of its own when the store answers, leaves the row just as its outcome and what it was told ask, and drops its in-flight entry |
| TaskWatchers.RenewalExtendsOrTells | internal/jobs/tasks.go:213-230 | a renewal left to itself gives the job a whole lease period again while it runs under the handler's token; else the handler is told of the cancel if the job is cancelled, and that the lease is lost if not |
| TaskWatchers.LooksTell | internal/jobs/tasks.go:199-212 | a cancel or the pool's stop reaches a handler at work at its watcher's next look, and it is told just that |
| TaskWatchers.RenewalGoesOn | internal/jobs/tasks.go:213-230 | a renewal whose store call failed, or whose token was replaced meanwhile, leaves the watcher ticking and everything else alone; an unanswered status query counts as a lost lease |
| TaskWatchers.HandlerRemembers | internal/jobs/tasks.go:140-150 | until its worker decides, a handler's outcome is the one it returned and its cause the first it was told |
| TaskWatchers.NoDeadEntries | internal/jobs/tasks.go:112-129 | in any run an in-flight entry belongs to a worker of its pool that is still to delete it, so a job is handed over to a running handler only |
| TaskWatchers.RetriesAreBounded | internal/storage/sqlite/jobs.go:237-252 | in any run, however retries by handlers, unleased workers and operators mix, the job is retried at most as often as it may be |
| TaskWatchers.StoppedPoolTakesNothing | internal/jobs/tasks.go:106-129 | a pool that is stopping acquires nothing more |
| TaskLeases.StrayRetryRequeues | internal/jobs/worker.go:413-420 | the retry after a failed first lease acts on the row by id alone |
| BlankLines.LcsIsUpperBound | internal/config/layer.go:409-424 | no common subsequence is longer than the recurrence says |
| BlankLines.LcsIsReached | internal/config/layer.go:409-424 | some common subsequence is that long |
| BlankLines.FillTable | internal/config/layer.go:412-424 | every cell holds the LCS length of its two suffixes |
| BlankLines.FillRow | internal/config/layer.go:415-423 | a row is right once the row below is, and no other row changes |
| BlankLines.MergeKeepsBothSides | internal/config/layer.go:425-443 | the walk keeps the re-encoded lines in order, adds only blank original lines, every one of them in order, and aligns as many lines as possible |
| BlankLines.RestoresExactlyDroppedBlanks | internal/config/layer.go:402-444 | the original comes back if and only if the re-encode only dropped blank lines |
| BlankLines.WalkIsTheFirstBest | internal/config/layer.go:425-443 | the walk is an alignment of both texts with as many matches as any, and of those the one that matches first and takes new lines before it passes old ones; that order being total, it settles where every line goes |
| BlankLines.MatchEarly | internal/config/layer.go:427-431 | matching the first equal pair never loses an alignment by deletions |
| BlankLines.TextIsRestored | internal/config/layer.go:402-444 | on texts, for a re-encode whose lines are the original's with blank ones deleted: byte for byte, but for the final newline |
| BlankLines.EditWins | internal/config/layer.go:397-444 | on texts, for any other edit: the result's lines are the re-encode's in order with lines of the original between them, all blank; every blank line of the original is among the result's, in order, and as many lines as possible are those of both |
| BlankLines.NothingToRestoreFrom | internal/config/layer.go:402-408 | with an empty original, or more than 4194304 cells to compare, the result is the re-encode |
| BlankLines.RestoreLines | internal/config/layer.go:412-443 | the table and the loop compute the walk |
| BlankLines.RestoreBlankLines | internal/config/layer.go:402-444 | the method computes the restored text, or the re-encode when there is nothing to restore from or too much to compare |
| BlankLines.JoinUndoesSplit | internal/config/layer.go:446-452 | joining the lines of a text gives the text back |
| BlankLines.LinesAreUnique | internal/config/layer.go:446-452 | the lines of a text are the only ones without a newline that join to it |
| BlankLines.SplitIsNewlineFree | internal/config/layer.go:446-452 | no line of a text contains a newline |
| BlankLines.LinesOfFile | internal/config/layer.go:446-452 | a file's lines join to it but for one final newline; only an empty file or a single newline has none |
| BlankLines.SpacesAreUnicodes | internal/config/layer.go:437-439 | a line is blank exactly when it holds nothing but the twenty-five white space characters of Unicode |
| LayerNodes.Layer.Set | internal/config/layer.go:123-154 | on nodes changed in place: a Set that fails or finds its value there leaves the tree and the dirty mark alone; else the tree is exactly the edited one |
| LayerNodes.Layer.Delete | internal/config/layer.go:157-174 | reports whether the path was there; if so the tree is exactly the one without it, if not nothing changes |
| LayerNodes.Layer.NodeAt | internal/config/layer.go:257-270 | the loop finds the node the path leads to, or that there is none |
| LayerNodes.SetUnder | internal/config/layer.go:275-300 | the walk that creates missing and null levels in place makes of the tree what the specification says, and touches only its own nodes, new ones and the value's |
| LayerNodes.SetHeldLeaf | internal/config/layer.go:134-147 | a value replaced in place leaves every node of the mapping the node it was, so aliases stay valid |
| LayerNodes.Replace | internal/config/layer.go:139-146 | the old node takes over the new value with its own presentation, unless it holds that already |
| LayerNodes.DeleteUnder | internal/config/layer.go:157-174 | exactly the entry at the path is dropped from its mapping, in place |
| LayerNodes.SameNode | internal/config/layer.go:364-368 | two nodes are the same when they stand for the same tree |
| LayerNodes.YamlNode.CarryFrom | internal/config/layer.go:340-361 | comments, anchor, quoting and flow style carry over as the specification says |
| LayerNodes.YamlNode.IndexOf | internal/config/layer.go:310-317 | the first entry under the key |
| LayerEdit.SetHolds | internal/config/layer.go:123-154 | after a Set the path holds the new value |
| LayerEdit.SetReplacesOneNode | internal/config/layer.go:123-148 | a Set of a path that is there leaves every level, entry and comment but the one node, which takes the value in the old one's look; nothing when it holds that already |
| LayerEdit.SetExtendsOneLevel | internal/config/layer.go:275-308 | a Set of a path there only in part adds one entry, last, at the deepest level there, the missing keys as block mappings below each other; a null there becomes a mapping with its comments, an empty flow mapping a block one, anything else refuses |
| LayerEdit.CarriedLook | internal/config/layer.go:338-361 | the new node has the old one's comments but where it brings its own, its anchor, its quotes if a non-empty string, and its flow style if both are collections of one kind and the old one was not empty |
| LayerEdit.SetLeavesOthers | internal/config/layer.go:275-300 | paths that neither lead to nor through the edited one look up as before |
| LayerEdit.SetFailsExactlyOnForeignLevel | internal/config/layer.go:275-300 | a Set fails if and only if a level above the key holds neither a mapping nor null |
| LayerEdit.SetKeepsKeysUnique | internal/config/layer.go:134-153 | no mapping gains a second entry with the same key |
| LayerEdit.SetTwiceIsSetOnce | internal/config/layer.go:119-145 | a repeated Set changes nothing, if and only if it is not the one flow-style case |
| LayerEdit.DeleteRemovesExactly | internal/config/layer.go:157-174 | exactly the path and what lies below it become absent |
| LayerEdit.DeleteCutsOneEntry | internal/config/layer.go:157-174 | exactly the first entry under the last key is cut out of the mapping above it, and where there is none nothing happens |
| LayerEdit.DeleteUndoesAdd | internal/config/layer.go:123-174 | deleting a key just added to a non-empty mapping gives the tree back |
| CycleDetection.DetectCycles | internal/graph/integrity.go:291-324 | nil if and only if no cycle and no failing node is reachable; a reported path is a real walk that closes on itself |
| CycleDetection.Search.Dfs | internal/graph/integrity.go:297-324 | the search keeps a finishing order of its nodes, extends real walks, and ends because unvisited nodes shrink |
| CycleDetection.FinishedIsAcyclic | internal/graph/integrity.go:297-324 | from a node in a finishing order no cycle and no failure is reachable |
| Reprojection.Reprojector.Run | internal/jobs/reproject.go:180-235 | each row stale when the pass begins is attempted at most once, and exactly once unless deleted or rewritten since the pass began or cut off; the counters are what the store answered, less the one attempt right after which the context is found ended; no row is handed over once the context has ended; the run stops early exactly when a call failed or the context ended, for just that reason; Done never exceeds Total; only failed rows are left; stamping means nothing stale and none failed; text repair comes first, and only it makes rows stale |
| Reprojection.Reprojector.RunPass | internal/jobs/reproject.go:196-233 | the pass ends, asks for the given number of rows a page or 200, attempts rows in order once each, accounts for every attempt, writes how far it has come after each page, and stops early exactly when a call failed or the context ended |
| Reprojection.Reprojector.ListAndRun | internal/jobs/reproject.go:202-230 | a page moves the cursor past every stale row it lists; an empty page leaves only failed rows |
| Reprojection.Reprojector.RunPage | internal/jobs/reproject.go:211-227 | rows are handed to the store in their turn until the context ends |
| Reprojection.Reprojector.RunRow | internal/jobs/reproject.go:212-227 | a row cut off right after its attempt is the one attempt not counted, and none is attempted once the context is found ended |
| Reprojection.Reprojector.Begin | internal/jobs/reproject.go:247-275 | the total lies between the rows stale when the pass begins and those stale before, and is what the status was claimed with; fails exactly when a call failed or the context ended |
| Reprojection.Reprojector.Finish | internal/jobs/reproject.go:306-330 | stamps exactly a table with nothing stale after a pass without failure, unless a call fails; then writes that the upgrade is complete |
| Reprojection.Life | internal/jobs/reproject.go:29-35 | over any life of runs cut off anywhere, writers and new versions: a row current after one run is in no later run's attempts and is not stale again unless it is repaired or a new version comes; a run not cut off and without failure, after however many that were, leaves nothing stale and the signature stamped, and only such a run does |
| Reprojection.RunResumes | internal/jobs/reproject.go:29-35 | a run that attempts only rows stale or repaired, and leaves only those, goes on from where the runs before it got to |
| Reprojection.AttemptReaches | internal/jobs/reproject.go:277-292 | an attempt in turn extends what the pass has reached up to that row |
| Reprojection.OthersKeepReached | internal/jobs/reproject.go:196-230 | other writers never undo what the pass has reached |
| Reprojection.Table.Reproject | internal/storage/sqlite/reproject.go:56-92 | re-projects a row only when it is stale, in one transaction |
| Reprojection.Table.Stamp | internal/jobs/reproject.go:320-330 | demands that nothing is stale |
| RotationChain.RotateAndAsk | internal/bundle/rotation.go:97-155 | over the directory itself, after any run of rotations in which saving, archiving or storing the new key may fail: FingerprintInChain accepts exactly the keys that were ever active, and so does every later question of that log |
| RotationChain.KeyDirectory.RotateKeys | internal/bundle/rotation.go:102-155 | once the log is saved, even when archiving the old key then fails, the old key leads to the new one and every other key where it led before |
| RotationChain.KeyDirectory.FingerprintInChain | internal/bundle/rotation.go:204-233 | true if and only if the last-wins successors lead from the fingerprint to the current key, for any log |
| RotationChain.ChainHoldsExactlyTheActiveKeys | internal/bundle/rotation.go:102-138 | in the log of any run of adopted and abandoned rotations the current key's chain holds exactly the keys ever active |
| Sessions.WithDefaults | internal/auth/session.go:99-116 | a duration that is configured stays; one that is not becomes twelve hours, seven days or a minute |
| Sessions.Session.MintFor | internal/auth/session.go:270-302 | a session starts seen now and not expired, its idle expiry within both the idle time and its absolute expiry |
| Sessions.Session.Authenticate | internal/auth/session.go:354-401 | an error of the store is answered exactly when the call it made failed; accepted is exactly a live session with its credential in force; a live one whose credential was withdrawn ends revoked; a touch due is stored at the touch's time with the idle expiry an idle time later but not after the absolute one, which never moves; nothing else changes |
| Sessions.RowTellsItsRun | internal/auth/session.go:354-401 | in any run a session is revoked exactly when a request found it live and its credential withdrawn, and its last-seen time is that of sign-in or of a request that was accepted |
| Sessions.NoneAfterRevocation | internal/auth/session.go:391-396 | after a request revoked the session, no later one of any run is accepted |
| Sessions.PaceKeepsRowFresh | internal/auth/session.go:362-371 | throttled touches never fall a full touch interval behind |
| Sessions.PacedSessionLivesExactlyMaxTTL | internal/auth/session.go:283-297 | a session used at a safe pace is accepted if and only if sign-in plus MaxTTL has not come |
| Sessions.SlowestSafePace | internal/auth/session.go:354-371 | a pace always keeps the session if and only if it is at most IdleTTL minus TouchEvery, or the lifetime ends before the idle time |
| Sessions.NoneFromExpiryOn | internal/storage/ui_sessions.go:49-51 | no request from the absolute expiry on is accepted or changes the session |
| SyslogData.ThreePassesAreOneEscape | internal/audit/format.go:98-103 | the three whole-string replacements are one simultaneous escape of section 6.3.3 of RFC 5424 |
| SyslogData.ReadValueUndoesEscape | internal/audit/format.go:85-87 | a reader of that section recovers any value and stops at its closing quote |
| SyslogData.ParamsRoundTrip | internal/audit/format.go:74-79 | any list of plainly named parameters is read back exactly |
| SyslogData.ElementRoundTrip | internal/audit/format.go:70-79 | all four parameters of the printed element are read back exactly, for every value |
| SyslogData.ElementTellsTheEntry | internal/audit/format.go:70-79 | a reader of the printed element finds, under ctxt's own SD-ID, event_type, object_id, actor and id once each and in that order with the entry's values, and nothing else |
| SyslogData.ElementsDiffer | internal/audit/format.go:70-79 | two entries that print the same element are equal in those four values |

## Left out

- Transport: JSON encoding and blob stores are steps that succeed, fail, or fail on one object; an object's encoded size is any natural number.
- SyncWorld.World.Send: the waits between attempts; what a receiver keeps of a request it did not acknowledge is not modelled.
- SyncWorld.World: one Syncer at a time per target, as the source asks; another process writing the same watermark is not modelled, nor a target database deleted under a kept Syncer.
- SyncWorld.World.List: the object filter's other fields and the total it also returns.
- Syncing.Syncer.Sync: ends after a given number of listings, standing for its context; the log lines and times of skipped objects are not kept.
- PushRequests.FirstTouch: ids, hashes and slugs are wrapped strings of which only equality and emptiness matter.
- LocalTarget.OwnRowReachesTheTarget: that the rows of one source share no unique key is its premise, since they are rows of one database; the constraints of tables other than objects and object nodes never refuse a row a push creates.
- LocalPushing.LocalPush: whether an edge not delivered by a push that was cut off is delivered later; edges are inserted only for newly created rows, so no such promise holds. The target's lock, its opening and migration, and the content of a 'full' entity record are not modelled.
- Pull, federation configuration and its own cycle check, and the federation worker's schedule.
- TaskLeases.OneHandlerAcrossPools: one job at a time (jobs share no state here); ingest jobs, events and fan-out are outside it, and all processes share one clock. That live pools renew in time is a premise on the run's renewals (no lease period passes over a watched handler without one the store answers); tick intervals are arbitrary within it, and the lease period is positive, as the pool's constant is.
- TaskLeases.AbandonedJobIsRecoverable: that stale recovery keeps being called is the loop's schedule, not part of the model.
- LayerNodes.SameNode: compares node trees rather than their marshalled text.
- LayerNodes.SetUnder: the walk down the levels is a recursion, not a loop, so that each level's ghost view is brought up to date on the way back; an alias is a node naming its target, and what it resolves to is not followed.
- LayerNodes.Layer.Set: YAML parsing and encoding, key-node comments, RemoveItems, indent detection and saving.
- BlankLines.RestoresExactlyDroppedBlanks: the size guard's branch returns the re-encode unchanged, and is modelled; no claim is made about it.
- CycleDetection.DetectCycles: the rest of the graph validation (slugs, mentions, namespaces, orphans, duplicates) computes results case by case.
- Reprojection.Reprojector.Run: progress events, the job handler around a run and the scheduling of one; a status write either succeeds or stops the run, and the best-effort writes of a failed status are not modelled. What text repair makes of a row's text is not modelled, only which rows it marks stale.
- RotationChain.KeyDirectory.RotateKeys: signatures, key generation and the keychain; fingerprints are values that never repeat.
- Sessions.PacedSessionLivesExactlyMaxTTL: stored times are not truncated to the store's resolution; login codes, scopes and principals are one answer, that the credential is in force, withdrawn or not known.
- SyslogData.ElementRoundTrip: the header fields before the element and the message after it, and the CEF form.
