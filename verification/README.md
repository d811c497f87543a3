# Verification of the node relay

A Dafny model of the relay that carries coding jobs from the Hive, through a
shared object store, to remote worker nodes and back, with proofs of what it
promises. Check it with `dafny verify dfyconfig.toml`.

**The job in the bucket.** `LeaseProtocol` is a state machine whose steps are
single store calls: enqueuer, any number of workers (each with an executing and
a renewing thread that share a lock), any number of reconcilers. A call may be
lost, or take effect and still raise; anybody may crash between two calls.
Versions are fresh generations or a function of the body (the conditional
writes of sections 13.1.1 and 13.1.2 of RFC 9110). `LeaseSafety` and
`LeaseSteps` hold the invariant, `LeaseTheorems`, `LeaseOnTime`, `LeaseTiming`
and `LeaseRecovery` what follows from it over whole runs, `LeaseMany` lifts it
to many jobs. `LeaseCauses` and `LeaseRest` say of whole runs why anything is
written or deleted. `RelayClient` has the client's own methods over a versioned
bucket, `LeaseCalls` ties them to the machine's steps, `Scan` and `Poller` are
the rotating scan and the capped sweep.

**The way home.** `ReviewProtocol` is a second state machine: reconcilers that
land a patch, report and purge, against arbitrary git, disk and Hive answers.
`ReviewSafety`, `ReviewRaces` and `ReviewCauses` hold its theorems,
`ReviewResults`, `ResultCap` and `JsonText` what is reported, `Reconciler` the sequential code, which is shown
to be a run of that machine. `ReviewMany` runs many jobs at once, whose branches
and orphan files are named after their ids and may coincide, and lets a PATCH
arrive late; `ReviewManySafety`, `ReviewManyLosses`, `ReviewManyLanding` and
`ReviewManyTheorems` say what they can do to each other. `BranchName` and
`CachePrune` are the lander's names and clone cache.

**The node and the enqueuer.** `Regex`, `FileBlocks`, `FileRoundTrip` and
`FileReplies` model the file framing with its regular expressions,
`RepairGuards` and `RepairLoop` the guards and the loop of model replies, `Fallback` the chain of backends, `Enqueuer`,
`Context` and `Offload` the enqueuer's sweep, context packing and repository
resolution.

## Where the code says otherwise than its documentation

- The lease chain needs more than the comments ask: `_ClaimLease.stop` waits one
  second for the renewing thread and then goes on. If the same worker claims the
  job again while that thread is still in its call, the marker's time can go back
  by a whole lease (`LeaseTheorems.StragglerTurnsLeaseBack`). `joined` says
  whether the wait was long enough. Only the order of `claimed_at` depends on it,
  and exactly so (`LeaseTheorems.ChainHoldsExactlyWhenJoined`); everything else is
  proved of workers with stragglers too.
- `save_orphan_patch` calls itself durable, but it truncates its file first, and
  names it without the hash that keeps branches apart. A patch can be lost to
  another reconciler of the job, to a job whose id is sanitized alike
  (`ReviewManyLosses.SharedFileLosesPatch`, no fault needed), or to a report that
  arrives late; and a job that finds its branch takes it for its own landing,
  whosever it is. `ReviewManyTheorems.NothingIsLostExactlyWhen` is the condition
  under which no run loses a patch, `ReviewManyTheorems.NoPatchOfManyIsLost` the
  case of ids that the sanitizer leaves alone.
- `_shrink_result` says it drops fields until the result fits; what it always
  keeps can be above the cap by itself (`ResultCap.LongBranchExceedsTheCap`), and
  that is the only way to exceed it (`ResultCap.ShrinkIsBounded`).
- `claim` treats an unparseable marker as expired, but a marker that is JSON and
  not an object makes it raise (`RelayClient.Client.Claim`).
- The payload repeats the job's repository resolution except in one corner with
  a nameless allowlist entry (`Offload.OffloadAgrees`).
- A sweep that stops at its cap has already moved the cursor past one key
  (`Poller.CappedSweepDrops` says when, and which; `Poller.CappedSweepSkips` is
  an example); the drain bound holds in spite of it.
- An altered job id's branch can be another id's, although the comment calls it
  collision-resistant (`BranchName.BranchesCollideExactlyWhen`).

## Model

| member | source | states |
|---|---|---|
| LeaseTheorems.EveryLogIsOK | node_relay/relay_client.py:370-419 | in every interleaving of any workers, stragglers included, under either version scheme, each marker write is a creation on an absent marker, a takeover at least one lease above the marker it replaced, or a renewal by the owner it found, which is never earlier than that marker if renewing threads are joined |
| LeaseTheorems.LeaseSpan | node_relay/relay_client.py:386-402 | if renewing threads are joined, then between purges of the marker `claimed_at` never decreases and k takeovers span at least k leases |
| LeaseTheorems.OwnerStays | node_relay/relay_client.py:404-419 | without a takeover the owner on the marker does not change |
| LeaseTheorems.HoldsOnlyByReclaiming | node_relay/relay_client.py:404-419 | an owner whose marker was taken or deleted finds its name there again only after a new claim of its own |
| LeaseTheorems.RenewalIsOwners | node_relay/relay_client.py:404-419 | a renewal replaced its own owner's marker, and if that owner had lost it before, it had reclaimed it in between |
| LeaseTheorems.FencedTerminal | node_relay/node_poller.py:929-976 | every terminal write of every run, with stragglers too, follows an owner-checked renewal by the same session; the check precedes every purge of the marker; a worker that lost its marker before the check had reclaimed it |
| LeaseTheorems.TerminalIsStable | node_relay/relay_client.py:448-454 | while the terminal object exists its body never changes and nobody writes another |
| LeaseTheorems.PurgeOrder | node_relay/relay_client.py:483-492 | in every reachable state, mid-purge too, a pending object has its claimant route beside it, and no claim made after the marker's purge reaches the executor |
| LeaseTheorems.StragglerTurnsLeaseBack | node_relay/node_poller.py:872-889 | for every lease and version scheme, a run in which a renewing thread that outlived the one-second wait turns `claimed_at` back by the whole lease |
| LeaseTheorems.ChainHoldsExactlyWhenJoined | node_relay/node_poller.py:872-889 | all runs keep the whole chain of marker writes if and only if renewing threads are joined |
| LeaseSteps.NextKeeps | node_relay/node_poller.py:998-1086 | every step of every participant keeps the invariant of marker, log, sessions, lock and write order |
| LeaseOnTime.OnTimeOwnerKeepsTheJob | node_relay/node_poller.py:876-951 | with a common clock, no purge, no store errors and renewals in time, no contender's claim ever succeeds and no renewal of either thread fails |
| LeaseTiming.IntervalWithinThird | node_relay/node_poller.py:876-886 | the wait between renewals is at most a third of the lease exactly when the lease is at least 0.15 |
| LeaseTiming.IntervalIsLongest | node_relay/node_poller.py:876-886 | the wait is the longest within a third of the lease, a third of the Hive's lease and the progress time, but for the least wait of 0.05 |
| LeaseTiming.ScheduleIsFresh | node_relay/node_poller.py:876-951 | a run whose renewing threads rest, wait for the lock, read and write within bounds that sum to less than the lease has a marker younger than the lease in every state with somebody at work; after the work the run goes on while the marker lasts |
| LeaseTiming.RoundTripsUnderTwoThirdsSuffice | node_relay/node_poller.py:876-889 | with the wait the code computes and the rest under two thirds of the lease, every state of the run, its terminal write included, is in time, so nobody takes the job over and no renewal fails |
| LeaseTiming.ScheduleCanBeKept | node_relay/node_poller.py:876-976 | under every pace there is such a run, in which a worker claims, rests for its whole wait, renews, executes and writes what its executor returned, or the failure if it raised |
| LeaseRecovery.Recovers | node_relay/node_poller.py:979-1086 | after any run at all, a worker that begins once the lease is over and runs alone ends, within eleven steps of its executing thread, with a terminal object present; and unless one was there before, it is the one due: the executor's report if it returns, a failure if it raises, if activity could not be published, if the id does not match, or if the pending object is corrupt |
| LeaseRecovery.RunsAlone | node_relay/node_poller.py:998-1086 | running alone, every step that does not wait lowers the rank of the executing thread, and an ended session has left a terminal object |
| LeaseCauses.WrittenForItsCause | node_relay/node_poller.py:1012-1086 | in every run of all participants a terminal object has its cause: a report is what that session's executor returned, on a pending job whose activity it had published; a failure follows the executor's raising or a raising write of its report, or activity that could not be published, or a wrong id, or a corrupt object with a usable route, each only its own |
| LeaseCauses.ExecutedOnceOnAPublishedJob | node_relay/node_poller.py:1048-1063 | in every run an execution is of a pending job whose activity the session published, and no session executes twice |
| LeaseCauses.PendingIsOffered | node_relay/enqueuer.py:200-207 | the pending object of any state is one that the enqueuer offered |
| LeaseCauses.RaisedReportIsReplaced | node_relay/node_poller.py:1062-1085 | a report whose write raised without effect is not lost in silence: if the worker goes on alone, it ends with a failure as the terminal object |
| LeaseRest.RestIsSilent | node_relay/node_poller.py:872-889 | in every run a session whose executing thread has ended and whose renewing thread rests never writes anything again |
| LeaseRest.PurgeIsAcked | node_relay/reconciler.py:179-183 | in every run nothing of a job is deleted before a reconciler that had read its terminal object was told that the Hive has it |
| LeaseMany.JobRunsAlone | node_relay/relay_client.py:40-52 | with shared owners and clocks, each job of a bucket of many goes through a run of its own |
| LeaseMany.EveryJobIsSafe | node_relay/relay_client.py:370-419 | so the invariant holds of every job of every run of many |
| RelayClient.Client.Claim | node_relay/relay_client.py:370-402 | an absent marker is created; one with a time is taken over exactly when that is a lease ago; one without a usable time counts as claimed at zero; one that is JSON but no object raises; and the whole bucket afterwards |
| RelayClient.Client.RenewClaim | node_relay/relay_client.py:404-419 | only a marker with the owner's name is renewed, a missing one is not recreated, nothing else changes |
| RelayClient.Client.PutTerminal | node_relay/relay_client.py:448-454 | the first terminal object wins and a later one changes nothing |
| RelayClient.Client.Purge | node_relay/relay_client.py:483-492 | exactly the five keys of the job go, and no key of any other job |
| RelayClient.JobsShareNoKey | node_relay/relay_client.py:40-52 | the keys of different jobs are different, across all five prefixes |
| LeaseCalls.UninterruptedClaim | node_relay/relay_client.py:386-402 | a claim call that nobody interrupts is a run of the protocol with the same answer and the same marker behind it |
| LeaseCalls.UninterruptedRenewal | node_relay/relay_client.py:404-419 | so is a renewal by the renewing thread, which rests again after a Yes and is lost after a No |
| LeaseCalls.UninterruptedFinish | node_relay/node_poller.py:929-976 | the last five steps of a job are a renewal under the lock and, after a Yes, the create-only terminal write |
| LeaseCalls.UninterruptedPurge | node_relay/relay_client.py:483-492 | five reconciler steps are the purge: nothing of the job is left |
| RelayClient.IterKeysIsSuffix | node_relay/relay_client.py:100-104 | the listing after a start key is the sorted listing cut at that key |
| RelayClient.GcsAgrees | node_relay/relay_client.py:170-176 | the inclusive-offset listing with the start key dropped agrees with the reference |
| RelayClient.S3IterKeys | node_relay/relay_client.py:263-276 | paging agrees with the reference, for every page size |
| RelayClient.UuidRoundTrip | node_relay/relay_client.py:357-365 | the uuid cut out of a key is the one it was made of |
| RelayClient.Client.ScanRange | node_relay/relay_client.py:357-368 | one range yields its sealed keys up to the bound and records the last as the cursor |
| RelayClient.Client.IterUuids | node_relay/relay_client.py:347-368 | a sweep, consumed up to any point, hands out the first sealed keys of its two ranges, whatever the store does meanwhile, as many as the bound and the consumer allow, all if there is no bound and none if it is not positive; and the cursor is its last key |
| RelayClient.HandedIsYielded | node_relay/relay_client.py:347-368 | if both stream one listing, that is a stretch of the rotated sealed listing |
| RelayClient.StreamAscends | node_relay/relay_client.py:263-276 | a range of pages, each from a listing of its own time, streams ascending keys after its start |
| RelayClient.StreamOfOneListing | node_relay/relay_client.py:263-276 | while the listing stays as it is, enough pages of any size stream all of it after the start |
| RelayClient.SealedAre | node_relay/relay_client.py:361-362 | the keys a scan considers are those that end in the sealed suffix |
| Scan.LessIsFirstDifference | node_relay/relay_client.py:100-104 | the order of keys and paths is by the first character in which they differ, and a shorter beginning comes first |
| Scan.SweepIsCycle | node_relay/relay_client.py:347-368 | a sweep yields the next min(bound, N) keys of the endless cyclic walk and leaves the cursor where the walk goes on |
| Scan.SweepsAreCycle | node_relay/relay_client.py:347-368 | consecutive sweeps concatenate to the cyclic enumeration |
| Scan.SweepHasNoRepeats | node_relay/relay_client.py:347-368 | no key twice in one sweep |
| Scan.EveryKeyIsReached | node_relay/relay_client.py:344-368 | every key appears within any number of sweeps whose bounds cover the listing, so within ceil(N/m) |
| Scan.NothingIsSkipped | node_relay/relay_client.py:357-368 | with a different listing in every sweep, the cursor passes no present key without yielding it |
| Poller.Node.RunOnce | node_relay/node_poller.py:998-1107 | a capped sweep, with leases expired before it, and claims or terminal writes that may raise in it, claims, counts and moves the cursor as the drain of its keys does |
| Poller.SweepStopsForAReason | node_relay/node_poller.py:1095-1107 | every sweep deals with a first stretch of its keys, all of them claimed afterwards and the readable ones it claimed counted, and stops there because the keys are at an end, the cap is reached, the next claim raises, or the work on the next job does, which then stays claimed |
| Poller.DrainCounts | node_relay/node_poller.py:1095-1107 | a sweep cut short has executed its whole cap; otherwise every key it was offered is claimed |
| Poller.DrainBound | node_relay/node_poller.py:1089-1107 | one worker claims each of N jobs within (N/C + 1) * ceil(N/m) sweeps, at most C in each, despite the skipped keys |
| Poller.CappedSweepDrops | node_relay/node_poller.py:1095-1097 | a sweep is cut short exactly when the keys before the last it was offered have the cap's worth of fresh jobs; the key after the cap-th is then passed by the cursor and stays claimed or unclaimed as it was |
| Poller.CappedSweepSkips | node_relay/node_poller.py:1095-1097 | an example in which the dropped key is a pending job |
| Regex.LazyStopsFirst | node_relay/node_poller.py:572-579 | a lazy repetition ends at the first place where the rest of the pattern matches |
| Regex.LinesAreLocal | node_relay/node_poller.py:572-579 | a pattern that consumes no newline matches a stretch of whole lines as it does on its own |
| FileBlocks.FullFilesContext | node_relay/node_poller.py:524-542 | the printed context, part by part, for missing, unreadable, outside and capped files |
| FileBlocks.PartForMeans | node_relay/node_poller.py:528-541 | what is shown of one path: nothing outside the clone or unreadable, a note for a missing file, and of a text exactly as much from its front as the cap allows |
| FileBlocks.PartsInOrder | node_relay/node_poller.py:528-542 | the parts come in the order of the paths |
| FileBlocks.LineEndIsNewline | node_relay/node_poller.py:538 | a line end of whatever form is read as one newline |
| FileBlocks.ExtractFileBlocks | node_relay/node_poller.py:581-588 | the dict of all FILE matches and then all DELETE matches, in the order of assignment |
| FileBlocks.BlockMatches | node_relay/node_poller.py:572-576 | a printed block with a plain path and body is one match with exactly the path and the body marked |
| FileBlocks.LooseBlockMatches | node_relay/node_poller.py:569-576 | a block whose header lost its closing marks is one match with the same path and body |
| FileBlocks.DeleteMatches | node_relay/node_poller.py:577-579 | a DELETE line is one match with exactly its path |
| FileBlocks.LastWordWins | node_relay/node_poller.py:581-588 | a DELETE line has the last word on its path wherever it stands, otherwise the last FILE block has |
| FileReplies.ReplyParses | node_relay/node_poller.py:572-588 | a whole reply of prose, complete blocks, blocks with loose headers and DELETE lines, in any order, parses to its blocks in order and then its deletions |
| FileReplies.LastItemWins | node_relay/node_poller.py:581-588 | in such a reply a path is deleted if any line says so, and otherwise has the body of its last block, complete or loose |
| FileRoundTrip.FindsEveryBlock | node_relay/node_poller.py:572-588 | a search that takes each standing block finds all of them and nothing else |
| FileRoundTrip.FramedParsesBack | node_relay/node_poller.py:572-588 | framed blocks with distinct plain paths and plain bodies parse back to exactly those pairs, in order |
| FileRoundTrip.ContextParsesBack | node_relay/node_poller.py:524-588 | the context shown for such files parses back to exactly their paths and texts |
| RepairLoop.WritingBackIsIdentity | node_relay/node_poller.py:651-675 | writing the parsed context back leaves newline-terminated files as they were, adds one newline to any other, and touches nothing else |
| RepairLoop.Clone.WriteFileChanges | node_relay/node_poller.py:651-675 | the tree written and the paths rejected |
| RepairLoop.Clone.Attempt | node_relay/node_poller.py:407-448 | a reply gets the verdict that it deserves against HEAD, whatever earlier replies wrote, with the guards looking at unsafe paths before they are rejected, and a good one leaves exactly its tree |
| RepairLoop.Clone.Repair | node_relay/node_poller.py:393-475 | the outcome is decided by the first reply not sent back, one commit at most, at most retries + 1 requests |
| RepairLoop.FirstDecisionStands | node_relay/node_poller.py:393-475 | the outcome, whichever it is, is that of the first reply within the budget that is not sent back, and if all are, the budget is spent and nothing is applied |
| RepairLoop.CommitIsOneReply | node_relay/node_poller.py:393-458 | something is committed if and only if some reply within the budget is good and changes HEAD and all before it were sent back |
| RepairGuards.DefinitionIsNamed | node_relay/node_poller.py:610 | a top-level definition, with any whitespace before its name, is one match with exactly its name marked |
| RepairGuards.VerdictMeans | node_relay/node_poller.py:590-675 | the verdict on a reply, guard by guard and on the texts themselves: truncated exactly if it shortens an existing file of at least 40 newlines below the ratio of them; then dropped if a Python file loses a top-level name, and not if each keeps its names; then unsafe exactly if a path begins with a slash, a tilde or `.git/` or has a part `..`; then not compiling exactly if some Python text, with its last newline, does not |
| RepairGuards.PlainlyDefinedIsFound | node_relay/node_poller.py:610-626 | every name defined by a top-level `def` or `class` line is found, unless the line before it is a bare `def` or `class` |
| RepairGuards.FoundIsDefined | node_relay/node_poller.py:610-626 | and every name found is so defined |
| RepairGuards.UnsafeMeans | node_relay/node_poller.py:656 | the paths refused are those that begin with a slash, a tilde or `.git/`, or have a part `..` |
| RepairLoop.CommittedIsOneGoodReply | node_relay/node_poller.py:393-475 | the committed tree is HEAD overwritten by that one reply, which shortens no file too much, loses no top-level name, leads nowhere outside and leaves only Python files that compile |
| RepairLoop.GoodTreeIsHeadOverwritten | node_relay/node_poller.py:651-675 | path by path, the tree is HEAD except where the reply names a path, which is gone or has the body, with a newline added only if it had none at its end |
| Fallback.FallbackExecutor.Complete | node_relay/node_poller.py:322-333 | who serves a call, who is tried, and who has failed afterwards |
| Fallback.ServesFirstNotFailed | node_relay/node_poller.py:322-333 | a call is served by the first chain member that has not failed by its end, and fails exactly when all have; whoever has newly failed was tried and did not answer |
| Fallback.TriesGoDownTheChain | node_relay/node_poller.py:322-333 | only backends not failed before are tried, in the order of the chain and each once; the last serves if it answers, and no other answered |
| Fallback.EachFailsOnce | node_relay/node_poller.py:316-333 | over any number of calls of a job no backend fails twice |
| Fallback.JobAttemptsAreBounded | node_relay/node_poller.py:316-333 | the attempts of a job are its served calls plus its failed backends, at most calls plus chain length |
| Fallback.RunJob | node_relay/node_poller.py:360-370 | a job on the executor, from begin_job to end_job, makes just those calls, whatever earlier jobs left, and leaves nothing to the next |
| ResultCap.ShrinkResult | node_relay/reconciler.py:35-60 | the loop returns the shortest run of drops that fits, or else the essentials |
| ResultCap.DropsAreNoted | node_relay/reconciler.py:42-47 | the drops take patch, suggestion, metrics and files_changed away in this order, each with its note if it was there, and leave the others |
| ResultCap.FallbackHolds | node_relay/reconciler.py:48-59 | the essentials are the eleven routing and review fields as they were, and the error |
| JsonText.SizeIsLength | node_relay/reconciler.py:31-32 | the size is the length of the compact JSON text with everything but printable ASCII escaped |
| ResultCap.ShrinkLeavesWhatFits | node_relay/reconciler.py:42-44 | shrinking is the identity on a result that fits |
| ResultCap.ShrinkKeepsEssentials | node_relay/reconciler.py:48-58 | every routing and review field is, in every outcome, as it was, present or absent |
| ResultCap.ShrinkIsIdempotent | node_relay/reconciler.py:42-60 | shrinking what was shrunk changes nothing, even if it is above the cap |
| ResultCap.ShrinkIsBounded | node_relay/reconciler.py:42-60 | the outcome is within the cap or is exactly the essentials, so no larger than the cap or they |
| ResultCap.ShrinkFits | node_relay/reconciler.py:42-60 | the outcome fits if and only if some run of drops or the essentials do |
| ResultCap.LongBranchExceedsTheCap | node_relay/reconciler.py:47-59 | in any result a branch name as long as the cap survives every drop |
| ReviewResults.LandedResultHas | node_relay/reconciler.py:113-121 | a landed result names branch and commit in the landing fields and where the Hive's guards look |
| ReviewResults.KindMeans | node_relay/reconciler.py:75-104 | how a job is treated follows from its payload's status, review flag and patch alone |
| ReviewResults.FailureSays | node_relay/reconciler.py:85-88 | of a failed job its own error is reported, or that the node failed, or that the error is too large |
| ReviewResults.BaseGet | node_relay/reconciler.py:96-104 | any other result is the payload without who claimed the job and with a plain review flag |
| ReviewResults.FailedLandingSays | node_relay/reconciler.py:125-132 | a result of a failed landing names the error, cut at 500 characters, and where the patch was saved if it was |
| ReviewResults.LandableMeans | node_relay/lander.py:229-255 | a patch can land exactly if its repository may be pushed to and has a URL, the id gives a branch, and the patch is a text; blanks alone are neither |
| ReviewResults.PatchStaysIfItFits | node_relay/reconciler.py:42-60 | a shrunk result has the patch if the result fits as it is, and has none otherwise |
| ReviewResults.LongestErrorDecides | node_relay/reconciler.py:125-140 | the saved result fits for every landing error exactly when it fits for the longest clipped one |
| ReviewSafety.LandingHappensOnce | node_relay/lander.py:257-319 | on a branch of the job's own, with any number of racing and crashing reconcilers, the review branch is written at most once, with the job's patch, it stays as written, and every landing that returns gives the remote's commit |
| ReviewManyLanding.EveryBranchIsWrittenOnce | node_relay/lander.py:257-319 | of any jobs, whichever share a branch, each branch is written at most once, by a job whose branch it is and with its patch, and every landing of every job returns the commit that is there |
| ReviewManyLanding.LandsItsOwnExactlyWhen | node_relay/lander.py:257-265 | what lands for a job is its own patch in every run if and only if nobody lands another patch on its branch |
| ReviewSafety.PurgeFollowsAck | node_relay/reconciler.py:142-184 | every delete of a job's objects follows a 2xx to the reconciler that deletes |
| ReviewSafety.HiveIsToldTruly | node_relay/reconciler.py:85-180 | what the Hive holds is a report of the job's own kind under its own status, and a review is closed as done only after a 400 or 422 |
| ReviewManyLanding.EveryJobIsTreatedHonestly | node_relay/reconciler.py:63-184 | both hold of every job of every run of many, whatever they share and however late a PATCH arrives |
| ReviewSafety.NoReviewPatchIsLost | node_relay/reconciler.py:97-184 | of one job with a branch and an orphan file of its own: with one reconciler at work at a time and prompt PATCHes, through every sequence of codes, landing outcomes, disk failures and crashes, the patch is in the bucket, or in the Hive's result, or where that result says: the landed branch or a whole orphan file; and the result is flagged for review |
| ReviewRaces.OverlapCanLosePatch | node_relay/lander.py:321-342 | any two overlapping reconcilers have a run that leaves the patch nowhere if the saved result does not fit |
| ReviewRaces.PatchIsSafeExactlyWhen | node_relay/lander.py:321-342 | of one such job: no run loses the patch if and only if reconcilers do not overlap or the saved result with the longest landing error fits |
| ReviewRaces.OverlapCanLoseALargePatch | node_relay/lander.py:321-342 | in particular a patch as large as the cap, whatever the landing error |
| ReviewRaces.OverlapIsHarmlessIfResultsFit | node_relay/reconciler.py:97-184 | overlap loses no patch if every result reported of a saved file fits under the cap |
| ReviewMany.JobGoesAlone | node_relay/reconciler.py:63-184 | among many jobs, one that shares neither branch nor file goes through a run of its own, so what holds of every run of one job holds of it |
| ReviewManySafety.ShelteredPatchIsSafe | node_relay/reconciler.py:97-184 | among any jobs, through any run, a patch is covered if each report of it rests on a branch or file of its own or on a result that fits |
| ReviewManyLosses.SharedFileLosesPatch | node_relay/lander.py:321-342 | two jobs that share an orphan file, one after the other without a fault: the second one's save leaves the first one's patch nowhere |
| ReviewManyLosses.SharedBranchLosesPatch | node_relay/lander.py:257-265 | a job that finds another's commit on its branch reports it as its landing, and its patch is nowhere if the landed result does not fit |
| ReviewManyLosses.LatePatchLosesPatch | node_relay/reconciler.py:128-184 | a delayed report of a saved file can replace the report that closed the job after the file was opened again |
| ReviewManyTheorems.NothingIsLostExactlyWhen | node_relay/reconciler.py:97-184 | among any jobs, with overlapping reconcilers or not and with prompt PATCHes or not, no run loses the patch of a job if and only if: it cannot land, or nobody lands another patch on its branch, or the landed result fits; and the saved result fits with the longest error, or one reconciler at a time works on it, its file is its own, and PATCHes are prompt or it can neither land nor fit |
| ReviewManyTheorems.SharesFileExactlyWhen | node_relay/lander.py:321-328 | jobs share an orphan file if and only if their ids are sanitized alike, or to nothing and `unknown` |
| ReviewManyTheorems.UnalteredIdsAreApart | node_relay/lander.py:172-187 | ids that the sanitizer leaves alone keep branches and files of all jobs apart |
| ReviewManyTheorems.NoPatchOfManyIsLost | node_relay/reconciler.py:97-184 | among any jobs with such ids, one reconciler at a time on each and prompt PATCHes, no run loses a review patch |
| Reconciler.Home.Land | node_relay/lander.py:257-319 | the landing call is the protocol's steps from the first ls-remote on; it is put off exactly if one of git's four answers is transient or the push is turned away for now with no branch there, and fails with an error exactly if that answer is for good or the push is turned away for good with no branch there |
| Reconciler.Home.SaveOrphanPatch | node_relay/lander.py:321-342 | the save is the protocol's truncate and write; success means the whole body is there |
| Reconciler.Home.LandOrSave | node_relay/reconciler.py:104-140 | a landing put off leaves the job for the next sweep; one given up is reported as saved with the whole file there, or with the patch in the result if that fits, or else not at all; any other is reported with the commit that is on the branch |
| Reconciler.Home.Tell | node_relay/reconciler.py:142-180 | the Hive has acknowledged exactly after a 2xx, or after a 400 or 422 to the review status and then a 2xx, which leaves the review as done |
| Reconciler.Home.Purge | node_relay/relay_client.py:483-492 | the five deletes in order; the terminal object goes exactly with the fourth, and the call succeeds exactly if all do |
| Reconciler.Home.ReportAndPurge | node_relay/reconciler.py:142-184 | an acknowledged report is what the Hive holds, and the call succeeds exactly if it is acknowledged and all deletes succeed; without an acknowledgement the terminal object stays |
| Reconciler.Home.ReconcileOne | node_relay/reconciler.py:63-184 | the whole call is the protocol's steps of one reconciler; it returns False and leaves bucket, file and Hive as they were if the landing is put off; if the terminal object goes, the Hive holds the report due to the job's kind and its landing |
| Reconciler.UninterruptedCallIsARun | node_relay/reconciler.py:63-184 | such a call, with the others at rest, is a run of the protocol |
| Reconciler.GoodCallCloses | node_relay/reconciler.py:63-184 | one call in good weather closes a job of any known status wherever earlier calls stopped, under its status, with its patch landed, or saved whole if it cannot land; a Hive that answers 400 or 422 to the review status and then a 2xx holds the review as done |
| ReviewCauses.FailureHasItsCause | node_relay/reconciler.py:121-140 | in every run of racing and crashing reconcilers, a failed landing that the Hive is told of was given up with that error: the job was refused, git answered for good, or the push was turned away for good with no branch there; "saved" follows a whole write, and no file is named only after a failed one, if the result fits |
| ReviewCauses.TransientLeavesTheJob | node_relay/lander.py:479-494 | in every run a transient answer of git ends the call and leaves bucket, file and Hive as they were |
| BranchName.UnalteredMeans | node_relay/lander.py:172-187 | the ids the sanitizer leaves alone are exactly the non-empty plain ones that neither begin nor end in a dash |
| BranchName.RunBecomesDash | node_relay/lander.py:182 | plain characters stay, and a whole run of others becomes one dash |
| BranchName.TrimMeans | node_relay/lander.py:182 | dashes are cut off at both ends, all of them and nothing else |
| BranchName.BranchIsNamed | node_relay/lander.py:183-187 | an unaltered id is the branch's name behind the prefix, an altered one carries its hash too, and an id of which nothing is left has no branch |
| BranchName.UnalteredNamesAreDistinct | node_relay/lander.py:172-187 | unaltered ids have different branches and different orphan files |
| BranchName.BranchesCollideExactlyWhen | node_relay/lander.py:172-187 | two ids share a branch exactly when both are altered alike with the same hash, or one spells out what the other becomes |
| BranchName.OrphanNamesCollideExactlyWhen | node_relay/lander.py:327-328 | two ids share an orphan file exactly when they are sanitized alike, or to nothing and `unknown` |
| BranchName.AlteredNamesCollide | node_relay/lander.py:321-328 | an example: altered ids that share an orphan file, and an id that has another's branch |
| CachePrune.CacheDir.Prune | node_relay/lander.py:439-468 | whoever is evicted is an unlocked clone, not the excluded one, and not used later than any clone that could have gone instead, by modification time, then size, then path; the running total is what the surveyed sizes of the surviving clones and the excluded one give, and never below what is there; eviction never happens within the cap, ends within the cap or with nothing left to evict, and a removal that fails halfway leaves only what remained |
| CachePrune.CacheDir.Survey | node_relay/lander.py:445-454 | the candidates and the total of the scan |
| CachePrune.UsageCountsEach | node_relay/lander.py:445-454 | each entry counts with its size if it is a clone or the excluded directory, and otherwise not at all |
| CachePrune.SortSorts | node_relay/lander.py:455 | the eviction order is strictly by time, size and path |
| CachePrune.EvictNext | node_relay/lander.py:455-468 | one eviction keeps the order and the cap conditions of all before it |
| Enqueuer.RunOnce | node_relay/enqueuer.py:162-214 | each claim is enqueued, released or failed as the job is found at that turn; after the sweep a job whose last PATCH took effect is running, queued or failed at the Hive as its last claim was enqueued, released or failed, and a job not claimed is as it was; pending objects are those of the jobs enqueued and of those that failed too late, and have their routing; the count is of the claims enqueued; a job is claimed again only after a release that took effect, and a second release ends the sweep, which otherwise ends early only when asking for a job raises |
| Enqueuer.HiveHasLastPatch | node_relay/bridge_common.py:183-240 | so the Hive has each job under its last PATCH that took effect, or as it was if none did |
| Enqueuer.SweepIsShort | node_relay/enqueuer.py:162-186 | a sweep takes at most two claims for each distinct job |
| Enqueuer.SteadySweepIsShorter | node_relay/enqueuer.py:162-186 | and at most one more than there are distinct jobs if none changes meanwhile |
| Context.BuildContext | node_relay/enqueuer.py:58-111 | with valid settings and successful lookups the context is the whole filtered concatenation, and the byte-limit error comes exactly when that whole exceeds it; every other error and when |
| Context.SettingsAreInOrder | node_relay/enqueuer.py:61-78 | when settings and references are in order, and what each error names |
| Context.FetchedAre | node_relay/enqueuer.py:83-90 | the named memories come one for each id, in the order of the ids |
| Context.TotalIsEncoded | node_relay/enqueuer.py:85-107 | the bytes counted are those of all contents in UTF-8 |
| Context.Utf8Decodes | node_relay/enqueuer.py:85-107 | the bytes of a character read back as that character, and the first says how many there are |
| Context.SearchIsSkipped | node_relay/enqueuer.py:91-110 | results are appended only in the searching modes, and not once the named memories are many or long enough |
| Context.PackFound | node_relay/enqueuer.py:102-111 | the growing check of the search results agrees with one sum |
| Context.OthersAre | node_relay/enqueuer.py:102-110 | what is appended is the results with other ids, all of them, in their order |
| Context.NamedOnce | node_relay/enqueuer.py:84-111 | the named memories come first and none is repeated by the search |
| Offload.NodeAnswer | node_relay/node_poller.py:164-177 | what the node resolves a built payload to |
| Offload.OffloadAgrees | node_relay/enqueuer.py:112-159 | a job without a raw workspace resolves alike as a job and as its payload, if and only if it is not the nameless-entry corner |
| Offload.OffloadedJobResolves | node_relay/enqueuer.py:135-159 | an offloaded commit job fails to resolve on the node exactly when its workspace names an alias without a URL, or in that corner |
| Offload.NamelessCornerIsReal | node_relay/enqueuer.py:135-159 | a job in that corner, for any URL: it resolves and its payload does not |
| Offload.RawWorkspaceIsLost | node_relay/enqueuer.py:124-131 | a raw workspace is not carried into the payload |
| Offload.HintIsTheName | node_relay/node_poller.py:109 | a `repo:` line at the head of a prompt hints at exactly the name on it |
| Offload.AllowlistedRepoIsTaken | node_relay/node_poller.py:170-172 | a repository that is an allowlisted URL is taken, whatever the prompt says |
| Offload.HintedJobResolves | node_relay/node_poller.py:173-177 | otherwise a `repo:` line at the head of the prompt decides if it names an entry with a URL, and else the kind |
| Offload.KnownKindsResolve | node_relay/node_poller.py:96-107 | the kinds of the known projects resolve to their repositories, the more special prefix before the more general |
| Offload.BuildKindResolves | node_relay/node_poller.py:150-157 | a `build:` kind resolves to the allowlisted repository that it names up to the next colon |
| Offload.OffloadedIf | node_relay/enqueuer.py:135-159 | the kinds that need no commit are offloaded, and any job that resolves if its host is named, in whatever case |

## Assumptions

- Owners are distinct per worker; a job id is enqueued once; the markers of the
  lease machine are the ones its participants write.
- Clocks never go back for one owner; times, leases and intervals are reals.
- A worker starts on a job again only when its earlier executing thread has ended;
  its renewing thread may go on.
- The bounds of `LeaseTiming` on publishing, lock, read and write are assumptions
  on a run, as is its common clock.
- A push without force to an existing, different branch is rejected. Commit ids
  are 40 hexadecimal digits.
- Nobody but the reconcilers of the jobs touches review branches and orphan files;
  different URLs name different repositories; there is one orphan directory. In
  `ReviewProtocol` the one job has its branch and file to itself, and PATCHes take
  effect, if at all, before their sender's next step; `ReviewMany` assumes neither.
- In the repair loop, paths are normalised and name regular files, none is
  git-ignored, and compiling is a function of the text.

## Left out

- Encryption, JSON and base64: sealing is an ideal box, so a pending object is a
  job, a job with a wrong id, or corrupt, and a claimant envelope is usable or not.
- The `active/` object is not in the lease machine; whether activity could be
  published is left to chance. Renewal of Hive claims from it is not modelled.
- `_ClaimLease` is program counters of two threads rather than a class, because
  its threads interleave with everybody's store calls; whether its one-second join
  was enough is the parameter `joined`.
- LeaseProtocol models one job; scanning and the capped sweep are in `Poller`,
  on a listing that stays fixed within a sweep.
- A continuation token of the S3 listing stands for the last key of its page.
- The generator of uuids is modelled by how many keys its consumer takes.
- LeaseRecovery.Recovers: assumes the claimant route usable when the pending object is corrupt, as the source keeps such a job for inspection otherwise.
- Git, disk, HTTP, model and compiler calls are oracles. Cloning, default branch
  detection, credentials, URL checks and the classification of git errors are one
  outcome each: good, transient or permanent.
- RepairLoop.Clone.WriteFileChanges: symbolic links, and parents that resolve outside the clone through them, are not in a tree of regular files.
- RepairGuards.VerdictMeans: leaves open whether a name counts that is defined on the line after a bare `def` or `class`, which takes the next word for its own name.
- RepairLoop.Clone.Attempt: the files that unsafe paths name do not change during the loop.
- Poller.Node.RunOnce: leases expire and other workers claim between sweeps, not within one.
- CachePrune.CacheDir.Prune: no other process changes the directory meanwhile.
- Enqueuer.RunOnce: a PATCH that reports a release or a failure is assumed to return rather than raise, as the client's does on every network failure.
- `FallbackExecutor.execute` tries the whole chain without memory and adds nothing.
- RepairLoop.Clone.Repair: lists of feedback texts and the review payloads are not modelled, only the outcome.
- Parsing of the allowlist variable: repository resolution is proved for every alias map.
- `ResultCap` takes strings to be Unicode scalar values and numbers to be their printed text.
- Telemetry, command lines, environment lookup, logging, backoff and service files.
