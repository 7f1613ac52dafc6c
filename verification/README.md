# Verified model of harbor-hf

harbor-hf runs benchmark campaigns on Hugging Face infrastructure without a database: every
durable fact is a file in a dataset repository or a bucket, and every process may be killed
at any time and started again. This project models the parts of it that have to be right in
every interleaving and after every crash, and proves them with Dafny 4.11:

    dafny verify dfyconfig.toml

**Coordination through optimistic commits.** `OptimisticRepository` is the whole history of a
repository. Other clients may commit any allowed version before each request, and a commit
that fails may still have been applied. On it stand the controller lease (`ControllerLease`),
attempt numbering and the watchdog (`ControllerAttempts`), the campaign event log with its
cancellation marker (`EventLog`) and the two-repository cutover (`CatalogCutover`, and
`CutoverAppliers` for several appliers at once). In each the store is a class whose methods are
the retry loops of the source; a step relation says what one commit may do; every commit of
every method is proved to be such a step, and the safety statements are lemmas about all
histories of steps. Each method says what its answers mean while others commit and requests
are lost, and what exactly it does when nothing of the kind happens (`Repository.Quiet`).
`EvidenceLease` is the same question for a
bucket without parent checks, as a machine of interleaved requests whose writes land at any
later moment; `EvidenceReader` is the cache in front of it.

**The campaign event fold.** `EventFold` specifies the projection of a campaign from unordered,
duplicated events, `CampaignReading` says what it amounts to without folding anything, and
`CampaignProjection` proves the loops over in-place state to compute it.

**Planning, admission, profiling, trimming.** `CampaignWaves`, `CampaignPlanner`,
`CampaignLocks` and `WaveCoverage` follow shards from the plan to the locked waves;
`ControllerAdmission` follows the time. `ProfileLadder` states what the measurement ladder asks
for next, `LadderReading` and `LadderRepeats` how far it climbs and what it repeats,
`ProfileWorker` has the loops, and `ProfileSelection` and `LadderSelection` what can win.
`RejectionRecord` and `BundleTrimming` are the private bundle's fixed point.

**Streaming, serialisation, finalisation.** `Redaction` and `EvidenceFiles` compare chunked
scanning with scanning a whole input. `SourceTree` and `BenchmarkBundle` build and extract
bundles; `TarFormat` and `Decimal` have the real sizes of what is limited (tar in the pax
interchange format of POSIX.1-2001, as Python's tarfile writes it), and `BundleLimits` sources
that exceed them. `TrialFinalizer` finishes interrupted trials.

Assumptions: clocks are monotone; IDs drawn from UUIDs are fresh, and hashed shard IDs differ
where a statement says so; a bucket write lands before its lease expires and before its call
releases, where a statement says so; `create_commit` returns the new head; digests and encoders are
functions, and a summary can be read back. Times are integers or reals, scores and headroom
are reals. Paths and IDs are compared by their characters, bundle paths by their bytes.

What turned out to need a premise, each with the input that shows it, and where there is one
with the exact condition:

- A write that lands after its lease, or after its call timed out and released, overwrites
  another's evidence (`EvidenceLease.LateLandingOverwrites`, `LandingAfterReleaseOverwrites`).
  Landing within both is enough (`EvidenceIsWriteOnce`), and needed (`PremiseIsExact`).
- A cached reader reports an object missing that was published after its listing
  (`EvidenceReader.StaleListing`).
- A claim value can return after a release (`ControllerLease.ReleasedClaimCanReappear`).
- A profile worker that died between archiving a point and writing its evidence cannot be
  restarted (`ProfileWorker.CrashBlocksRestart`); `RunLadder` has the condition.
- A ladder whose deadline passes while it replays calls its own recovered points unreachable
  (`ProfileLadder.RestartNeedsTheDeadline`, an if and only if); the worker itself refuses to
  start once the deadline has passed.
- With several runs a locked wave may need longer than was planned
  (`WaveCoverage.LockedWaveCanBeLonger`; `CoveredExactly` has the condition).
- An admitted wave can cut the reserve by part of a second (`ControllerAdmission.ReserveCanBeCut`;
  `WholeReserveIsLeft` has the condition).
- A source that every scan accepts may have a bundle whose tar or manifest is too large
  (`BundleLimits.LongPathsExceedTheTarLimit`, `ManyFilesExceedTheManifestLimit`); its
  build is then refused (`BenchmarkBundle.BuildBundle`, an if and only if).
- `append_event` commits a manual resolution without the check that `ensure_event` makes of it
  (`EventLog.AppendMayHideAFailure`; `AppendEvent` and `OneEventResolves` have the condition).
- A `spend.recorded` event about the campaign itself stops the projection
  (`EventFold.CampaignSpendStopsTheProjection`, `CampaignSpendIsNeverProjected`); about anything
  else it changes nothing before a campaign is finished (`OtherSpendChangesNothing`).
- A secret that can overlap the mask may show in the output, the mask completing it
  (`Redaction.TouchingSecretShows`); one that cannot is always hidden, an if and only if over
  all secret lists and inputs (`HiddenExactly`).
- `reserve_action` overwrites an event whose ID its own event repeats
  (`EventLog.ReservationKeepsTheLog`, an if and only if).

## Model

| member | source | states |
|---|---|---|
| Redaction.DrainOutput | src/harbor_hf/process.py:170-196 | Every split of a process's output into reads leaves the log that leftmost-longest redaction of the whole output would. |
| Redaction.RedactingWriter.Write | src/harbor_hf/process.py:134-167 | The log only grows and at most one byte less than the longest secret is held back; after the final write it is the redaction of the whole input. |
| Redaction.RedactUpTo | src/harbor_hf/process.py:147-163 | One scan writes text and keeps a tail such that writing the tail's redaction next gives the redaction of the whole, whatever bytes follow. |
| Redaction.NextMatch | src/harbor_hf/process.py:150-157 | The match chosen is the leftmost in the window, and the longest there. |
| Redaction.RedactionKeepsTheInput | src/harbor_hf/process.py:142-167 | Redaction replaces whole secrets by the mask and nothing else: with the masked text shown again the output is the input. |
| Redaction.LiteralRunHasNoSecret | src/harbor_hf/process.py:142-167 | No run of kept bytes contains a complete secret. |
| Redaction.RedactedTextIsClean | src/harbor_hf/process.py:142-167 | A secret that cannot overlap the mask, wherever the mask is laid over it, occurs nowhere in the output, whatever the input and the other secrets. |
| Redaction.TouchingSecretShows | src/harbor_hf/process.py:142-167 | Any secret that can overlap the mask is in the output for some input and one other secret, built here: its parts around the mask are kept, and the mask in between completes it. |
| Redaction.HiddenExactly | src/harbor_hf/process.py:142-167 | Together: a secret is hidden in all outputs, for all secret lists and inputs, if and only if it cannot overlap the mask. |
| Redaction.MaskShowsItsSecret | src/harbor_hf/process.py:142-167 | A secret that is part of the mask is in every output in which anything was redacted. |
| Redaction.MaskedTextCanContainSecret | src/harbor_hf/process.py:142-167 | For instance a secret that the mask spells is still there when it is the only secret. |
| EvidenceFiles.FileContains | src/harbor_hf/evidence.py:243-252 | Chunked search finds the secret exactly when the whole file contains it, for every chunking. |
| EvidenceFiles.ScrubFile | src/harbor_hf/evidence.py:255-283 | The rewritten file is leftmost non-overlapping replacement on the whole file, and it is reported changed exactly when the secret was there. |
| EvidenceFiles.ReadRegularFile | src/harbor_hf/benchmark_bundle.py:414-446 | A file is refused exactly when some pattern occurs in it, for every chunking and any number of patterns; otherwise the copy written is the file, and digest and size are those of the file; a refused copy is a beginning of it. |
| EventFold.StepKeeps | src/harbor_hf/control.py:352-506 | Each accepted event keeps the state coherent (manual intervention exactly when requirements are outstanding) and never lowers the effective status. |
| EventFold.HistoryIsCoherent | src/harbor_hf/control.py:352-400 | In every accepted history the status is manual intervention exactly when the requirement set is non-empty, before a terminal event. |
| EventFold.EffectiveStatusNeverFallsBack | src/harbor_hf/control.py:418-506 | Over any accepted history the status, seen through nested manual interventions, never goes back. |
| EventFold.CancellationSticks | src/harbor_hf/control.py:418-506 | After cancellation was requested or draining began the campaign is never queued or active again. |
| EventFold.ActionsLiveLegally | src/harbor_hf/control.py:509-551 | The events of each action in an accepted history form a legal life, and the projected action is what they say. |
| EventFold.SortingIsUnique | src/harbor_hf/control.py:554-563 | The order of events is total: two sorted lists of the same events are equal. |
| EventFold.OrderAndRepeatsDoNotMatter | src/harbor_hf/control.py:352-400 | Event lists with the same members, in any order and with any repeats, give the same projection or the same error. |
| CampaignReading.AcceptedExactly | src/harbor_hf/control.py:352-551 | A history is accepted if and only if its submission comes first, nothing follows its end, a resolution finds somebody called for, an action is reserved once and reported after that, ambiguously but for the last report and about one remote; and then status and actions are what its events say, each status and each field spelled out. |
| CampaignReading.ProjectedExactly | src/harbor_hf/control.py:352-400 | Events in any order are projected if and only if each ID has one record and by time they make such a history; the projection shows its status, length, last time and actions. |
| CampaignProjection.CollectUnique | src/harbor_hf/control.py:554-563 | The dictionary pass keeps one copy of each event, and fails exactly when one ID carries two records. |
| CampaignProjection.ProjectCampaign | src/harbor_hf/control.py:352-400 | The loop over in-place state computes the fold, errors included; and what it gives is what the reading below says of the events. |
| EventFold.CampaignSpendStopsTheProjection | src/harbor_hf/control.py:509-551 | A submission followed by a spend report about the campaign itself, both well formed, is refused. |
| EventFold.CampaignSpendIsNeverAccepted | src/harbor_hf/control.py:418-551 | No history with such a report is accepted, whatever else it holds. |
| EventFold.CampaignSpendIsNeverProjected | src/harbor_hf/control.py:352-400 | Nor does any unordered list with one, wherever it sorts, give a projection. |
| EventFold.OtherSpendChangesNothing | src/harbor_hf/control.py:418-551 | Putting an event about anything but the campaign into a history after its submission changes no status, action or error, unless it comes last in a finished campaign. |
| OptimisticRepository.Repository.CreateCommit | src/harbor_hf/control.py:1046-1071 | A commit lands on the head it was decided on or not at all; after a lost answer it may have been applied. |
| OptimisticRepository.HistoriesJoin | src/harbor_hf/control.py:1073-1081 | Histories of allowed steps can be continued by what others commit. |
| ControllerLease.ControllerStateStore.Acquire | src/harbor_hf/controller_status.py:414-441 | A claim is taken when it is free or one's own, or has expired with its Job ended and the attempt is the next one, and otherwise refused for a reason that was true during the call, with nothing committed. |
| ControllerLease.ControllerStateStore.Heartbeat | src/harbor_hf/controller_status.py:443-463 | The renewal replaces exactly the claim given, or nothing is committed. |
| ControllerLease.ControllerStateStore.Release | src/harbor_hf/controller_status.py:465-486 | Only the very claim given is deleted. |
| ControllerLease.LeaseOnlyAdvances | src/harbor_hf/controller_status.py:414-486 | While a claim record stays, every interleaving moves (attempt, heartbeat) strictly forward and acquisition times never back. |
| ControllerLease.DisplacedOwnerIsPowerless | src/harbor_hf/controller_status.py:758-775 | A claim value that was replaced never comes back while the record stays, so its owner can neither renew nor delete. |
| ControllerLease.TenuresDoNotOverlap | src/harbor_hf/controller_status.py:414-463 | Owners are numbered one by one, and each begins no earlier than the last expiry of the one before. |
| ControllerLease.ReleasedClaimCanReappear | src/harbor_hf/controller_status.py:465-486 | Once a claim was released the same value may be written again: the fencing statements need the record to stay. |
| ControllerAttempts.AttemptStore.WriteImmutable | src/harbor_hf/controller_status.py:739-756 | A record is written once: an equal one is adopted, a different one refused; the answer says whether exactly this value is stored. |
| ControllerAttempts.AttemptStore.ReserveAttempt | src/harbor_hf/controller_status.py:696-706 | An attempt is reserved only after its predecessor, although both are looked at on different heads. |
| ControllerAttempts.AttemptsHaveNoGap | src/harbor_hf/controller_status.py:696-706 | In every interleaving the reserved attempts are 1 to m without a gap. |
| ControllerAttempts.RecordStays | src/harbor_hf/controller_status.py:739-756 | A stored record is in every later version, unchanged. |
| ControllerAttempts.AttemptStore.RunWatchdog | src/harbor_hf/campaign_watchdog.py:128-227 | A watchdog run follows its decision, writes nothing in a dry run or without a recovery to make, on success leaves the paired records. Undisturbed, it succeeds exactly on what an interrupted watchdog may have left and otherwise commits nothing. |
| ControllerAttempts.PlanRecovery | src/harbor_hf/campaign_watchdog.py:161-213 | What an interrupted watchdog left is taken over, so that recovery and reservation carry one timestamp and the prior contract. |
| ControllerAttempts.PlanWatchdog | src/harbor_hf/campaign_watchdog.py:68-125 | When a controller is recovered, when an operator is called, and when nothing is done. |
| ControllerAttempts.WatchdogReservationsArePaired | src/harbor_hf/campaign_watchdog.py:161-213 | Every reservation the watchdog made is within the allowed attempts and has its one recovery record, with the same time and attempt n-1, after any crashes and races. |
| EventLog.LogIsWriteOnce | src/harbor_hf/control.py:760-851 | No operation, in any interleaving, overwrites or removes a stored event or action reservation, or changes the cancellation marker. |
| EventLog.MarkerNamesTheCancellation | src/harbor_hf/control.py:888-931 | The marker exists exactly when a cancellation event does, and names the only one. |
| EventLog.CancellationStopsGuardedEvents | src/harbor_hf/control.py:933-967 | After the marker nothing is committed by a guarded batch any more. |
| EventLog.PresentIsStored | src/harbor_hf/control.py:1112-1133 | An event counts as there exactly when the record under its ID equals it in every field, but for the time of a durable event of the reconciler; otherwise the two conflict. |
| EventLog.VersionsAreKeyed | src/harbor_hf/control.py:707-719 | In every version each event is stored under its own ID. |
| EventLog.OneEventResolves | src/harbor_hf/control.py:853-886 | Committing one event keeps resolutions complete if and only if it is no manual resolution that leaves out a wave whose cleanup failed in the parent version. |
| EventLog.AppendMayHideAFailure | src/harbor_hf/control.py:760-775 | A log and a well-formed resolution that may be appended to it although it names none of the failed waves. |
| EventLog.CampaignStore.AppendEvent | src/harbor_hf/control.py:760-775 | Appends a new ID or commits nothing; cancellation requests are refused. Its commits keep resolutions complete exactly when the event is no manual resolution with a failed wave missing. |
| EventLog.CampaignStore.EnsureEvent | src/harbor_hf/control.py:777-811 | On success the stored event equals the requested one field by field, but for a restated time, with its marker if it cancels; it reports a change exactly when it committed, a conflict only when a different event has the ID, and alone it answers exactly; every resolution committed names every failed wave. |
| EventLog.CampaignStore.EnsureCancellation | src/harbor_hf/control.py:888-931 | Event and marker are committed together, a state with only one of them is reported. |
| EventLog.CampaignStore.EnsureEventsUnlessCancelled | src/harbor_hf/control.py:933-967 | Either all terminal trial events are stored, field by field, or the cancellation won; nothing is committed once the marker is seen. |
| EventLog.CampaignStore.EnsureEvents | src/harbor_hf/control.py:813-851 | When it returns every requested event is stored, field by field, even if conflicts fell between batches, and it reports a change exactly when it committed; alone it conflicts exactly when a different event has an ID. |
| EventLog.CampaignStore.EnsureManualResolution | src/harbor_hf/control.py:853-886 | A resolution is committed only on a version whose failed cleanups it all names; with no interference it changes or conflicts exactly when it should and does not fail. |
| EventLog.CampaignStore.ReserveAction | src/harbor_hf/control.py:1005-1044 | Reservation and event are committed together, an equal reservation is adopted and another refused; with no interference it reserves exactly what is free. |
| EventLog.ReservationKeepsTheLog | src/harbor_hf/control.py:1022-1034 | The commit of a reservation, which does not look at its event's ID, keeps stored events as they are if and only if no other event has that ID. |
| EventLog.CleanupFailedMeansUnresolved | src/harbor_hf/control.py:1148-1160 | A wave needs an operator exactly when its cleanup failed and nothing later reports it. |
| EventLog.LoadOrdered | src/harbor_hf/control.py:707-719 | The list loaded is the one ordered list of the version's events, and loading succeeds for every version of a history. |
| CatalogCutover.HubCatalogCutover.ApplyLocked | src/harbor_hf/catalog_cutover.py:175-232 | Whoever else commits, each repository takes at most the one commit of the plan: the results get its files and marker and keep the rest, the index gets exactly the final publications, a row for each classification and the marker, and loses the legacy catalogs; success names an index that lists the plan; with nobody else at work every resumable state is finished with the same content, and a finished cutover is not committed again. |
| CatalogCutover.HubCatalogCutover.PublishResults | src/harbor_hf/catalog_cutover.py:303-338 | The result revision used holds the marker and every publication file, committed now or before. |
| CatalogCutover.HubCatalogCutover.CompletedCutover | src/harbor_hf/catalog_cutover.py:234-286 | Succeeds at a result revision if and only if the index lists the plan at that revision, each catalog spelled out, and the revision has its marker. |
| CatalogCutover.FinishedIsListed | src/harbor_hf/catalog_cutover.py:485-567 | What a finished cutover has in the two repositories, file by file and row by row. |
| CatalogCutover.FreshIsResumable | src/harbor_hf/catalog_cutover.py:175-215 | A plan that can be migrated and was not touched yet is where the statements about resuming begin. |
| CutoverAppliers.AppliersStayResumable | src/harbor_hf/catalog_cutover.py:155-232 | Any number of appliers of one plan, interleaving request by request, stopping anywhere and with commits that arrive late: the cutover is resumable throughout, and each repository takes at most one commit from all of them together. |
| CutoverAppliers.AppliersAgree | src/harbor_hf/catalog_cutover.py:155-232 | Appliers that report success report the same two revisions of a finished cutover; one that ends without success, its requests answered, was overtaken by a commit since it began. |
| CutoverAppliers.LoneCallFinishes | src/harbor_hf/catalog_cutover.py:175-232 | From wherever they leave it, one more application alone succeeds at those revisions. |
| CutoverAppliers.FinishedStays | src/harbor_hf/catalog_cutover.py:175-232 | A finished cutover is changed by no commit still on its way and no later application. |
| EvidenceLease.EvidenceIsWriteOnce | src/harbor_hf/bucket_evidence.py:202-249 | In every interleaving of calls, crashes, timeouts and late answers the bytes of an object never change, if writes land before their lease expires and before their call releases. |
| EvidenceLease.SuccessfulCallsAgree | src/harbor_hf/bucket_evidence.py:202-249 | Under the same premise calls that succeeded for one path carried equal bytes, those stored. |
| EvidenceLease.NextCallAdopts | src/harbor_hf/bucket_evidence.py:202-249 | After a call that succeeded, the next one with the same bytes adopts them and one with others meets a conflict. |
| EvidenceLease.NextKeeps | src/harbor_hf/coordination.py:95-140 | Each request, and each write that lands, keeps the claim exclusive: a call inside its lease owns the claim, and what it found absent is still absent. |
| EvidenceLease.PremiseIsExact | src/harbor_hf/bucket_evidence.py:202-249 | In every reachable world, a write in flight can land outside the premise over other bytes if and only if its bytes are not the stored ones already. |
| EvidenceLease.LateLandingOverwrites | src/harbor_hf/coordination.py:188-196 | A run from the empty world in which a write sent in time lands after its lease and replaces the bytes of the next writer. |
| EvidenceLease.LandingAfterReleaseOverwrites | src/harbor_hf/bucket_evidence.py:225-230 | Another in which the call timed out and released, and its write replaces the next writer's bytes although no time has passed. |
| EvidenceReader.Reader.ReadBytes | src/harbor_hf/bucket_evidence.py:82-97 | The cached reader returns what a direct read would; it misses exactly the paths its listing lacks, and it downloads only for a path that is not cached. |
| EvidenceReader.Reader.Prefetch | src/harbor_hf/bucket_evidence.py:144-183 | A prefetch adds exactly the listed files to the cache, still with the bucket's bytes, and a repeated one adds nothing. |
| EvidenceReader.StaleListing | src/harbor_hf/bucket_evidence.py:112-142 | An object published after the listing is reported missing until a refresh: where cached and direct reads differ. |
| TrialFinalizer.CampaignFinalizer.CompleteTrialSelection | src/harbor_hf/campaign_finalizer.py:436-543 | Whatever a crashed run left, this one raises no conflict and ends in the tree that run was heading for; if it is stopped itself the trial still heads there; a trial without marker is completed only if it heads for some end. Recovery and summary then name the one selected execution and its checksum, and lock, checksums and marker are spelled out. |
| TrialFinalizer.CampaignFinalizer.StageTrialEnvelope | src/harbor_hf/campaign_finalizer.py:558-635 | Recovery, lock, summary, checksums and marker are staged in an order whose every prefix can be continued; recovery and summary carry the selected execution and its checksum. |
| TrialFinalizer.CampaignFinalizer.CheckLock | src/harbor_hf/campaign_finalizer.py:637-657 | A missing lock is allowed until there are checksums; one that is there must be the campaign's. |
| TrialFinalizer.CampaignFinalizer.ValidateChecksums | src/harbor_hf/campaign_finalizer.py:659-699 | The marker-only path accepts exactly the checksums that would be written now. |
| TrialFinalizer.CampaignFinalizer.StageImmutable | src/harbor_hf/campaign_finalizer.py:786-805 | Nothing written is changed; equal content is adopted and other content refused. |
| TrialFinalizer.CampaignFinalizer.SuccessfulExecutions | src/harbor_hf/campaign_finalizer.py:714-784 | Lists each successful execution once, and fails exactly when the trial is not in just one locked shard or some execution is not valid evidence for it. |
| TrialFinalizer.SelectedExactly | src/harbor_hf/campaign_finalizer.py:714-784 | An execution is selected if and only if the trial is in one locked shard, its directory's execution succeeded and every other one is valid evidence that did not. |
| TrialFinalizer.CampaignFinalizer.AggregateChecksums | src/harbor_hf/campaign_finalizer.py:1096-1123 | Succeeds exactly when every child manifest is right about existing evidence, and is then the digest of every file but checksums and markers. |
| TrialFinalizer.CampaignFinalizer.ChildChecksums | src/harbor_hf/campaign_finalizer.py:1125-1149 | The least manifest with all that the children claim. |
| TrialFinalizer.CampaignFinalizer.Merge | src/harbor_hf/campaign_finalizer.py:1139-1148 | Adding a child's manifest fails exactly when no manifest extends both. |
| TrialFinalizer.EndIsDetermined | src/harbor_hf/campaign_finalizer.py:558-635 | A trial tree heads for one end only, byte for byte. |
| ProfileWorker.LadderWorker.RunLadder | src/harbor_hf/profile_worker.py:621-703 | The loops give exactly the run of the ladder; recovered points are used and not measured again; unreachable points are an error exactly when the run does not come by them; a stopped run wrote a beginning of it; it is blocked exactly when a point has to be measured whose directory was there without evidence; and the points it returns climb as far and repeat their top rungs as often as they should. |
| ProfileWorker.CrashBlocksRestart | src/harbor_hf/profile_worker.py:885-913 | After a crash between archiving a point and writing its evidence every restart before the deadline asks for the same point next and is blocked by its directory. |
| ProfileWorker.LadderWorker.ClimbLadder | src/harbor_hf/profile_worker.py:636-687 | The rung loop follows the ladder to the end of its rungs, and climbs as far as it should. |
| LadderReading.LadderClimbs | src/harbor_hf/profile_worker.py:636-687 | In the points of any run, each candidate is measured if and only if the one before it passed, at the first or second measurement, and the last three rates that passed have not stopped rising. |
| LadderRepeats.TopRungsAreRepeated | src/harbor_hf/profile_worker.py:684-700 | Said of the points alone: a rung that passed has a further repetition if and only if at most one rung above it passed, all its repetitions since met the objective and the plan wants more; other rungs have no more than two measurements. |
| LadderReading.RisingLadderIsComplete | src/harbor_hf/profile_worker.py:636-687 | When every rung passes and every three in a row have a rise, every candidate is measured. |
| ProfileWorker.LadderWorker.RunBoundaryRepetitions | src/harbor_hf/profile_worker.py:780-835 | The repetition loops follow the ladder to its end. |
| ProfileWorker.LadderWorker.ObtainPoint | src/harbor_hf/profile_worker.py:838-874 | A recovered point is consumed, any other measured, archived and written, unless its directory is in the way. |
| ProfileLadder.RestartReplays | src/harbor_hf/profile_worker.py:621-721 | Given the first points of any earlier run, a restart takes all of them in order, misses and repeats none and writes only what comes after. |
| ProfileLadder.RestartContinues | src/harbor_hf/profile_worker.py:621-721 | With the same measurements and deadline behaviour the restart is the uninterrupted run. |
| ProfileLadder.RestartNeedsTheDeadline | src/harbor_hf/profile_worker.py:715-721 | A restart takes all recovered points, skipped ones among them, if and only if no clock check before them finds the deadline passed; otherwise it reports unreachable points. |
| ProfileLadder.KeysAreNew | src/harbor_hf/profile_worker.py:621-703 | No concurrency and repetition is asked for twice. |
| ProfileLadder.SameSoFar | src/harbor_hf/profile_worker.py:621-703 | What a run asks next depends on the points so far and on nothing else. |
| ProfileLadder.PointMapHolds | src/harbor_hf/profile_worker.py:706-712 | Points with distinct keys are all found in the recovered map. |
| ProfileSelection.SelectProfile | src/harbor_hf/profiling.py:442-475 | Succeeds exactly for an unselected profile with intact points and a supported rung; the support is the passing points in the order of their repetitions, each within every limit, and beats every other support (highest concurrency, or best mean rate of the objective with ties to the lower concurrency). |
| ProfileSelection.GroupPoints | src/harbor_hf/profiling.py:452-454 | The groups are the points of each concurrency, in order. |
| ProfilePoints.PassesExactly | src/harbor_hf/profiling.py:512-540 | A point passes if and only if it is completed and meets the error rate and each limit the objective sets, for which it needs a value. |
| LadderSelection.BoundaryRungsAreSelectable | src/harbor_hf/profiling.py:542-567 | A boundary rung is selectable exactly when none of its repetitions failed or was skipped, with exactly the wanted number of points; for stable concurrency no other rung is. |
| LadderSelection.HighestFullRungWins | src/harbor_hf/profiling.py:456-458 | For stable concurrency the winner is the higher of the top two passing rungs that was fully repeated. |
| LadderSelection.RungsClimb | src/harbor_hf/profile_worker.py:684-686 | The passing rungs are distinct and in climbing order, so the boundary is too. |
| LadderSelection.RepeatsFillTheNeed | src/harbor_hf/profile_worker.py:797-835 | A boundary rung gets all the passing points it needs unless a repetition fails or is skipped; other rungs get none. |
| CampaignPlanner.ProviderWaveGroups | src/harbor_hf/campaigns.py:664-688 | Succeeds exactly when every run has a limit and runs of a deployment agree; the groups are the shards of each deployment. |
| CampaignPlanner.EffectiveIsLeast | src/harbor_hf/campaigns.py:670-683 | The concurrency of a run is within the trials at once, the provider's limit and the profile's, and equal to one of them. |
| CampaignPlanner.BuildPlannedInitialWaves | src/harbor_hf/campaigns.py:691-739 | Succeeds exactly when every chunk fits the wave time; all waves of a deployment get the longest time any of them needs. |
| CampaignPlanner.PlanDeployment | src/harbor_hf/campaigns.py:700-724 | The waves of one deployment are its shards in chunks, in order. |
| CampaignPlanner.ControllerPlan | src/harbor_hf/campaigns.py:611-637 | Succeeds if and only if the runs agree, every chunk fits the wave time and the sum of the waves' times and the reserve fits the Job; that sum is the total. |
| CampaignWaves.MoreBatchesTakeLonger | src/harbor_hf/campaigns.py:742-755 | Rounding and headroom keep the order of batches: a time covers another load if and only if it has as many batches. |
| CampaignWaves.WorkTakesTime | src/harbor_hf/campaigns.py:923-944 | The time of a wave without its reserve is at least one second. |
| CampaignWaves.WaveTimeIsLeast | src/harbor_hf/campaigns.py:742-755 | A wave's time is its reserve and the least whole number of seconds that covers the least number of batches with headroom. |
| CampaignWaves.ChunkTotals | src/harbor_hf/campaigns.py:700-724 | Chunking loses no trial and no shard. |
| CampaignWaves.GroupsPartition | src/harbor_hf/campaigns.py:664-688 | Every shard is in the group of just one deployment. |
| CampaignLocks.LockedInitialWaves | src/harbor_hf/campaigns.py:886-920 | The loops give the waves of the sorted shards with the times and limits read back from the plan. |
| CampaignLocks.LockKeepsTotals | src/harbor_hf/campaigns.py:886-920 | Locked waves take the planned time to the second and hold the planned trials, although shards are sorted again before chunking. |
| CampaignLocks.LockedWavesPartition | src/harbor_hf/campaigns.py:886-920 | The locked waves hold each shard ID as often as the lock, and all its trials. |
| CampaignLocks.LockedWavesFit | src/harbor_hf/campaigns.py:886-920 | No locked wave is empty or above the shard bound. |
| CampaignLocks.LockedWaveSeconds | src/harbor_hf/campaigns.py:773-793 | The shards of a locked wave resolve to that wave and no other; anything else is an error. |
| CampaignLocks.LockedWavesResolve | src/harbor_hf/campaigns.py:886-920 | When the shard IDs of the lock differ, no shard is in two locked waves and each locked wave is the only one that its shards resolve to. |
| CampaignLocks.LockedActionSeconds | src/harbor_hf/campaigns.py:756-802 | A submitted wave takes the time it was locked with, a retry the time its own trials need at the one concurrency of its deployment. |
| WaveCoverage.CoveredExactly | src/harbor_hf/campaigns.py:691-755 | The planned time covers a wave if and only if some planned chunk of the deployment has as many batches. |
| WaveCoverage.LockedWavesAreCovered | src/harbor_hf/campaigns.py:886-920 | With a planned wave of full shards, or all shards in one wave, every locked wave has the time its own trials need. |
| WaveCoverage.OneRunHasFullWave | src/harbor_hf/campaigns.py:577-590 | A deployment with one run meets that premise, and so does any whose first run has more shards than a wave. |
| WaveCoverage.FullShardsHaveFullWave | src/harbor_hf/campaigns.py:577-590 | A deployment with full shards only meets that premise. |
| WaveCoverage.LockedWaveCanBeLonger | src/harbor_hf/campaigns.py:886-920 | Three runs of the same five trials, cut into shards of two as planning does, that can be planned and whose shard IDs all differ: at four shards a wave, one wave of their lock has less time than its own trials need. |
| ControllerAdmission.AdmittedExactly | src/harbor_hf/controller_admission.py:53-100 | A wave is admitted exactly when nothing else stands in its way and less than a second more than allowed was used. |
| ControllerAdmission.RefusedExactly | src/harbor_hf/controller_admission.py:53-100 | When each decision other than to admit is taken. |
| ControllerAdmission.TimesAreWhole | src/harbor_hf/controller_admission.py:53-62 | The times reported: whole seconds used, what they leave of the timeout, and what is asked of it. |
| ControllerAdmission.AdmittedLeavesReserve | src/harbor_hf/controller_admission.py:53-100 | An admitted wave that keeps to its time leaves the reserve, but for part of a second. |
| ControllerAdmission.ReserveCanBeCut | src/harbor_hf/controller_admission.py:53-58 | Any part of a second can really be missing. |
| ControllerAdmission.WholeReserveIsLeft | src/harbor_hf/controller_admission.py:53-100 | A wave is admitted and leaves the whole reserve, whenever it ends within its time, if and only if no more was used than the timeout less reserve and wave. |
| ControllerAdmission.FeasibleWaveIsAdmitted | src/harbor_hf/controller_admission.py:53-100 | If no more was used than planned for the waves before, the wave is admitted. |
| ControllerAdmission.LockedCampaignIsAdmitted | src/harbor_hf/campaigns.py:628-637 | A campaign whose plan fitted the Job is admitted to its last locked wave while its waves keep to their times. |
| SourceTree.Traverse | src/harbor_hf/benchmark_bundle.py:378-396 | The stack traversal lists every node of the tree once, however directories list their children; it fails exactly for an unacceptable node or too many. |
| SourceTree.SourceNodes | src/harbor_hf/benchmark_bundle.py:378-396 | The nodes come out in ascending byte order of their paths, always the same list. |
| SourceTree.DirectoryBeforeContents | src/harbor_hf/benchmark_bundle.py:396 | In byte order a directory comes before all it contains. |
| BenchmarkBundle.ScanSource | src/harbor_hf/benchmark_bundle.py:344-375 | Accepts exactly the non-empty trees without credentials within the limits, and lists their entries. |
| BenchmarkBundle.ScannedIsCanonical | src/harbor_hf/benchmark_bundle.py:75-103 | The entries of any accepted tree pass manifest validation. |
| BenchmarkBundle.CanonicalExactly | src/harbor_hf/benchmark_bundle.py:75-103 | The manifests that are accepted, limit by limit: ascending safe paths, sizes, and each path's directory among the entries. |
| BenchmarkBundle.MatchesExactly | src/harbor_hf/benchmark_bundle.py:266-298 | A tar member matches an entry if and only if it is the entry that a scan lists for it, with blank owner and time. |
| BenchmarkBundle.PackedParentsFirst | src/harbor_hf/benchmark_bundle.py:471-489 | Every tar member comes after its directory. |
| BenchmarkBundle.ExtractTar | src/harbor_hf/benchmark_bundle.py:250-298 | Nothing is extracted over what was created before; an archive that matches its manifest and has parents first is extracted completely, any that does not match is refused. |
| BenchmarkBundle.ExtractBundle | src/harbor_hf/benchmark_bundle.py:216-233 | Whatever the archive, what comes out scans to the manifest and was within the limits on manifest, payload and tar; the bundle of a tree gives back that tree if and only if it is within them. |
| BenchmarkBundle.BuildBundle | src/harbor_hf/benchmark_bundle.py:145-183 | A build succeeds if and only if both scans accept the source and agree, and manifest, payload and tar are within their limits; it is then the bundle of the tree. |
| BenchmarkBundle.ManifestSizeIsRight | src/harbor_hf/benchmark_bundle.py:141-142 | The size compared with the limit is the length of the canonical JSON text. |
| BenchmarkBundle.LimitsAre | src/harbor_hf/benchmark_bundle.py:171-225 | The three limits in bytes, on the manifest's text, the payload and the tar. |
| TarFormat.PaxRecordIsItsLength | src/harbor_hf/benchmark_bundle.py:471-489 | A pax record is as long as it says, its own digits included. |
| BenchmarkBundle.OneMemberTakes | src/harbor_hf/benchmark_bundle.py:460-489 | A tar of several members takes the sum (MemberBytesJoin) of what a member takes with its name, a directory's with a slash, and its content. |
| TarFormat.MembersTake | src/harbor_hf/benchmark_bundle.py:471-489 | What a member takes in the tar for each kind of name and size. |
| BundleLimits.LongPathsExceedTheTarLimit | src/harbor_hf/benchmark_bundle.py:216-233 | From 2100 empty files on, four directories deep with names of 255 bytes, an acceptable source has a tar over the decompression limit. |
| BundleLimits.ManyFilesExceedTheManifestLimit | src/harbor_hf/benchmark_bundle.py:171-173 | From 983,281 empty files on, with names of about 150 bytes, an acceptable source has a manifest over its limit, while its tar is within its own. |
| BenchmarkBundle.WriteSnapshot | src/harbor_hf/benchmark_bundle.py:344-375 | The snapshot written in scan order never fails and is the tree. |
| BundleTrimming.PrivateBundle.FinalizeBoundedRejections | src/harbor_hf/private_artifacts.py:541-569 | The loop ends; kept and removed files are the files given; nothing removed ranks above anything kept; kept files and record fit; and the record is that of all rejections. |
| BundleTrimming.PrivateBundle.TrimBundle | src/harbor_hf/private_artifacts.py:819-848 | The shortest beginning of the removal order whose removal makes the rest fit is removed. |
| BundleTrimming.SortingOrders | src/harbor_hf/private_artifacts.py:827-834 | The removal order is by importance, then size, then path. |
| BundleTrimming.RemovalReads | src/harbor_hf/private_artifacts.py:33-44 | The kinds in their order, the lock the last to go; within a kind the larger file goes first, within a size the lesser path. |
| RejectionRecord.SelectPrefix | src/harbor_hf/private_artifacts.py:590-608 | The binary search finds the largest prefix whose record fits. |
| RejectionRecord.WriteRejections | src/harbor_hf/private_artifacts.py:572-608 | The record lists that prefix of the distinct rejections by path, or there is none. |
| RejectionRecord.PayloadGrows | src/harbor_hf/private_artifacts.py:611-622 | Each rejection makes the record strictly longer, although the omitted count loses digits. |
| RejectionRecord.ItemsJoin | src/harbor_hf/private_artifacts.py:611-622 | The rejections of a record stand one after the other with commas in between. |
| RejectionRecord.RecordAccountsForAll | src/harbor_hf/private_artifacts.py:611-622 | Listed and omitted rejections together are all distinct paths, and those omitted before. |
| RejectionRecord.NothingOmittedWhenAllFit | src/harbor_hf/private_artifacts.py:572-608 | If all rejections fit, all are listed. |

## Left out

- Transport: HTTP, Jobs, subprocesses, signals, threads and the local file system are replaced
  by histories, maps and lists; JSON, tar and zstd by values, but for the rejection record and
  the sizes of a bundle's manifest and tar.
- The incremental UTF-8 decoder behind the redacting writer: statements are about bytes.
- `create_campaign`, listing campaigns, and reading snapshots: reads of one version.
- `write_status`, provider capacity, and launch claims and receipts: the same replace-exactly and
  write-once operations as the lease and the attempts.
- The leases around the catalog cutover, which expire: appliers are taken to overlap at will; and
  how a publication is migrated: a function of the two expected heads.
- How one execution's evidence is validated when a trial is finished: a function of its files and
  its locked shard.
- Finishing runs and failed trials, and publishing: they write no file that a trial's tree holds.
- EventLog.CampaignStore.ReserveAction: an event ID that another event has is answered where the code writes over it; IDs are drawn from UUIDs.
- ProfileWorker.LadderWorker.RunLadder: a copy of the archive that is cut short counts as a directory without evidence.
- Wave and retry cost estimates, and capacity observed from percentiles.
- BenchmarkBundle.ExtractTar: paths outside the destination are not expressible; the path rules are a predicate.
- BenchmarkBundle.ValidateBundle: digests, and what compression makes of a tar, are functions of what they are taken of.
- BundleTrimming.PrivateBundle.FinalizeBoundedRejections: the scan that finds the files and the rejections from before is not part of it.
- CampaignPlanner.BuildPlannedInitialWaves: the longest time of a deployment is taken along with its chunks, not in a second pass.
- Endpoints, judge recording, staging, and the reconciler: not part of this model.
- Field validation of records, the command line and configuration.
