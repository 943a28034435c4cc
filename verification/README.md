# OpenChronicle verification

This project models the parts of OpenChronicle that keep state across failures, interleavings and
restarts, and proves what they promise. `dafny verify dfyconfig.toml` checks all of it.

- **Offline restore** (`Volume`, `RestorePlan`, `RestoreInvariant`, `ActivateSafety`, `RollbackSafety`,
  `RestoreRuns`, `RestorePair`, `RestoreGates`, `RestoreHelper`). The helper that swaps a SQLite family (`db`, `-wal`, `-shm`)
  on the data volume. A volume maps paths to bytes; each copy, rename, unlink, mkdir and replacement of `state.json` is
  one step, and a durable copy is two, so that an interrupted one leaves torn bytes. Commands are plans of
  steps; a crash is a prefix of a plan; a history is any sequence of crashed or finished commands, with the
  service writing the live family wherever the runbook lets it run. The class `Process` carries the commands
  out step by step, branch by branch, and is proved to take exactly its plan or, when it dies, a prefix.
  Two operations on one volume take turns, with or without regard for the runbook, each with its own record
  of the one live family. When a command does anything, and what it then leaves, is said of the volume alone.
- **Embedding freshness** (`EmbeddingStore`, `EmbeddingFreshness`, `Backfill`, `BackfillRows`,
  `EmbeddingHealth`, `RevisionProbe`, `RevisionStamps`). Updates, deletions and embeds interleave; publication is a
  compare-and-swap on the content hash; tombstones park rows the model cannot embed; the model revision is
  probed and guarded, and stamped on rows while weights are pulled underneath.
- **Search** (`SearchStream`, `Fusion`, `HybridSearch`, `HybridLimits`, `HybridPages`). Floated pins, over-fetching to make
  room for excluded rows, pages of one stream, the window of most similar vectors, and reciprocal-rank fusion
  over exact rationals.
- **Rate limiting** (`RateLimit`). The pruned and swept table of timestamps against the full history of
  admissions.
- **Commit clustering** (`Clustering`, `ClusteringLaws`, `ClusteringGroups`, `ClusteringWhole`). Time grouping, overlap merging
  and the cap loop.
- **Artifact transport** (`Base64`, `ArtifactCodec`, `ArtifactLaws`, `ArtifactRecords`). Numbered base64 records printed into a
  log and read back from it.
- **Snapshots** (`Retention`, `RetentionRule`, `BackupCatalog`). Which snapshots retention keeps, and a directory that
  creators and pruners change step by step, any of which may fail or crash at any step.
- **Maintenance loop** (`MaintenanceLoop`, `MaintenanceLaws`, `MaintenanceDispatch`). Jobs behind a job lock and a global lock, with
  a state file that may lose stamps, and the loader and the health probe that read it.
- **Export and import** (`Envelope`, `EnvelopeLaws`, `EnvelopeRows`). Validation of the whole envelope before any write, and
  a union by id.

`Common` holds what they share, and `StableSort` and `StableRank` the sort that search, retention and clustering
rely on, and the place it gives each element.
Where the system says something and the code does another, the code is modelled; five promises turned out to
hold under a condition only, and each is stated with its condition:

- Commit clusters read off the stable date order for every input exactly when the time window is not
  negative (`ClusteringLaws.TilesExactlyForNonNegativeWindows`).
- On a hybrid page what both channels found comes before what one channel found exactly while
  `top_k + offset` is at most 30; for every larger budget there is a search whose page has it the other way
  round (`HybridLimits.HybridHitsLeadUpToThirty`, `HybridLimits.HybridHitTrails`).
- The health probe speaks the truth about a job's last recorded run according to what it reads of the two
  stamps. Without the run's stamp, or with a block of the file that is no object, it is right exactly when the
  run ended well; with it but without the stamp of the last success, exactly when the run did not; with both,
  unless the run failed and the last success is stamped at or after it. The stamps are wall-clock readings,
  which may stand still or step back, and each entry of the file may be lost on its own
  (`MaintenanceLaws.HealthTellsTheTruth`; concrete runs in `StalledClockHidesAFailure`,
  `SteppedBackClockHidesAFailure`, `LostSuccessRaisesAFalseAlarm`, `LostRunHidesAFailure` and
  `MalformedBlockHidesAFailure` of the same module).
- A stored row whose stamp matches the present digest of the model was computed by weights of that digest
  exactly when that digest has not been replaced and pulled again
  (`RevisionStamps.StampsAreTruthfulUnlessWeightsReturn`).
- An exported store is accepted by an empty one exactly when its ids and project names are not empty, and
  comes back unchanged exactly when its sources are not empty either
  (`EnvelopeLaws.ExportIsAcceptedWhenNamed`, `EnvelopeLaws.RestoredIsExact`).

## Model

| member | source | states |
|---|---|---|
| RestoreRuns.EveryHistoryIsSafe | scripts/offline_restore.py:477-723 | over every history of commands, crashes and service writes: the live main file exists, and the recorded phase implies the disk facts of that phase, the archive, the assessment and the candidate |
| RestoreRuns.OkIsNeverInherited | scripts/offline_restore.py:243-335 | a recorded write probe of "ok" belongs to the latest swap: a probe passed after it while the main file held exactly what that phase installed |
| RestoreRuns.ArchivesStayExact | scripts/offline_restore.py:517-540 | raw-old once archived, and forward-state once `rolling_back` is recorded, are byte-exact copies of what was live then, through everything that follows |
| RestoreRuns.ResumePasses | scripts/offline_restore.py:633-661 | in `rolling_back`, wherever the last run stopped, every check a resumed rollback makes passes |
| RestoreRuns.RollingBackFinishes | scripts/offline_restore.py:633-681 | one uninterrupted rollback from there ends rolled back with the consolidation of the archived family as the whole live family |
| RestoreRuns.CrashedRollbackEndsAlike | scripts/offline_restore.py:609-681 | a rollback crashed after recording `rolling_back` and run again ends with the record and the live family of one that never crashed |
| RestoreRuns.HalfArchiveBlocksRollback | scripts/offline_restore.py:609-626 | a rollback crashed while archiving forward leaves the live family alone and is refused ever after |
| RestoreRuns.CrashedRetirementFinishes | scripts/offline_restore.py:684-723 | a retirement crashed anywhere after `in_progress` was recorded re-runs to done with the candidate gone |
| RestoreRuns.RollbackUndoesActivation | scripts/offline_restore.py:477-681 | after a completed activation and any later history, a completed rollback leaves the consolidation of the family that was live before, and nothing else |
| RestoreRuns.NextSafe | scripts/offline_restore.py:477-723 | every command cut anywhere, and every service write the runbook allows, keeps the invariant |
| RestoreRuns.ServiceSafe | scripts/offline_restore.py:243-263 | a service that writes the live family in a phase the runbook allows breaks no recorded fact |
| RestorePair.ArchivesSurviveEverything | scripts/offline_restore.py:477-723 | over every history of two operations on one volume, with one staged file or two, in any order, crashed anywhere, with service writes at any time, runbook kept or not: the main file exists, both see one live family, and each one's raw-old and snapshot are what its record says |
| RestorePair.BothStaySafe | scripts/offline_restore.py:477-723 | while operations and service keep out of each other's swaps, each record also keeps telling the truth about its own phase and candidate |
| RestorePair.OkDescribesTheLastSwap | scripts/offline_restore.py:299-335 | while the service does not write, a recorded "ok" describes the live file exactly when its operation installed what the last swap installed: always for the operation that swapped last |
| RestorePair.ActivationOutdatesTheOther | scripts/offline_restore.py:315-332 | another operation's activation leaves an older record reading as before about a file that is gone; its probe would record `stale`, and its rollback is accepted or refused as before |
| RestorePair.AnotherActivationIsAWayOut | scripts/offline_restore.py:593-611 | when a stopped operation refuses its rollback, another one's activation succeeds and describes the live file, and the stuck one keeps its record, archive and snapshot |
| ActivateSafety.ActivateSafe | scripts/offline_restore.py:477-566 | every prefix of an activation keeps the invariant, and a finished one installs the candidate with the old family archived |
| ActivateSafety.ArchiveSafe | scripts/offline_restore.py:517-540 | archiving the raw family keeps the invariant at every step and ends with exact copies recorded |
| ActivateSafety.AssessSafe | scripts/offline_restore.py:383-411 | assessing the old state in scratch copies touches nothing live and records only a snapshot that was produced |
| ActivateSafety.PrepareSafe | scripts/offline_restore.py:544-550 | staging the candidate and recording `prepared` keeps the invariant at every step |
| ActivateSafety.InstallSafe | scripts/offline_restore.py:552-561 | displacing the sidecars, swapping the main file, recording and probing keep the invariant at every step |
| RollbackSafety.AbandonSafe | scripts/offline_restore.py:579-591 | abandoning a half-archived operation leaves the live family untouched |
| RollbackSafety.ForwardSafe | scripts/offline_restore.py:609-632 | archiving the family being rolled away from keeps the invariant and ends in `rolling_back` with exact copies |
| RollbackSafety.ReinstallSafe | scripts/offline_restore.py:662-681 | from any `rolling_back` state, re-installing keeps the invariant at every step and ends with the old snapshot live and no sidecars |
| RollbackSafety.RollbackFromInstalled | scripts/offline_restore.py:569-681 | a whole rollback keeps the invariant at every step and ends rolled back on the old snapshot |
| RollbackSafety.ProbeCommandSafe | scripts/offline_restore.py:299-335 | the probe command keeps the invariant: it records "ok" only for the file the swap installed |
| RollbackSafety.RetireSafe | scripts/offline_restore.py:684-723 | retiring the stage keeps the invariant and ends done with the candidate gone |
| RestoreHelper.Process.CopyDurable | scripts/offline_restore.py:107-115 | a copy leaves torn bytes when it dies in the middle and the whole content when it does not |
| RestoreHelper.Process.Activate | scripts/offline_restore.py:477-566 | the branches of `activate` take exactly the planned steps, or a prefix when the process dies, and keep the invariant |
| RestoreHelper.Process.Rollback | scripts/offline_restore.py:569-681 | the same for `rollback`, refusals included |
| RestoreHelper.Process.Probe | scripts/offline_restore.py:299-335 | the same for `probe` |
| RestoreHelper.Process.RetireStage | scripts/offline_restore.py:684-723 | the same for `retire_stage`, refusals included |
| RestoreHelper.Process.Archive | scripts/offline_restore.py:517-540 | the archiving part of `activate`, as planned or a prefix |
| RestoreHelper.Process.Assess | scripts/offline_restore.py:383-411 | the assessment of the old state, as planned or a prefix |
| RestoreHelper.Process.Install | scripts/offline_restore.py:552-561 | the swap and its probe, as planned or a prefix |
| RestoreHelper.Process.ForwardArchive | scripts/offline_restore.py:619-632 | the forward archive of `rollback`, as planned or a prefix |
| RestoreHelper.Process.Reinstall | scripts/offline_restore.py:662-681 | the re-installation of `rollback`, as planned or a prefix |
| RestoreHelper.Process.RecordProbe | scripts/offline_restore.py:243-263 | the probe result that is recorded, as planned or a prefix |
| RestoreGates.ActivationGate | scripts/offline_restore.py:160-180 | an activation does anything if and only if a main file and the staged candidate are there, no recovery directory of the operation is, and the candidate has the digest, the schema version and the project identity that the operator named |
| RestoreGates.ActivatedIsWhatWasNamed | scripts/offline_restore.py:172-179 | however far an activation got, a record that reads `activated` goes with a live main file of the digest the operator named |
| RestoreGates.ActivationOutcome | scripts/offline_restore.py:517-566 | a finished activation: the record field by field, the candidate alone live, and the archive, the sidecars set aside and the snapshot byte for byte |
| RestoreGates.HaltedActivationOutcome | scripts/offline_restore.py:397-411 | when consolidation raises, the live family is as it was and archived, the half-written snapshot stays, the scratch directory does not, and the record says no more than archived |
| RestoreGates.AssessmentLeaves | scripts/offline_restore.py:383-411 | assessing leaves the snapshot SQLite produced, nothing when it found no database, what it had written when it raised, and never the scratch directory |
| RestoreGates.RollbackGate | scripts/offline_restore.py:569-661 | a rollback does anything if and only if it abandons a half-archived operation, or the assessed snapshot is there with its digest and either no forward archive was begun or a recorded one is complete with main file and sidecars in the one place the record allows |
| RestoreGates.RollbackOutcome | scripts/offline_restore.py:609-681 | a finished rollback: the record, the family rolled away in the forward archive and set aside, and the old snapshot alone live |
| RestoreGates.AbandonOutcome | scripts/offline_restore.py:579-591 | abandoning removes a leftover copy identical to the candidate and records it; nothing else changes |
| RestoreGates.ProbeGate | scripts/offline_restore.py:299-314 | a probe runs for an installed file unless a `-shm` lies there without its `-wal` |
| RestoreGates.ProbeOutcome | scripts/offline_restore.py:315-335 | it records `stale` exactly when the main file is not what this operation installed or the `-wal` is not empty, and otherwise whether the write succeeded |
| RestoreGates.RetirementGate | scripts/offline_restore.py:684-715 | retirement goes ahead after an outcome, once, for the recorded candidate, or for one that is gone after its removal was announced |
| RestoreGates.RetirementOutcome | scripts/offline_restore.py:684-723 | it leaves neither the candidate nor a leftover copy identical to it, and records done |
| EmbeddingStore.SqliteStore.AddMemory | src/openchronicle/core/infrastructure/persistence/sqlite_store.py:421-459 | a new memory is added and no row changes; a taken id is refused and changes nothing |
| EmbeddingStore.SqliteStore.SaveEmbedding | src/openchronicle/core/infrastructure/persistence/sqlite_store.py:589-662 | a row is published exactly when the memory still holds the content the caller embedded |
| EmbeddingStore.SqliteStore.UpdateMemory | src/openchronicle/core/infrastructure/persistence/sqlite_store.py:549-572 | the first step of an update: the content changes, the row stays |
| EmbeddingStore.SqliteStore.DeleteMemory | src/openchronicle/core/infrastructure/persistence/sqlite_store.py:574-586 | the memory and its row go together |
| EmbeddingStore.SqliteStore.DeleteEmbedding | src/openchronicle/core/infrastructure/persistence/sqlite_store.py:853-857 | the second step of an update: the row goes, the memory stays |
| EmbeddingStore.SqliteStore.GetEmbeddingIdentity | src/openchronicle/core/infrastructure/persistence/sqlite_store.py:869-890 | the answer decides currency: for every target and content it matches exactly when the memory's stored embedding is current |
| EmbeddingFreshness.NoOrphansNoLies | src/openchronicle/core/infrastructure/persistence/sqlite_store.py:589-662 | in every interleaving no embedding outlives its memory, and every row was computed from the content whose hash it carries |
| EmbeddingFreshness.PublishIsFresh | src/openchronicle/core/infrastructure/persistence/sqlite_store.py:589-662 | what a publication stores was computed from the memory's content at that moment; a refused one stores nothing |
| EmbeddingFreshness.StepsDo | src/openchronicle/core/application/use_cases/update_memory.py:41-56 | what a publication, both steps of an update, a deletion and an addition do to memories and rows, a vector or a tombstone as the answer was |
| EmbeddingFreshness.OnlyAContentWriteMakesStale | src/openchronicle/core/application/use_cases/update_memory.py:41-56 | no step but a write of the content makes a content-current row stale |
| EmbeddingFreshness.UpdateSettles | src/openchronicle/core/application/use_cases/update_memory.py:41-56 | once both steps of an update have run, the row is missing or content-current from then on, except between the two steps of a later update |
| EmbeddingFreshness.BlindPublicationWouldGoStale | src/openchronicle/core/infrastructure/persistence/sqlite_store.py:589-662 | without the swap a late publication would leave a stale row that nothing repairs |
| RevisionStamps.StampsNeverLead | src/openchronicle/core/application/services/embedding_service.py:549-552 | in every interleaving of pulls, probes, embeds and edits, every stored row carries the digest of weights pulled no later than those that computed it |
| RevisionStamps.EmbedStores | src/openchronicle/core/application/services/embedding_service.py:463-527 | an undisturbed embed stores what the weights made of the content, or parks it, under the revision known when it began |
| RevisionStamps.StampsAreTruthfulUnlessWeightsReturn | src/openchronicle/core/application/services/embedding_service.py:549-552 | over all runs with a given history of pulls, a row that matches the present digest was computed by weights of that digest if and only if the digest has not been replaced and come back |
| Backfill.IsRowCurrent | src/openchronicle/core/application/services/embedding_service.py:443-461 | the check through the row's identity decides freshness |
| Backfill.SelectCandidates | src/openchronicle/core/application/services/embedding_service.py:562-573 | the scan computes the selection, whatever others write between two of its reads |
| Backfill.SelectedAre | src/openchronicle/core/application/services/embedding_service.py:562-573 | a listed memory is selected exactly when its row was not current as it was read, or the run was forced |
| Backfill.SelectedAtRest | src/openchronicle/core/application/services/embedding_service.py:562-573 | a store that rests during the scan yields its candidates |
| Backfill.BackfillChunked | src/openchronicle/core/application/services/embedding_service.py:586-701 | for every chunk size and every provider whose batch agrees with its single calls, raises or miscounts: the rows and counts of embedding one by one |
| Backfill.Conservation | src/openchronicle/core/application/services/embedding_service.py:562-701 | generated, failed, tombstoned and refused add up to the candidates |
| Backfill.BackfillCompletes | src/openchronicle/core/application/services/embedding_service.py:562-701 | a whole-corpus run without failures or concurrent edits leaves no candidate for the next run under the same revision |
| BackfillRows.WriteStores | src/openchronicle/core/application/services/embedding_service.py:632-661 | one candidate, whatever others do just before: its row becomes the vector or the tombstone the provider answered exactly when the write does not raise and the memory still holds the content, no other row changes, and the one counter it belongs to moves |
| BackfillRows.BackfillStoresTheAnswers | src/openchronicle/core/application/services/embedding_service.py:586-701 | after an undisturbed run every candidate has the vector or the tombstone of its own content, one that raised or failed has the row it had, and so has every memory that is no candidate |
| BackfillRows.BackfillCountsTheAnswers | src/openchronicle/core/application/services/embedding_service.py:586-701 | and each count is the number of candidates with that fate |
| Backfill.EmbeddingService.GenerateMissing | src/openchronicle/core/application/services/embedding_service.py:529-560 | a call that finds the lock held skips, an unknown revision and a listing that raises change nothing, a finished run is that of the specification and only a whole-corpus one is remembered; the lock is let go on every path |
| Backfill.EmbeddingService.MustReconcile | src/openchronicle/core/application/services/embedding_service.py:281-288 | a run is started exactly when the verified revision differs from that of the last whole-corpus run |
| EmbeddingHealth.CountsAreTheCandidates | src/openchronicle/core/application/services/embedding_service.py:703-756 | with a verified revision, missing plus the two stale counts is the number of memories that are not current |
| EmbeddingHealth.RowClassesPartition | src/openchronicle/core/infrastructure/persistence/sqlite_store.py:738-835 | vectors and tombstones make up all rows; the stale buckets and the parked rows are disjoint |
| EmbeddingHealth.EveryMemoryIsCountedOnce | src/openchronicle/core/application/services/embedding_service.py:703-756 | each count memory by memory, and the total is the memories without a row, of another space, of other content, parked and held |
| EmbeddingHealth.CleanBackfillClearsHealth | src/openchronicle/core/application/services/embedding_service.py:703-756 | after a clean whole-corpus backfill nothing is missing and nothing is stale |
| RevisionProbe.OllamaAdapter.RefreshRevision | src/openchronicle/core/infrastructure/embedding/ollama_adapter.py:219-259 | one refresh: cooldown, a busy lock and the three probe results each lead where the specification says |
| RevisionProbe.OllamaAdapter.EmbedSucceeded | src/openchronicle/core/infrastructure/embedding/ollama_adapter.py:114-182 | a successful embed lifts the cooldown and keeps the revision |
| RevisionProbe.OllamaAdapter.ProbeSucceeded | src/openchronicle/core/infrastructure/embedding/ollama_adapter.py:261-279 | a probe that got through sets the revision and clears the failures |
| RevisionProbe.OllamaAdapter.ProbeFailed | src/openchronicle/core/infrastructure/embedding/ollama_adapter.py:281-308 | a failed probe counts and keeps the revision |
| RevisionProbe.NextProbeAfterAFailure | src/openchronicle/core/infrastructure/embedding/ollama_adapter.py:219-238 | after a failed probe the next is made thirty seconds later, or at once when forced or after an answered embed, and never unforced once a revision is verified |
| RevisionProbe.FirstProbeIsNotDelayed | src/openchronicle/core/infrastructure/embedding/ollama_adapter.py:219-238 | without a failed probe to wait for, the first call that gets the lock probes |
| RevisionProbe.VerifiedStaysVerified | src/openchronicle/core/infrastructure/embedding/ollama_adapter.py:219-308 | a verified revision never becomes unknown, and failed probes never change it |
| RevisionProbe.ValueIsLastListed | src/openchronicle/core/infrastructure/embedding/ollama_adapter.py:240-279 | the value is what the last successful probe listed |
| RevisionProbe.GuardQuery | src/openchronicle/core/application/services/embedding_service.py:979-1010 | a ranking is accepted only under one revision seen just before and just after its embed, and a search that opened with a known revision never runs without one |
| RevisionProbe.GivesUpOnlyOnChurn | src/openchronicle/core/application/services/embedding_service.py:979-1010 | a search gives up exactly when the revision changed around both embeds |
| SearchStream.OverfetchIsExact | src/openchronicle/core/infrastructure/persistence/sqlite_store.py:1074-1081 | fetching as many more rows as there are excluded ids makes the first n survivors exact |
| SearchStream.OverfetchIsNeeded | src/openchronicle/core/infrastructure/persistence/sqlite_store.py:1074-1081 | one row less falls short when the excluded rows lead the ranking |
| SearchStream.PageIsSlice | src/openchronicle/core/application/use_cases/search_memory.py:110-133 | whatever prefix of enough rows was fetched, the page is the slice of one fixed stream |
| SearchStream.KeywordSearch | src/openchronicle/core/application/use_cases/search_memory.py:94-133 | keyword mode returns that slice |
| SearchStream.Combine | src/openchronicle/core/application/use_cases/search_memory.py:130-133 | pins first, then the ranked rows with their ranks |
| SearchStream.DegradedHybridSearch | src/openchronicle/core/application/services/embedding_service.py:807-885 | hybrid search with a failing provider returns exactly the keyword-mode page |
| SearchStream.PagesTile | src/openchronicle/core/application/use_cases/search_memory.py:124-133 | consecutive pages join without gap or overlap, each within its budget |
| SearchStream.StreamHasEachMemoryOnce | src/openchronicle/core/application/use_cases/search_memory.py:94-133 | no memory is twice in the stream, and every ranked one is in it |
| SearchStream.FloatsWhenAsked | src/openchronicle/core/application/use_cases/search_memory.py:94-107 | what floats is nothing when pins are hidden, and otherwise the first pins up to the limit |
| SearchStream.PageIsExact | src/openchronicle/core/application/use_cases/search_memory.py:94-133 | the page row by row: the floated pins in their order, then the ranked memories that do not float in theirs, each with its rank |
| SearchStream.StorePageIsExact | src/openchronicle/core/infrastructure/persistence/sqlite_store.py:1057-1081 | a store search that excludes the floats returns its page of the ranked memories that do not float |
| Fusion.BuildRanking | src/openchronicle/core/application/services/embedding_service.py:889-890 | the loop that turns a result list into ranks |
| Fusion.Fuse | src/openchronicle/core/application/services/embedding_service.py:904-933 | one id of the fusion: skipped without a row or when filtered, otherwise scored by its reciprocal ranks |
| Fusion.SearchHybrid | src/openchronicle/core/application/services/embedding_service.py:889-955 | the fusion loop builds the specified page for every order in which the ids are walked |
| Fusion.HybridPageIsOrdered | src/openchronicle/core/application/services/embedding_service.py:828-955 | the page has no memory twice, stays within its budget, puts floated pins first and the rest in non-increasing score, all of it allowed by the filters |
| Fusion.NothingLostInFusion | src/openchronicle/core/application/services/embedding_service.py:889-955 | every allowed candidate is in the merged list whenever they all fit |
| Fusion.SortSorts | src/openchronicle/core/application/services/embedding_service.py:935 | sorting by score gives a non-increasing permutation |
| Fusion.EntryFacts | src/openchronicle/core/application/services/embedding_service.py:904-933 | an entry carries its id, its ranks within the windows and the score made of them |
| Fusion.BetterRanksScoreHigher | src/openchronicle/core/application/services/embedding_service.py:926-933 | a memory ranked no worse in both channels never scores lower, and scores higher when ranked better in one |
| Fusion.BothChannelsWinUpToThirty | src/openchronicle/core/application/services/embedding_service.py:828-933 | among ranks within the windows, a rank in both channels beats every rank in one exactly when the budget is at most 30 |
| HybridPages.EntryIsExact | src/openchronicle/core/application/services/embedding_service.py:904-933 | an id has an entry exactly when its row passes the filters, and then it shows that row, its channel, the sum of 1 / (60 + rank) over the channels that found it, its similarity and its keyword rank |
| HybridPages.HybridPageIsExact | src/openchronicle/core/application/services/embedding_service.py:807-955 | the page place by place: the floated pins first, then at each place an allowed candidate that exactly as many others precede, by score or by the walk among equal scores |
| HybridPages.PageLength | src/openchronicle/core/application/services/embedding_service.py:807-819 | the page is as long as the budget, or as the pins and the allowed candidates up to `top_k + offset` that are left after the offset |
| HybridPages.CandidateIsInItsPlace | src/openchronicle/core/application/services/embedding_service.py:889-955 | every allowed candidate whose place falls on the page is there |
| HybridPages.HybridPagesTile | src/openchronicle/core/application/services/embedding_service.py:807-955 | over the same windows consecutive pages join without gap or repeat |
| HybridLimits.HybridHitsLead | src/openchronicle/core/application/services/embedding_service.py:889-955 | on a page within that budget, what both channels found comes before what one channel found, behind the floated pins |
| HybridLimits.HybridHitTrails | src/openchronicle/core/application/services/embedding_service.py:889-955 | for every larger budget, a search and an order of its ids whose page has a hit of one channel before a hit of both |
| HybridLimits.HybridHitsLeadUpToThirty | src/openchronicle/core/application/services/embedding_service.py:828-955 | so hits of both channels lead every page of a budget if and only if it is at most 30 |
| HybridSearch.SemanticWindowIsTheTop | src/openchronicle/core/application/services/embedding_service.py:1000-1042 | the semantic window holds distinct memories of the query's space, in scope and not floated, in non-increasing similarity, as many as fit, and none left out is more similar |
| HybridSearch.WindowHoldsTheNearest | src/openchronicle/core/application/services/embedding_service.py:1000-1042 | the same of the table and the memories themselves: only vectors of the provider, model, settings, verified revision and length asked for, of memories in scope that do not float; one is left out only by a full window of no less similar ones |
| HybridSearch.FusesTheWindows | src/openchronicle/core/application/services/embedding_service.py:828-888 | fusion is given the pins that float, twice the budget of the ranking without them, the semantic window, and the parameters unchanged |
| HybridSearch.DotSnoc | src/openchronicle/core/application/services/embedding_service.py:1034 | the similarity is the sum of the products, place by place |
| HybridSearch.FusionHidesOnlyPins | src/openchronicle/core/application/services/embedding_service.py:1018-1026 | scope is applied before the window is cut: fusion's own filter can only drop pins the caller hides |
| HybridSearch.SearchIsWellFormed | src/openchronicle/core/application/services/embedding_service.py:828-860 | both windows have the size, the distinct ids and the exclusions that fusion relies on |
| RateLimit.Limiter.constructor | src/openchronicle/interfaces/api/middleware/rate_limit.py:29-36 | an empty table agrees with an empty history |
| RateLimit.Limiter.Sweep | src/openchronicle/interfaces/api/middleware/rate_limit.py:71-78 | the sweep prunes every other client and drops those with nothing left |
| RateLimit.Limiter.Admit | src/openchronicle/interfaces/api/middleware/rate_limit.py:61-78 | an admission leaves the table holding the admissions of the last minute and no idle client |
| RateLimit.Limiter.Dispatch | src/openchronicle/interfaces/api/middleware/rate_limit.py:38-83 | the pruned and swept table decides every request as the full history of admissions would |
| RateLimit.AtMostRpmPerWindow | src/openchronicle/interfaces/api/middleware/rate_limit.py:38-62 | over every run with a non-decreasing clock, no client is admitted more than rpm times in any half-open minute |
| RateLimit.RefusesOnlyWhenFull | src/openchronicle/interfaces/api/middleware/rate_limit.py:52-59 | a request is refused exactly when admitting it would exceed that |
| RateLimit.EveryVerdictIsExact | src/openchronicle/interfaces/api/middleware/rate_limit.py:38-63 | one request in any run, counted on the admissions themselves: unlimited exactly for a limit of nothing or less, admitted with the number left exactly when fewer than rpm of its client fall in the last sixty seconds, refused otherwise until the whole second in which the earliest is a minute old |
| RateLimit.RemainingIsExact | src/openchronicle/interfaces/api/middleware/rate_limit.py:61-63 | the number of requests left is what still fits into the minute that ends now |
| RateLimit.RetryAfterIsEnough | src/openchronicle/interfaces/api/middleware/rate_limit.py:52-59 | at or beyond Retry-After the client is admitted, if nothing of its own was admitted in between |
| RateLimit.RetryAfterIsNotLate | src/openchronicle/interfaces/api/middleware/rate_limit.py:52-59 | until a second before Retry-After every request of that client is refused |
| RateLimit.SinceTwice | src/openchronicle/interfaces/api/middleware/rate_limit.py:48-50 | pruning with an older cutoff first changes nothing for a newer one |
| Clustering.GroupByTime | src/openchronicle/core/application/services/git_onboard.py:78-86 | the first pass computes the time groups |
| Clustering.MergeByOverlap | src/openchronicle/core/application/services/git_onboard.py:88-96 | the second pass computes the merged groups |
| Clustering.MergeSmallest | src/openchronicle/core/application/services/git_onboard.py:110-116 | the cap loop terminates and computes the capped groups |
| Clustering.ClusterCommits | src/openchronicle/core/application/services/git_onboard.py:65-126 | the whole method computes the specified clusters |
| Clustering.CapStepShrinks | src/openchronicle/core/application/services/git_onboard.py:98-116 | a turn of the cap loop removes one group, and changes nothing exactly when one group is left: why the cap must be at least one |
| Clustering.Capped | src/openchronicle/core/application/services/git_onboard.py:110-116 | the loop ends with as many groups as the cap allows |
| Clustering.Smallest | src/openchronicle/core/application/services/git_onboard.py:113 | the first of the smallest groups |
| Clustering.SortIsStable | src/openchronicle/core/application/services/git_onboard.py:75-76 | sorting is by date, keeps the order of equal dates, and keeps every commit |
| Clustering.StableOrderIsUnique | src/openchronicle/core/application/services/git_onboard.py:75-76 | a date-ordered sequence is determined by its commits of each date |
| ClusteringLaws.ClustersKeepEverything | src/openchronicle/core/application/services/git_onboard.py:65-126 | for every window: no commit is lost or repeated, the clusters are apart by more than the window and read off in date order |
| ClusteringLaws.ClustersTile | src/openchronicle/core/application/services/git_onboard.py:65-126 | for a non-negative window the clusters end to end are the stably sorted input |
| ClusteringLaws.TilesExactlyForNonNegativeWindows | src/openchronicle/core/application/services/git_onboard.py:65-126 | and exactly the non-negative windows do so for all inputs |
| ClusteringLaws.NegativeWindowSwaps | src/openchronicle/core/application/services/git_onboard.py:111-121 | two commits of one date that a negative window separates and the cap swaps |
| ClusteringLaws.CloseCommitsShareACluster | src/openchronicle/core/application/services/git_onboard.py:78-86 | commits of different clusters are further apart than the window |
| ClusteringLaws.ClusterCount | src/openchronicle/core/application/services/git_onboard.py:110-116 | the number of clusters is the lesser of the merged groups and the cap of at least one |
| ClusteringLaws.SeparateGroupsOverlapLittle | src/openchronicle/core/application/services/git_onboard.py:88-96 | neighbours that stay separate share at most a fifth of their files with the group that opens the right one |
| ClusteringGroups.TimeGroupsAreTheGapCut | src/openchronicle/core/application/services/git_onboard.py:78-86 | the time groups are the one cut with gaps inside groups at most the window and gaps across cuts above it |
| ClusteringGroups.JoinedAreTheOverlapRuns | src/openchronicle/core/application/services/git_onboard.py:88-96 | the merged groups are the one way to join runs of time groups in which each shares more than a fifth of the files with what the run joined before, and the opener of the next run does not |
| ClusteringLaws.JoinsByAFifth | src/openchronicle/core/application/services/git_onboard.py:57-62 | the overlap is above the bound exactly when five times the shared files are more than the files in either |
| ClusteringGroups.CapStepMergesTheSmallest | src/openchronicle/core/application/services/git_onboard.py:110-116 | a turn of the cap loop moves the first of the smallest groups to the end of its left neighbour, or of the right one when it is the first, and changes no other |
| ClusteringWhole.ClustersAreTheStages | src/openchronicle/core/application/services/git_onboard.py:65-126 | the clusters are the one result of all the stages: stable sort by date, cut at exactly the gaps above the window, runs that overlap by more than a fifth, smallest merged while there are more than the cap, each cluster sorted |
| Base64.RoundTrip | scripts/probe_artifact.py:58 | decoding undoes encoding (section 4 of RFC 4648) |
| Base64.Injective | scripts/probe_artifact.py:58 | no two byte strings share an encoding |
| Base64.EncodeLength | scripts/probe_artifact.py:58 | four symbols for every three bytes begun |
| Base64.SymbolsAreTheTable | scripts/probe_artifact.py:58 | the symbols are those of table 1 of RFC 4648 |
| Base64.QuadIsTheNumber | scripts/probe_artifact.py:58 | four symbols are the digits to base 64 of the number whose digits to base 256 are the three bytes |
| Base64.NumberNumeral | scripts/probe_artifact.py:57 | a printed numeral reads back |
| ArtifactCodec.DecodeArtifact | scripts/probe_artifact.py:63-101 | the decode loop reaches the specified result on every log, and never looks up a chunk that is not there |
| ArtifactCodec.AllOrMissing | scripts/probe_artifact.py:95-97 | as many chunks as the header counts means every chunk is there |
| ArtifactLaws.ReadPrinted | scripts/probe_artifact.py:57-58 | a printed record reads back as itself |
| ArtifactLaws.StampIsStripped | scripts/probe_artifact.py:70 | a timestamp in front of any line is exactly what is stripped |
| ArtifactLaws.OnlyRecordsMatter | scripts/probe_artifact.py:69-74 | timestamps and lines without the marker change nothing |
| ArtifactLaws.DecodesExactlyThePermutations | scripts/probe_artifact.py:63-101 | a log whose records belong to one payload decodes to it exactly when its records are all of that payload's, each once, in any order; otherwise it is refused |
| ArtifactRecords.DecodesExactlyTheSlices | scripts/probe_artifact.py:63-101 | any log at all decodes to a payload if and only if it is within the bound, the payload is an acceptable report, every line is without the marker or a well-formed record of a slice of it under its size, count and digest, and each slice is there once |
| ArtifactRecords.ReadsExactly | scripts/probe_artifact.py:66-94 | the loop succeeds with exactly the header and chunks that the lines describe |
| ArtifactLaws.DecodeUndoesEncode | scripts/probe_artifact.py:52-101 | the printed records always fit the size bound of a log and decode to the payload |
| ArtifactLaws.MisplacedMarkerFails | scripts/probe_artifact.py:71-74 | one marker inside a line spoils the log |
| ArtifactLaws.DamageIsNeverAccepted | scripts/probe_artifact.py:98-100 | when the records of a log name the digest of what was sent, and no other bytes share that digest, the log yields what was sent or nothing |
| ArtifactLaws.DamageLawHasInstances | scripts/probe_artifact.py:52-101 | every payload of acceptable size has a hash and a log that meet those conditions and decode to it |
| Retention.RetentionPrune | src/openchronicle/core/infrastructure/maintenance/jobs.py:103-142 | the loops delete exactly the snapshots the rule does not keep |
| Retention.KeptBounds | src/openchronicle/core/infrastructure/maintenance/jobs.py:103-134 | at most twice `keep` are kept, the `keep` newest among them |
| Retention.NewestOfRecentDayIsKept | src/openchronicle/core/infrastructure/maintenance/jobs.py:128-134 | the newest snapshot of each of the `keep` latest days is kept |
| Retention.LaterDaysAreEarlier | src/openchronicle/core/infrastructure/maintenance/jobs.py:128-134 | before a day's newest snapshot come exactly the snapshots of later days |
| RetentionRule.PrunedExactly | src/openchronicle/core/infrastructure/maintenance/jobs.py:118-137 | in a listing of any order a snapshot is deleted if and only if at least `keep` are newer (or as old and listed before), and one of these is of its UTC day or at least `keep` later days have a snapshot |
| RetentionRule.PrunesEachOnce | src/openchronicle/core/infrastructure/maintenance/jobs.py:135-142 | only listed snapshots are deleted, none twice, newest first |
| Retention.PruneIsIdempotent | src/openchronicle/core/infrastructure/maintenance/jobs.py:103-142 | pruning again removes nothing, whatever the listing order, equal times included |
| BackupCatalog.ListedAlwaysVerifies | src/openchronicle/core/infrastructure/persistence/backup_catalog.py:126-228 | over every interleaving of creation, pruning, failure and crash, each listed artifact passes verification |
| BackupCatalog.PublishedIsListed | src/openchronicle/core/infrastructure/persistence/backup_catalog.py:191-219 | a published pair is always listed: no reader meets half a manifest |
| BackupCatalog.OnlyPruningUnlists | src/openchronicle/core/infrastructure/persistence/backup_catalog.py:177-187 | only pruning, or a creation that failed while publishing, takes an artifact off the list, and nothing rewrites one that stays |
| BackupCatalog.UnpublishedIsNeverPruned | src/openchronicle/core/infrastructure/maintenance/jobs.py:118-142 | a database without a manifest that no creator works on is never touched again |
| BackupCatalog.RetentionPrunesPublished | src/openchronicle/core/infrastructure/maintenance/jobs.py:118-142 | what retention deletes is published, and nothing of a snapshot it keeps is deleted |
| BackupCatalog.EvidenceIsKept | src/openchronicle/core/infrastructure/persistence/backup.py:96-107 | a copy that failed a check stays as it was |
| BackupCatalog.CreateOutcome | src/openchronicle/core/infrastructure/persistence/backup_catalog.py:140-187 | an undisturbed creation leaves a listed pair, or the copy under the name of the check it failed |
| BackupCatalog.FailedCreationOutcome | src/openchronicle/core/infrastructure/persistence/backup_catalog.py:150-187 | a creation in which one step raises leaves nothing, but for the copy in its place when its inspection raised, and a manifest without database when the step after publication did |
| BackupCatalog.PruneOutcome | src/openchronicle/core/infrastructure/maintenance/jobs.py:135-142 | a pruning removes every database that will go, then the manifests of those; what raises is skipped, and nothing else changes |
| BackupCatalog.CreateStepIsSafe | src/openchronicle/core/infrastructure/persistence/backup.py:63-116 | each step of a creation touches its own files only and keeps manifest and database consistent |
| BackupCatalog.PruneStepIsSafe | src/openchronicle/core/infrastructure/maintenance/jobs.py:135-142 | each step of pruning removes a database before its manifest |
| MaintenanceLoop.Loop.WakeUp | src/openchronicle/core/application/services/maintenance_loop.py:226-260 | one wake-up dispatches every due job that is not in flight and notes the others |
| MaintenanceLoop.Loop.NoteDueInFlight | src/openchronicle/core/application/services/maintenance_loop.py:257-286 | a queued job is left alone; a running one past its next start is counted once |
| MaintenanceLoop.Loop.TakeLock | src/openchronicle/core/application/services/maintenance_loop.py:301 | the job's lock is taken |
| MaintenanceLoop.Loop.BeginRun | src/openchronicle/core/application/services/maintenance_loop.py:301-306 | the global lock is taken and the job is running |
| MaintenanceLoop.Loop.RunWithoutHandler | src/openchronicle/core/application/services/maintenance_loop.py:316-329 | a job without a handler fails at once and its state is not saved |
| MaintenanceLoop.Loop.EndHandler | src/openchronicle/core/application/services/maintenance_loop.py:331-379 | what each way a handler can end does to counters, outcome and stamps |
| MaintenanceLoop.Loop.SaveState | src/openchronicle/core/application/services/maintenance_loop.py:442-473 | the state file is replaced or kept, and both locks are let go |
| MaintenanceLoop.Loop.LoadState | src/openchronicle/core/application/services/maintenance_loop.py:401-440 | a new process has the stamps that read, each block and entry on its own, none for the others or without a readable file, and nothing in flight |
| MaintenanceDispatch.WakeUpStartsExactlyTheDue | src/openchronicle/core/application/services/maintenance_loop.py:237-248 | a wake-up starts exactly one new task for each job that is known, enabled, idle and has no last run or one a whole interval old, and none else; it notes exactly the runs in flight that are a whole interval old and not yet noted, and changes nothing else |
| MaintenanceDispatch.DueJobsAreStarted | src/openchronicle/core/application/services/maintenance_loop.py:476-479 | in every history a wake-up starts a job if and only if it is known, enabled, holds no lock and its interval has passed since its last run |
| MaintenanceDispatch.AskedRunIsStarted | src/openchronicle/core/application/services/maintenance_loop.py:211-224 | a run asked for by hand is one new task, whatever interval, switch and lock |
| MaintenanceDispatch.RunBegins | src/openchronicle/core/application/services/maintenance_loop.py:293-306 | a run takes its job's lock, then the one lock of all handlers, and notes when it began |
| MaintenanceDispatch.RunLeaves | src/openchronicle/core/application/services/maintenance_loop.py:331-379 | the end of a handler and its save leave the counters, outcome and stamps of that ending, both locks free, every other job as it was, and the stamps of all jobs in the file |
| MaintenanceDispatch.RunWithoutHandlerLeaves | src/openchronicle/core/application/services/maintenance_loop.py:316-329 | a job without a handler is failed, holds nothing and saves nothing |
| MaintenanceDispatch.CancelledRunLeaves | src/openchronicle/core/application/services/maintenance_loop.py:293-310 | a run cancelled before its handler began gives back the lock it holds and leaves no other trace |
| MaintenanceDispatch.RestartFinds | src/openchronicle/core/application/services/maintenance_loop.py:383-440 | a new process has every job with its settings, the two stamps the file has for it, and counters at zero |
| MaintenanceLaws.OneAtATime | src/openchronicle/core/application/services/maintenance_loop.py:293-315 | in every state of every run at most one handler runs, and of one job at most one run has passed its lock |
| MaintenanceLaws.OverlapsAreReal | src/openchronicle/core/application/services/maintenance_loop.py:257-286 | an overlap is counted only by a wake-up, for a running job whose next start has passed, never for a queued one |
| MaintenanceLaws.OverlapsAtMostOncePerRun | src/openchronicle/core/application/services/maintenance_loop.py:277-280 | the overlaps of a job never exceed the runs it began |
| MaintenanceLaws.CountersCountTheRuns | src/openchronicle/core/application/services/maintenance_loop.py:316-364 | the counters of a job count the runs that ended since the process began, those that returned and those that raised |
| MaintenanceLaws.HealthTellsTheTruth | src/openchronicle/core/application/use_cases/diagnose_runtime.py:73-83 | for every history and every clock, failed saves, restarts and lost or malformed stamps included: exactly when the probe is right about the last recorded run, by which stamps read, how the run ended and whether the last success is stamped before it |
| MaintenanceLaws.LegibleHealthTellsTheTruth | src/openchronicle/core/application/use_cases/diagnose_runtime.py:73-83 | when every recorded stamp of the job reads, it is right unless the run failed and the last success is stamped at or after it |
| MaintenanceLaws.HealthUnderASteadyClock | src/openchronicle/core/application/use_cases/diagnose_runtime.py:73-83 | the same for a clock that never steps back: with both stamps it is right unless the run failed at the very reading of the last success |
| MaintenanceLaws.HealthIsExact | src/openchronicle/core/application/use_cases/diagnose_runtime.py:73-83 | with a clock that advances only lost stamps mislead it, and exactly which; when every recorded stamp reads it is true exactly when the last recorded run did not end well |
| MaintenanceLaws.StalledClockHidesAFailure | src/openchronicle/core/application/use_cases/diagnose_runtime.py:83 | a concrete run whose failure the probe does not tell |
| MaintenanceLaws.SteppedBackClockHidesAFailure | src/openchronicle/core/application/use_cases/diagnose_runtime.py:83 | another one, at a different reading of a clock that stepped back |
| MaintenanceLaws.LostSuccessRaisesAFalseAlarm | src/openchronicle/core/application/use_cases/diagnose_runtime.py:77-83 | a run that ended well, in a file without the block of successes, is told as a failure |
| MaintenanceLaws.LostRunHidesAFailure | src/openchronicle/core/application/use_cases/diagnose_runtime.py:77-82 | a failed run whose stamp is lost does not show |
| MaintenanceLaws.MalformedBlockHidesAFailure | src/openchronicle/core/application/use_cases/diagnose_runtime.py:76-80 | a block of successes that is no object hides a failure whose stamp the loader still reads |
| MaintenanceLaws.SavingRecordsTheRun | src/openchronicle/core/application/services/maintenance_loop.py:442-473 | a successful save records every run the process knows of, for each job with the stamps the process has |
| MaintenanceLaws.NextRunHealsTheStamps | src/openchronicle/core/application/services/maintenance_loop.py:331-473 | lost stamps heal: the job's next saved run has its stamp, and after one that returned both read and the probe is right |
| MaintenanceLaws.MissingHandlerIsNotRecorded | src/openchronicle/core/application/services/maintenance_loop.py:316-329 | a job without a handler fails in memory while the state file keeps its old tale |
| MaintenanceLaws.RestartKeepsTheSchedule | src/openchronicle/core/application/services/maintenance_loop.py:401-440 | a restart with every run saved changes when a job is due only for a lost run stamp, which makes it due at once, whatever becomes of its success stamp |
| Envelope.ValidateEnvelope | src/openchronicle/core/application/use_cases/import_memory.py:84-165 | the validation loops refuse with the first error, or accept |
| Envelope.ValidationIsExact | src/openchronicle/core/application/use_cases/import_memory.py:84-165 | an envelope is accepted exactly when its rows are well formed, its ids distinct and its references known |
| EnvelopeRows.AcceptsExactly | src/openchronicle/core/application/use_cases/import_memory.py:84-165 | field by field what an import accepts: the mode, an empty store to replace, version 1, both arrays, rows with the fields and types required, distinct ids, and projects of the store or the envelope |
| EnvelopeRows.RefusalNamesTheFirst | src/openchronicle/core/application/use_cases/import_memory.py:120-163 | a refusal that names a row names the first that is bad or repeats an id, memories only after every project |
| EnvelopeRows.RefusalsInOrder | src/openchronicle/core/application/use_cases/import_memory.py:269-303 | the other refusals and the order they are tried in |
| Envelope.Store.AddProject | src/openchronicle/core/infrastructure/persistence/sqlite_store.py:343-354 | an insertion is refused for a taken id |
| Envelope.Store.AddMemory | src/openchronicle/core/infrastructure/persistence/sqlite_store.py:421-459 | an insertion is refused for a taken id or a missing project |
| Envelope.Store.ImportProjects | src/openchronicle/core/application/use_cases/import_memory.py:313-325 | no project insertion of a validated envelope can fail, and the loop computes the union and its counts |
| Envelope.Store.ImportMemories | src/openchronicle/core/application/use_cases/import_memory.py:327-362 | no memory insertion of a validated envelope can fail, and the loop computes the union and its counts |
| Envelope.Store.Import | src/openchronicle/core/application/use_cases/import_memory.py:246-390 | a refused envelope changes nothing and says why; an accepted one is merged to the last row |
| EnvelopeLaws.ImportIsUnionById | src/openchronicle/core/application/use_cases/import_memory.py:305-362 | the result is the union by id with the destination's rows unchanged, watermarks left out and every reference intact |
| EnvelopeLaws.CountsAccountForEveryRow | src/openchronicle/core/application/use_cases/import_memory.py:364-371 | every row is added, skipped or dropped, and the store grows by the rows added |
| EnvelopeRows.StoresTheRows | src/openchronicle/core/application/use_cases/import_memory.py:313-362 | an accepted import stores every new row field by field, with empty metadata and tags, "import" and false for what is missing or empty |
| EnvelopeRows.CountsAreExact | src/openchronicle/core/application/use_cases/import_memory.py:313-371 | each count is the number of new, known, watermark and over-long rows it is named for |
| EnvelopeLaws.ReimportAddsNothing | src/openchronicle/core/application/use_cases/import_memory.py:305-362 | importing the envelope again is accepted and changes nothing |
| EnvelopeLaws.ExportIsAcceptedWhenNamed | src/openchronicle/core/application/use_cases/export_memory.py:41-94 | an export, whole or of one project, is accepted by an empty store exactly when ids and project names are not empty |
| EnvelopeRows.ExportListsExactly | src/openchronicle/core/application/use_cases/export_memory.py:41-94 | an export lists every project and every memory but the watermarks, or that project and its memories but the watermarks |
| EnvelopeLaws.ImportUndoesExport | src/openchronicle/core/application/use_cases/export_memory.py:41-94 | an empty store that imports the export holds every project and memory but watermarks, with empty sources read as "import" |
| EnvelopeLaws.RestoredIsExact | src/openchronicle/core/application/use_cases/import_memory.py:357 | so the round trip is exact for exactly the stores without an empty source |

## Left out

- Offline restore: checks of paths and file systems, symlinks, disk space, the user and sidecars beside the staged file, dry runs, the mismatch of database path and operation id, and the `stage` command; they refuse or copy and drive none of the recorded phases.
- Offline restore: what happens inside SQLite (a crash within the probe's own transaction, consolidation, inspection), which is an arbitrary function here; power loss that reorders renames; the temporary file behind `state.json`, whose replacement is one step.
- Offline restore: writers beside a running command; the helper runs with the service stopped, so its own re-reads of what it copied cannot differ.
- SHA-256 is injective (restore, embedding) or an arbitrary function (artifacts); JSON text is a value, or a predicate on bytes.
- RestorePair.BothStaySafe: commands take turns; two at once, a third operation and staging another file after retirement are not part of this model.
- RestorePair.OkDescribesTheLastSwap: once the service has written, no record describes the live file; only the probe can tell.
- Embedding: similarity scores, metrics, failure counters and their clocks, HTTP, the background task objects; the provider is an arbitrary function per call.
- Embedding: order and content of list queries beyond what the candidate scan needs, and monotone revisions of stored rows, which the code does not promise.
- Search: full-text ranking is an arbitrary sequence without repeated ids whose LIMIT is its prefix; scores are exact rationals where the code has floating point; negative `top_k` and `offset`, which the surfaces clamp.
- HybridSearch.FusionHidesOnlyPins: the store is read once; a memory edited between the window and fusion's lookups is filtered again there.
- HybridPages.HybridPagesTile: pages of different budgets cut different windows, so across requests hybrid pages need not tile, and the order of equal scores is not promised by the code.
- RateLimit.Limiter.Dispatch: one request at a time under the lock with a non-decreasing clock; the HTTP response itself is not part of this model, and clock readings are exact reals.
- Clustering.ClusterCommits: cluster labels, day spans and the commit filter's patterns, which compute on text alone; hours are exact rationals.
- ArtifactCodec.DecodeArtifact: splitting the log into lines, its UTF-8 length (a parameter here), and digits outside ASCII that the regular expressions of the source would match.
- Base64.RoundTrip: decoding accepts whole groups of four symbols with padding at the end, as section 4 of RFC 4648 has it; ignored trailing bits are accepted as in the source.
- BackupCatalog.CreateStepIsSafe: creation and pruning are steps on a map rather than methods over a file system, because their interleaving is the point; aliasing of paths and links is not captured.
- BackupCatalog.ListedAlwaysVerifies: snapshot ids never repeat, the operation lock, free-space and root checks, restore staging and its comparison with the live store.
- Retention.RetentionPrune: file times as whole nanoseconds of UTC; the cloud push and its selection, which only reads.
- MaintenanceLaws.HealthTellsTheTruth: entries of the state file get lost or malformed, never forged: a hand-written stamp that reads is not part of this model.
- MaintenanceLoop.Loop.WakeUp: the handlers, log lines, metrics, cancellation during a save, and the tick's own timing; a task list that is cancelled whole at shutdown is a restart.
- Envelope.Store.Import: warnings about merge hazards, extra keys, nested transactions, and text of error messages beyond collection and index.
- Interfaces, command line, benchmark harnesses, configuration parsing and git subprocesses: plumbing without state of their own.
