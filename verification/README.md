# Dreamy, modelled and proved

Dreamy reads session transcripts and router logs, correlates them, keeps a ledger
of findings, compiles artifacts, caps what its agents spend, and exports and
imports bundles.  This project models the state and arithmetic behind those steps
in Dafny and proves what each of them guarantees over all inputs, runs and failure
points.  `dafny verify dfyconfig.toml` checks everything.

Where the code and its comments disagree the model follows the code: a theorem
gives the exact condition under which the promise holds and a lemma shows a case in
which it does not.

| area | modules |
|---|---|
| findings ledger, dismissal, metrics | FindingLedger, FindingHistory, FindingWrites, FindingStore, FindingDismissal, Percentiles |
| correlation and persistence | Records, SessionGroups, GroupingLaws, RouterMatch, Correlate, Persist, RequestLinks, Batches, StableIds |
| run lock and recovery | RunLock |
| spend | SpendCap, SpendWindow, SpendCeiling |
| artifact stamps and reconciliation | Stamp, Artifacts |
| scanning, ingest and its durability | ConnectorScan, TwoRuns, Durability, SafeLines |
| bundles | JsonText, JsonValue, BundleDocument, BundleImport, BundleExport, BundleArchive |
| path decoding | PathDecode |
| schema walker | SchemaWalker |
| migration ladder | MigrationLadder, Migration |
| shared | Wrappers, Text, Sequences |

How the outside world appears: time is `int`, money is `real`, hashes are arbitrary
functions (collision free only where a lemma says so), failures of files, statements
and commits are nondeterministic choices (`:= *`), a file system is an arbitrary
predicate on paths, and concurrency is an interleaving of protocol steps.

Divergences between code and comments that a lemma settles:

- Ties between session starts make the session id depend on record order: `GroupingLaws.NativeIdOrderFreeIff`.
- A batch without the header of a file splits sessions, and for Codex drops turns: `Batches.SplitProofIff`, `ConnectorScan.ResumedScanIff`, `TwoRuns.TwoRunsByLinesIff`.
- Messages whose group names no project in their batch are dropped for good once the watermark has passed: `Durability.SurvivesEveryScheduleIff`, `Durability.StoredByItsRunIff`, `SafeLines.CodexNeverSafe`.
- The watermark is durable before the turns are: `Durability.CrashBetweenCommitsLoses`.
- Unlinking the lock file after unlocking admits a second holder: `RunLock.UnsafeUnlinkBreaksExclusion`, `RunLock.OverlapReachesTwoHolders`.
- Changed evidence in the first run after a dismissal is `persisting`: `FindingDismissal.ChangeRightAfterDismissalPersists`.
- The listing and the agent path bypass the ledger's rules: `FindingDismissal.ListingMatchesDiffIff`, `FindingDismissal.AgentPathSkipsRule`.
- A run killed before settling is free for the cumulative ceiling: `SpendCeiling.CeilingHoldsIff`, `SpendCeiling.CrashBeforeSettleBreaksCeiling`.
- The stamp is the first match in the content, not the footer's: `Stamp.QuotedStampHidesFooter`.
- Turn ids join two parts that may hold a bar: `StableIds.TurnIdsIdentify`, `StableIds.TurnIdsCollide`.
- The schema walker reads `integer` and `enum` differently from the standard: `SchemaWalker.ReadingsIff`.
- An interrupted bootstrap script or a dropped first-version table is never repaired: `Migration.MigratesFullyIff`, `Migration.InterruptedBootstrapIff`, `MigrationLadder.DroppedCoreTableIsNotRepaired`.

## Model

| member | source | states |
|---|---|---|
| FindingLedger.PredecessorUnique | src/dreamy/read.py:639-647 | with distinct start times a project has at most one predecessor run |
| FindingHistory.PhaseIsFold | src/dreamy/read.py:580-600 | looking the predecessor and the look-back up by query gives the phase that a forward pass over all earlier runs remembers |
| FindingHistory.TimelineIsReplay | src/dreamy/read.py:840-846 | replaying the query-shaped classifier run by run is running a four-phase automaton (never seen, live, settled, absent) |
| FindingHistory.TimelineGrammar | src/dreamy/read.py:602-709 | over every run history: only the first event can be `new`, a regression directly follows a resolution or a dismissal, events are in run order |
| FindingHistory.NewAtMostOnce | src/dreamy/read.py:692-697 | `new` can only be the first event of a timeline |
| FindingHistory.NoVerdictUnlessAnalysed | src/dreamy/read.py:618-626 | a verdict needs a run that analysed the project; a verdict without a sighting is `resolved` |
| FindingHistory.BacklogOfFinding | src/dreamy/read.py:876-948 | new + regressed - resolved, plus dismissed-then-absent transitions, plus a first sighting that was already dismissed, equals whether the finding is open |
| FindingHistory.ArtefactsNeedDismissals | src/dreamy/read.py:690-708 | both corrections are zero without dismissals and the second happens at most once per finding |
| FindingHistory.HistoryStable | src/dreamy/read.py:602-709 | appending later runs never changes the verdict an earlier run gave |
| FindingHistory.TimelineStable | src/dreamy/read.py:840-846 | appending later runs never changes the earlier part of a timeline |
| FindingStore.BacklogOfBucket | src/dreamy/read.py:924-951 | the backlog identity summed over any category or severity bucket |
| FindingStore.BacklogWithoutDismissals | src/dreamy/read.py:940-948 | without dismissals backlog_delta equals open_count in every bucket |
| FindingStore.RegressionRateBounded | src/dreamy/read.py:882-896 | regressions counted after a resolution never outnumber resolutions, so the rate is at most one |
| FindingStore.Store.ObservedBefore | src/dreamy/read.py:580-600 | true exactly when an earlier run analysing the project has a row for the finding |
| FindingStore.Store.PredecessorQuery | src/dreamy/read.py:641-647 | the latest earlier run that analysed the project, or none |
| FindingStore.Store.ClassifyReported | src/dreamy/read.py:664-697 | the branch structure for a reported finding yields the verdict of the specification |
| FindingStore.Store.DeltaStates | src/dreamy/read.py:602-709 | the filled dictionary is the complete verdict table of the queried, or else the latest analysing, run |
| FindingStore.Store.Timelines | src/dreamy/read.py:840-846 | the accumulated event lists are the specification timelines of all findings |
| FindingStore.OpenFindingsHaveAges | src/dreamy/read.py:876-910 | a bucket has as many ages as open findings and at most as many times to resolution as resolutions |
| FindingStore.FindingMetrics | src/dreamy/read.py:805-951 | every bucket holds the sums over its findings of counts, ages and times to a first resolution, and satisfies the exact backlog identity |
| FindingStore.Finalize | src/dreamy/read.py:924-951 | the report of a bucket: median time to resolution, regression rate, backlog, open count, and the age percentiles, absent exactly when there is nothing to report on |
| Percentiles.PercentileBetweenNeighbours | src/dreamy/read.py:912-922 | a percentile lies between two neighbouring values |
| Percentiles.FiftiethIsMedian | src/dreamy/read.py:912-922 | the fiftieth percentile is the median |
| FindingStore.Store.ObserveFinding | src/dreamy/run.py:195-222 | the observation rule for live, still-dismissed and materially changed findings, as a function of the old tables |
| FindingStore.Store.PersistFinding | src/dreamy/run.py:153-192 | upsert of the reported row followed by the observation rule |
| FindingStore.Store.InsertFindingWithProvenance | src/dreamy/store.py:1225-1311 | the agent path writes a live sighting without consulting the dismissal |
| FindingStore.Store.Dismiss | src/dreamy/read.py:1077-1110 | a known reason pins the digest of the current evidence; anything else changes nothing |
| FindingStore.Store.Undismiss | src/dreamy/read.py:1112-1121 | clears reason, digest and resolution time, and only of that finding |
| FindingStore.Store.StartRun | src/dreamy/store.py:957-966 | the first start of a run id stands |
| FindingStore.Store.RecordAnalyzedProject | src/dreamy/store.py:1182-1193 | adds the pair and touches nothing else |
| FindingDismissal.StillDismissedIff | src/dreamy/run.py:153-222 | one write of any kind keeps reason, digest and resolution and adds no live sighting if and only if its guard leaves the finding alone: no run, pinned or unset digest, sighting live already, or an identical re-dismissal |
| FindingDismissal.DismissalSticks | src/dreamy/run.py:195-222 | across any list of writes that each leave the finding alone at their turn the reason, the digest and the resolution stay and no live sighting appears |
| FindingDismissal.FirstBreak | src/dreamy/run.py:195-222 | and no longer: otherwise there is a first write, before which the dismissal holds and which breaks it |
| FindingDismissal.LaterRunsSettle | src/dreamy/read.py:690-708 | after such writes a run that had not recorded the finding live can only call it resolved or dismissed |
| FindingDismissal.DismissPins | src/dreamy/read.py:1077-1110 | after a dismissal a run's report leaves it alone if and only if its evidence has the judged digest |
| FindingDismissal.ChangedEvidenceLifts | src/dreamy/run.py:195-222 | a changed digest lifts the dismissal; the verdict is `regressed` if and only if the finding was seen before and no predecessor recorded it live |
| FindingDismissal.ChangeRightAfterDismissalPersists | src/dreamy/run.py:195-222 | against the documented outcome: in the first run after a dismissal changed evidence is `persisting` |
| FindingDismissal.ListingMatchesDiffIff | src/dreamy/read.py:741-746 | for every finding: the listing shows the diff's verdict if and only if the run analysed the project and either the finding is dismissed and was recorded settled after an earlier sighting, or it is not and this run or its predecessor recorded it |
| FindingDismissal.ShownNewIff | src/dreamy/read.py:741-746 | an open finding is listed as new if and only if the diff says so or the listing condition fails, as for every project the run did not analyse |
| FindingDismissal.AgentPathSkipsRule | src/dreamy/store.py:1302-1311 | the agent path leaves listing and diff disagreeing about a dismissed finding, and breaks the dismissal unless the sighting was live already |
| SessionGroups.SessionGroup.AbsorbRecord | src/dreamy/correlate.py:125-148 | one record folded into the accumulator, including the session-start choice of lines 541-549 |
| SessionGroups.GroupSummarises | src/dreamy/correlate.py:125-148 | the fold computes minimum and maximum time, counts, ids and fingerprints of its members, in order-free terms |
| SessionGroups.MembersMultiset | src/dreamy/correlate.py:519-551 | grouping neither loses nor invents records |
| GroupingLaws.GroupsOrderFree | src/dreamy/correlate.py:497-551 | permuting the records changes no group key, span, turn count, member id or fingerprint |
| GroupingLaws.NativeIdChoice | src/dreamy/correlate.py:541-549 | the group is named by the first of the earliest session starts, or by its key when nothing names it |
| GroupingLaws.NativeIdOrderFreeIff | src/dreamy/correlate.py:541-549 | the session id is independent of record order if and only if all earliest session starts carry one id |
| GroupingLaws.DistinctStartTimesSuffice | src/dreamy/correlate.py:541-549 | distinct session-start times within the group are enough |
| GroupingLaws.TurnsConserved | src/dreamy/correlate.py:519-551 | turn counts summed over groups are exactly the non-router message records |
| RouterMatch.WidenedRangeCovers | src/dreamy/correlate.py:365-423 | a span within the window has its floored midpoint inside the range widened by max_half |
| RouterMatch.FlooredHalfMisses | src/dreamy/correlate.py:307-329 | with the half span rounded down instead of up an in-window request would be missed |
| RouterMatch.BuildIndexes | src/dreamy/correlate.py:237-329 | each index bucket holds exactly the groups it is for, sorted by midpoint, with a maximal half span |
| RouterMatch.BisectLeft | src/dreamy/correlate.py:365-423 | first position whose midpoint is not below the bound |
| RouterMatch.WindowCandidates | src/dreamy/correlate.py:365-423 | the prefilter plus the exact test returns exactly the in-window groups of the bucket |
| RouterMatch.UnambiguousProject | src/dreamy/correlate.py:349-363 | a project exactly when all candidates with a project share it |
| RouterMatch.MatchRouter | src/dreamy/correlate.py:425-494 | the indexed matcher returns what a linear scan of all groups testing interval distance returns: same tier, same session or project |
| Correlate.GroupRecords | src/dreamy/correlate.py:519-551 | the dictionary of accumulators after the loop is the group of every key |
| Correlate.MatchAll | src/dreamy/correlate.py:568-573 | every router request gets the linear-scan answer or counts as unmatched |
| Correlate.LinksConserveRequests | src/dreamy/correlate.py:568-573 | links plus unmatched equal the router requests |
| Correlate.CorrelateRecords | src/dreamy/correlate.py:497-581 | buckets in key order, links in sorted request order, conservation of requests |
| Correlate.SortRoutersPermutes | src/dreamy/correlate.py:568-568 | sorting the requests keeps them all |
| Correlate.SortRoutersOrders | src/dreamy/correlate.py:568-568 | no request precedes, by time, native id and file, one listed before it |
| Correlate.SortRoutersIsStable | src/dreamy/correlate.py:568-568 | requests that tie keep their order |
| Persist.Store.UpsertSession | src/dreamy/store.py:794-816 | insert, or refresh only end time and record count |
| Persist.Store.InsertTurn | src/dreamy/store.py:818-856 | insert or ignore on the content-derived id |
| Persist.Store.SpanOfPath | src/dreamy/correlate.py:616-623 | exact minimum start and maximum end over the sessions of one project path |
| Persist.Store.PersistSessions | src/dreamy/correlate.py:626-651 | one id per group with a project; the new ids are exactly those of the mapping |
| Persist.Store.PersistTurns | src/dreamy/correlate.py:653-682 | new turn ids are exactly those of the mapped message records; existing rows untouched; the count is the growth |
| Persist.Store.PersistProjects | src/dreamy/correlate.py:610-624 | the store gains exactly the ids of the paths the sessions name |
| Persist.Store.PersistCorrelated | src/dreamy/correlate.py:593-706 | the store gains exactly the batch's project, session and turn ids and keeps referential integrity |
| Persist.Store.PersistTwice | src/dreamy/correlate.py:593-706 | after a second persist of the same records all three tables hold the keys one persist leaves, and it counts no turn |
| RequestLinks.NameReadsBack | src/dreamy/correlate.py:684-690 | cutting a link's session name at its first colon gives source and native id back |
| RequestLinks.StoredNames | src/dreamy/correlate.py:626-650 | the ids of the stored sessions by source and native id |
| RequestLinks.LinkResolves | src/dreamy/correlate.py:684-690 | a link resolves to its group's session if and only if a session of that name is stored |
| RequestLinks.RequestGetsItsMatch | src/dreamy/correlate.py:684-703 | the router row of a request with an id of its own carries the session of its linear-scan match when that is stored, and otherwise keeps what it had |
| RequestLinks.OtherSourcesStayUnlinked | src/dreamy/correlate.py:690-698 | a request stored under another source than the router is never linked |
| RequestLinks.LinkingTwice | src/dreamy/store.py:906-927 | writing the same links again changes nothing |
| RequestLinks.RequestTable.PersistLinks | src/dreamy/correlate.py:684-703 | the rows after the loop, and that written plus skipped are all links |
| Batches.SplitProofIff | src/dreamy/correlate.py:185-219 | a group keeps its attribution under every splitting into consecutive batches if and only if its records agree, each alone, on where they are stored |
| Batches.AgreementIff | src/dreamy/correlate.py:541-549 | that agreement in terms of projects and session-start ids, so that a caller can check it |
| Batches.RenamedGroupSplits | src/dreamy/correlate.py:541-549 | a session start with another id plus a record that names nothing has a splitting that changes ids |
| Batches.BatchInvariance | src/dreamy/store.py:794-856 | with agreeing groups the session and turn ids are the same however the stream is batched |
| Batches.PersistBatches | src/dreamy/correlate.py:593-706 | the store after consecutive persists, and its equality with one persist for agreeing groups |
| StableIds.InjectiveIff | src/dreamy/store.py:1377-1379 | joining parts with a bar is injective if and only if at most one part may hold a bar, for every arity |
| StableIds.SessionIdsIdentify | src/dreamy/store.py:807-807 | the session ids of the tables identify source and native id |
| StableIds.ProjectIdsIdentify | src/dreamy/store.py:785-785 | the project ids of the tables identify paths |
| StableIds.TurnIdsIdentify | src/dreamy/store.py:848-848 | turn ids identify session, time, role, tool and fingerprint as long as no session id, role or tool name holds a bar |
| StableIds.TurnIdsCollide | src/dreamy/store.py:848-848 | a bar in the tool name breaks it: two records of one session between which a bar moves to the fingerprint share a turn row |
| RunLock.OneHolderPerInode | src/dreamy/store.py:1422-1433 | in every interleaving of any number of processes, two holders of one inode are one process |
| RunLock.SafeUnlinksExclude | src/dreamy/store.py:1435-1443 | if no unlink removes the path while another descriptor contends, at most one process holds the lock |
| RunLock.UnsafeUnlinkBreaksExclusion | src/dreamy/store.py:1435-1443 | conversely, every such unlink can be continued to a state with two holders |
| RunLock.NeverUnlinkedIsSafe | src/dreamy/store.py:1435-1443 | never unlinking satisfies the condition |
| RunLock.AtomicVariantExcludes | src/dreamy/store.py:1422-1443 | acquire and release each atomic: at most one holder |
| RunLock.OverlapReachesTwoHolders | src/dreamy/store.py:1435-1443 | the steps as written reach two holders, and the second one's recovery interrupts a run that is executing |
| RunLock.RecoveryClosesOnlyDeadRuns | src/dreamy/store.py:929-955 | under the safe condition every row a recovering process closes belongs to a run that is not executing |
| RunLock.LiveRunsKeepTheirRow | src/dreamy/run.py:476-513 | under the safe condition a run that is executing keeps its row marked running |
| RunLock.Lock.Acquire | src/dreamy/store.py:1422-1433 | open then try-lock; success exactly when the inode the path names is free |
| RunLock.Lock.Release | src/dreamy/store.py:1435-1443 | unlock, close, unlink, in that order; nothing without a descriptor |
| SpendCap.MaxPositive | src/dreamy/agent_sdk.py:95-112 | the largest positive recorded cost, or none when all are zero |
| SpendCap.AtMostOneOvershoot | src/dreamy/agent_sdk.py:180-239 | whatever calls cost, the recorded total exceeds the cap by at most the last call, which is strictly costlier than all earlier ones |
| SpendCap.NothingAfterTheCap | src/dreamy/agent_sdk.py:213-227 | once the cap is reached no later call leaves a row |
| SpendCap.HonouredBudgetsHoldTheCap | src/dreamy/agent_sdk.py:303-312 | if answered calls stay within their clamped budgets the run total never exceeds the cap |
| SpendCap.OvershootMarkedIff | src/dreamy/agent_sdk.py:427-488 | a call is reported as an overshoot exactly when it is valid, recorded and took the total past the cap and its tolerance |
| SpendCap.LoopGateMirrorsCallGate | src/dreamy/run.py:954-986 | the agent loop skips exactly the calls the wrapper would refuse on the cap |
| SpendCap.UnrecordedCostsNeverBind | src/dreamy/agent_sdk.py:427-441 | costs whose ledger write fails are invisible to the gate: any number pass |
| SpendCap.PaidWithinCap | src/dreamy/agent_sdk.py:180-239 | money paid, recorded or not, stays within the cap when budgets are honoured and no call with an unrecorded cost is followed by another paid call |
| SpendCap.HiddenCostsPileUp | src/dreamy/agent_sdk.py:427-441 | without that, any number of honoured calls can each cost the whole cap |
| SpendCap.OtherRunsUntouched | src/dreamy/agent_sdk.py:70-77 | a call never changes the books of another run |
| SpendCap.CallLedger.CallModel | src/dreamy/agent_sdk.py:180-488 | one call of the wrapper: gate, infrastructure checks in order, attempt, audit |
| SpendCap.CallLedger.RunAgents | src/dreamy/run.py:954-999 | the loop keeps the one-overshoot invariant and equals the sequence of wrapper calls |
| SpendWindow.WindowBound | src/dreamy/run.py:558-608 | runs that do not overlap and honour budgets: spend of runs started in the trailing day or month exceeds its cap by at most what unsettled runs of that window spent, at any instant outside a start-to-decision gap |
| SpendWindow.WindowCeiling | src/dreamy/run.py:558-608 | when every run settles, the cap itself is never exceeded at such an instant |
| SpendWindow.CeilingAtDecision | src/dreamy/run.py:584-608 | in particular at every decision instant, the admitted run included |
| SpendCeiling.CeilingHoldsIff | src/dreamy/run.py:558-608 | for every ordered schedule of runs, daily or monthly: the ceiling holds whatever the runs pay within their budgets if and only if the per-run cap exceeds it, or that many per-run caps fit, or the last decision sees every earlier run of the window (settled, and not yet out of its own window) |
| SpendCeiling.Overrun | src/dreamy/run.py:584-608 | otherwise some runs of that schedule, all admitted, pay one per-run cap more than fits |
| SpendCeiling.LaterRunsDoNotCount | src/dreamy/run.py:584-608 | runs that start after an instant do not change what is spent by then |
| SpendCeiling.CrashBeforeSettleBreaksCeiling | src/dreamy/run.py:1049-1073 | an instance: a run that dies between paying and settling lets the next one double the ceiling |
| SpendCeiling.GapExceedsCeiling | src/dreamy/run.py:584-608 | an instance: inside a start-to-decision gap the trailing window can hold two admitted runs |
| SpendWindow.SpendLedger.RecordRunSpend | src/dreamy/store.py:1104-1133 | insert, or overwrite the row of the same run and no other |
| SpendWindow.SpendLedger.Admit | src/dreamy/run.py:584-608 | a skip reason exactly when one configured cap would be breached by the whole per-run cap |
| SpendWindow.SpendLedger.RunMany | src/dreamy/run.py:1049-1073 | runs one after another leave the ledger the ceiling theorem speaks of |
| Stamp.StampReadsBackIff | src/dreamy/prompt_compiler.py:525-545 | the stamp reads back if and only if the text before it has no match of its own or its first match has the same digits |
| Stamp.EarlierMatchWins | src/dreamy/run.py:380-381 | the search returns the first match in the whole content |
| Stamp.QuotedStampHidesFooter | src/dreamy/run.py:380-381 | a body that quotes another stamp hides the footer's |
| Stamp.PlaceholderHasNoStamp | src/dreamy/run.py:286-304 | a placeholder carries no stamp, whatever the file is called |
| Artifacts.JudgingIsIdempotent | src/dreamy/run.py:379-406 | judging rows again later changes nothing |
| Artifacts.PlaceholderIsStale | src/dreamy/run.py:286-304 | a row whose content is a placeholder is never taken as current |
| Artifacts.EmittedRowIsFreshIff | src/dreamy/run.py:380-395 | an emitted row is kept if and only if no earlier different stamp hides the footer's |
| Artifacts.ArtifactStore.FailClosed | src/dreamy/run.py:357-369 | success leaves the file absent or a placeholder; failure leaves it as it was; other files untouched |
| Artifacts.ArtifactStore.MainPass | src/dreamy/run.py:373-407 | success judges every row, clears every stale file and commits; failure commits nothing |
| Artifacts.ArtifactStore.ArchiveAll | src/dreamy/run.py:424-434 | success archives every row and clears every file |
| Artifacts.ArtifactStore.Reconcile | src/dreamy/run.py:307-448 | under any failures the pass either raises or leaves unarchived rows with today's stamp and archived rows' files absent or placeholders; it only ever removes files or writes placeholders |
| Artifacts.ArtifactStore.Emit | src/dreamy/agents/compiler.py:58-93 | file first, row second; a failure leaves at most a torn file and an unchanged or upserted row |
| Artifacts.ArtifactStore.Mirror | src/dreamy/run.py:1095-1133 | afterwards every unarchived row's file equals its content and no other file changed |
| Artifacts.ArtifactStore.RunArtifacts | src/dreamy/run.py:1049-1133 | the whole sequence: rows, files and committed rows agree at the end, or the run raises |
| Artifacts.UpsertRows | src/dreamy/agents/compiler.py:67-92 | an upsert touches one target and keeps its archive state |
| Durability.NeverLowers | src/dreamy/ingest.py:141-176 | the watermark never decreases and nothing stored leaves, over every sequence of arrivals, runs and crashes |
| Durability.NoRecordLost | src/dreamy/ingest.py:98-176 | with punctual arrivals and timely windows everything sure at or below the watermark is stored: router requests under crashes anywhere; messages when none falls between the commits and every batch that may read them names a project for their group |
| Durability.KeptIff | src/dreamy/correlate.py:626-662 | a scanned message is persisted if and only if some line of its group, read in the same run, names a project |
| Durability.SurvivesEveryScheduleIff | src/dreamy/correlate.py:626-662 | over rising lines, a message survives every schedule of punctual arrivals and complete, timely runs if and only if every batch that may read it places its group |
| Durability.StoredByItsRunIff | src/dreamy/run.py:524-543 | in a given history of complete, timely, scheduled runs a message is stored if and only if the one run that passed it also read a line placing its group |
| Durability.RisingRunsArePunctual | src/dreamy/ingest.py:148-176 | strictly rising times make every arrival punctual as long as other files of the source are not read further |
| Durability.ScheduledReachIff | src/dreamy/ingest.py:98-148 | without new lines scheduled runs can still bring a line in if and only if it is stored or some window above the watermark stores it |
| Durability.LostForScheduledRuns | src/dreamy/ingest.py:98-148 | what is at or below the watermark stays stored or stays lost through any scheduled runs |
| Durability.CrashBetweenCommitsLoses | src/dreamy/ingest.py:249-249 | exactly which messages a crash between the two commits loses, and that no request read is among them |
| Durability.ErrorInPersistLoses | src/dreamy/run.py:1157-1175 | an error during the persist step, after which the run still commits, loses exactly the messages whose turn was not yet written |
| Durability.ErrorInIngestLosesNothing | src/dreamy/run.py:1157-1175 | an error during the scan keeps the rows written so far and the watermark |
| Durability.LateWindowLoses | src/dreamy/connectors/codex.py:87-89 | a window that starts too late loses a line as soon as a newer one is read |
| Durability.BackfillRecovers | src/dreamy/ingest.py:98-148 | an explicit window recovers a lost line if and only if it starts at or before it and before the watermark and, for a message, reaches a line that places its group |
| Durability.CompleteRunCatchesUp | src/dreamy/run.py:524-543 | a complete timely run stores every new request and exactly the new messages whose group its batch places |
| Durability.SourceStore.Ingest | src/dreamy/ingest.py:141-176 | the scan loop, with the facts the connector carries, computes the new watermark and stores router rows; stopped by an error it leaves the watermark |
| Durability.SourceStore.PersistTurns | src/dreamy/correlate.py:626-682 | the persist step stores exactly the scanned messages whose group names a project, up to an error |
| Durability.SourceStore.RunOnce | src/dreamy/run.py:524-543 | the two commits, the crash points and the commit that follows an error, as one step of the history |
| SafeLines.CodexNeverSafe | src/dreamy/connectors/codex.py:74-140 | no Codex message survives every schedule |
| SafeLines.OwnFactsSafeIff | src/dreamy/connectors/claude.py:44-110 | a Claude line or database row survives every schedule if and only if it names a project itself |
| SafeLines.OmpSafeIff | src/dreamy/connectors/omp_pi.py:75-134 | an OMP or Pi message does if and only if its directory name decodes to something, and to something usable unless the last header before it (if any) names a usable directory |
| ConnectorScan.ScanFile | src/dreamy/connectors/codex.py:74-140 | the line loop with its carried directory and model is the fold |
| ConnectorScan.ResumedScanIff | src/dreamy/connectors/omp_pi.py:90-134 | scanning a growing file in two goes yields what one scan would if and only if no item precedes the first later header or nothing had been carried, and an OMP or Pi header without a usable directory inherits alike |
| ConnectorScan.ClaudeScansSplit | src/dreamy/connectors/claude.py:44-110 | lines that carry their own facts can be split anywhere |
| ConnectorScan.CodexResumesIff | src/dreamy/connectors/codex.py:74-140 | for Codex: the first scan carried no directory, or every later item has a header of its own run before it |
| ConnectorScan.SplitCodexDropsTheTurn | src/dreamy/connectors/codex.py:87-130 | header in one run, message in the next: the message is not stored, though one batch would store it |
| TwoRuns.SameIdsIff | src/dreamy/correlate.py:593-682 | two batches of one group store the ids of one, for every choice of hashes, if and only if they store it in the same place and leave no part with messages out |
| TwoRuns.TwoRunsKeepIdsIff | src/dreamy/correlate.py:541-549 | a file scanned and persisted in two runs keeps the ids of one run if and only if each part with messages names a project and the parts agree on the session's name |
| TwoRuns.TwoRunsByLinesIff | src/dreamy/correlate.py:541-549 | the same condition read off the lines of the two parts, for every harness |
| TwoRuns.BatchName | src/dreamy/correlate.py:541-549 | a batch goes by the id of the earliest header of its window that has one, or by the path of the file |
| TwoRuns.OmpProjectIff | src/dreamy/connectors/omp_pi.py:90-134 | an OMP or Pi batch names a project if and only if its window holds a header naming a usable directory, or an item before any header under a directory name that decodes, or any line under one that decodes to something usable |
| TwoRuns.ResumedOmpKeepsIdsIff | src/dreamy/connectors/omp_pi.py:90-134 | an OMP or Pi file with a usable directory, resumed after its headers, keeps its ids if and only if the later part reads nothing, no header had an id, or the earliest one's id is the path |
| TwoRuns.CodexProjectIff | src/dreamy/connectors/codex.py:87-130 | a Codex batch names a project if and only if its window holds a header that names a directory |
| TwoRuns.ResumedCodexKeepsIdsIff | src/dreamy/connectors/codex.py:87-130 | a Codex file resumed after its headers keeps its ids if and only if no header named a directory or the later part holds no message |
| JsonText.EscapedIsInert | src/dreamy/bundle.py:124-153 | no character an HTML tokenizer acts on survives the escape |
| JsonText.EscapedStringReadsBack | src/dreamy/bundle.py:124-153 | escaping for the script element commutes with decoding the string (RFC 8259 section 7) |
| JsonText.ReadIsPairFree | src/dreamy/importer.py:174-180 | reading ASCII never yields adjacent surrogate halves |
| JsonText.IntReadsBack | src/dreamy/bundle.py:146-146 | printed integers parse to themselves |
| JsonValue.EscapedWrite | src/dreamy/bundle.py:124-153 | the escape acts on the strings of a document alone |
| JsonValue.EmbeddedRoundTripIff | src/dreamy/bundle.py:124-153 | the embedded text parses to the original value if and only if no string or key has adjacent surrogate halves |
| JsonValue.PairsPrintAlike | src/dreamy/bundle.py:146-146 | two strings that differ only in how a pair is spelled print alike |
| JsonValue.ParsedIsWellFormed | src/dreamy/importer.py:91-106 | every parsed value has unique keys at every level |
| BundleDocument.OnePayload | src/dreamy/importer.py:56-59 | the scan finds exactly one element in a document and returns its text |
| BundleDocument.ExportReadsBackIff | src/dreamy/bundle.py:523-549 | whatever prose surrounds it, the document has one payload element, and it reads back as the payload if and only if no string has adjacent surrogate halves |
| BundleImport.CheckTurns | src/dreamy/importer.py:243-256 | the inner walk accepts exactly valid turns with new distinct ids |
| BundleImport.CheckSessions | src/dreamy/importer.py:211-257 | the nested walk accepts exactly the good session lists |
| BundleImport.ValidatePayload | src/dreamy/importer.py:190-257 | the validator accepts exactly the payloads of the declarative predicate |
| BundleImport.ParseBundle | src/dreamy/importer.py:138-257 | one element, valid JSON without repeated keys, acceptable content; anything else is refused |
| BundleExport.ExportAcceptedIff | src/dreamy/importer.py:190-257 | the importer accepts an export if and only if it respects the bounds and its ids are distinct |
| BundleExport.SortEntriesSorts | src/dreamy/bundle.py:146-146 | sorting an object's entries puts its keys in code-point order and keeps them all |
| BundleExport.SortedAcceptedIff | src/dreamy/importer.py:190-257 | the validator accepts a value if and only if it accepts it with the keys of every object sorted |
| BundleExport.ExportImports | src/dreamy/bundle.py:523-549 | export with sorted keys, embed, extract: the payload comes back, and validates if and only if it is in bounds |
| BundleArchive.AddedIsValid | src/dreamy/store.py:321-368 | adding a validated payload under a fresh id keeps every key and every stored count |
| BundleArchive.Archive.ImportBundle | src/dreamy/importer.py:260-357 | known id and digest: no change and the stored counts; other digest: refused, no change; failure: rolled back; no key constraint can trip |
| BundleArchive.Archive.ImportFile | src/dreamy/importer.py:260-357 | nothing is written unless the whole file validates |
| BundleArchive.Archive.ImportTwice | src/dreamy/importer.py:284-303 | a reimport is a no-op that reports the stored counts |
| BundleArchive.Archive.ImportAll | src/dreamy/importer.py:260-357 | any sequence of imports keeps counts and keys, and manifest rows never change |
| PathDecode.LongestChildMatch | src/dreamy/pathdecode.py:59-109 | the candidate loop returns the longest split at which a directory matches, or nothing when none does |
| PathDecode.DecodeUnder | src/dreamy/pathdecode.py:112-154 | the bounded walk is the decoding function |
| PathDecode.DecodeReencodes | src/dreamy/pathdecode.py:112-154 | for every file system, encoding the decoded names spells the input up to one trailing hyphen, past the step limit too |
| PathDecode.RoundTripIff | src/dreamy/pathdecode.py:112-154 | decoding an encoded existing path returns it if and only if it has at most one component more than the limit and no longer hyphen-joined sibling exists on the way |
| PathDecode.SlashFreeStaysInside | src/dreamy/pathdecode.py:112-154 | a slash-free name never decodes outside the root, dot rule included |
| PathDecode.SlashEscapes | src/dreamy/pathdecode.py:88-108 | with a slash an existing absolute candidate replaces the path |
| PathDecode.OmpStaysInside | src/dreamy/pathdecode.py:168-204 | every decode stays under the home directory or /tmp, or is refused |
| PathDecode.ClaudeStaysInside | src/dreamy/pathdecode.py:157-162 | every decoded component is a proper single name |
| PathDecode.PreferCwd | src/dreamy/pathdecode.py:225-242 | the answer is empty or safe to run in |
| PathDecode.DecodedPathIsSafe | src/dreamy/pathdecode.py:207-222 | a decoded path is unsafe if and only if one of its names holds a NUL or a backslash |
| SchemaWalker.WalkIff | src/dreamy/agent_sdk.py:554-595 | the walk reports nothing if and only if the value conforms |
| SchemaWalker.ProblemIsReal | src/dreamy/agent_sdk.py:554-595 | a reported path leads to a part of the value that breaks the reported keyword |
| SchemaWalker.TypesDifferIff | src/dreamy/agent_sdk.py:540-551 | types differ from JSON Schema Validation 2020-12 section 6.1.1 exactly on `integer` and floats with zero fraction |
| SchemaWalker.EqualityIff | src/dreamy/agent_sdk.py:569-571 | standard equality is the walker's minus the identification of booleans with 0 and 1 |
| SchemaWalker.TypesIff | src/dreamy/agent_sdk.py:540-551 | the walker admits a type rule if and only if the standard does and no whole float meets `integer` with no other listed type admitting it |
| SchemaWalker.ListingsIff | src/dreamy/agent_sdk.py:569-571 | the standard finds a value listed if and only if some choice the walker takes agrees on what is a boolean |
| SchemaWalker.ReadingsIff | src/dreamy/agent_sdk.py:554-595 | for every value and schema: the walker accepts and every enumeration met lists an aligned choice, if and only if the standard accepts and no whole float is refused |
| SchemaWalker.MatchesStandard | src/dreamy/agent_sdk.py:554-595 | the two verdicts coincide if and only if what the walker accepts meets no unaligned enumeration and what the standard accepts meets no refused float |
| SchemaWalker.ExceptionsAreReal | src/dreamy/agent_sdk.py:540-571 | both exceptions occur, one refusing and one admitting too much |
| MigrationLadder.LadderCompletes | src/dreamy/store.py:709-727 | from every startable schema a sound ladder ends at its last version, adds exactly what it provides, keeps the rest, and leaves one version row |
| MigrationLadder.RerunIsNoOp | src/dreamy/store.py:709-727 | running the ladder again changes nothing |
| MigrationLadder.DroppedCoreTableIsNotRepaired | src/dreamy/store.py:709-716 | a dropped version-1 table is re-created bare, a second version row appears, and no later version runs |
| MigrationLadder.MigrationStore.RunMigration | src/dreamy/store.py:556-707 | one version, all or nothing |
| MigrationLadder.ResumableMigrates | src/dreamy/store.py:709-727 | a schema that holds everything up to its recorded version, bootstrap repairs included, ends with everything provided |
| MigrationLadder.MigrationStore.RunScript | src/dreamy/store.py:709-713 | the bootstrap script as steps that each commit: first table, version row, the rest |
| MigrationLadder.MigrationStore.Migrate | src/dreamy/store.py:709-727 | success is the migrated schema; a failure at a version leaves exactly the state after the version before it, or a prefix of the script; nothing is lost |
| Migration.RequiredIsProvided | src/dreamy/store.py:565-698 | the checks before a version is recorded always pass on a ladder run in order |
| Migration.LadderIsSound | src/dreamy/store.py:148-436 | every statement of the shipped ladder finds what it needs, and every version provides what it is checked for |
| Migration.EndsAtLatest | src/dreamy/store.py:709-727 | the shipped ladder ends at version 10 with every required object, one version row, nothing lost, and is idempotent |
| Migration.GivenOnce | src/dreamy/store.py:148-436 | no two versions of the shipped ladder give the same object |
| Migration.MigratesFullyIff | src/dreamy/store.py:709-727 | for every well-shaped schema and recorded version: migration ends with every provided object if and only if nothing up to that version is missing at the start, bootstrap repairs included |
| Migration.InterruptedBootstrapIff | src/dreamy/store.py:709-716 | a bootstrap interrupted after its tables is completed if and only if all six indexes were there; a missing one is never created |

## Left out

- RouterMatch.MatchRouter: does not model the reason text of a link or the id it quotes, because they depend on set iteration order.
- Persist.Store.PersistCorrelated: does not model the display name and git remote of projects; links are written by `RequestLinks`.
- Persist.Store.UpsertSession: the record count it writes is that of the latest batch, as in the code; no total over batches is claimed.
- Batches.BatchInvariance: speaks of session and turn ids; spans and record counts of a session do depend on batching.
- FindingStore.Finalize: the regression rate is not rounded to four digits.
- SpendCap.AtMostOneOvershoot: speaks of recorded costs; a call whose exception or ledger failure hides its cost is outside it, as `SpendCap.UnrecordedCostsNeverBind` shows; `SpendCap.PaidWithinCap` speaks of money paid.
- Artifacts.ArtifactStore.Reconcile: takes the digest that names a project directory as collision free, so a row and its file determine each other.
- Stamp.PlaceholderHasNoStamp: upper-casing covers ASCII letters only; the notice text is any text without an equals sign, which the shipped one is.
- Durability.NoRecordLost: follows one file or table; other files of its source appear as the newest time a run reads in them, and an error in one of them counts as `CrashBetweenCommits` when this file was scanned before it.
- Durability.SourceStore.Ingest: `stored` tells whose writes are committed, not rows: two requests that share a native id are one row with the newest columns.
- ConnectorScan.ScanFile: lines arrive parsed; JSON decoding, timestamp parsing and excerpt extraction are not modelled, and malformed lines are skipped and counted; the opencode connector leaves out a row exactly at the cutoff, which the window here admits.
- JsonValue.EmbeddedRoundTripIff: floats are kept as their decimal text; nesting depth limits are not modelled.
- BundleImport.ValidatePayload: refuses a float whose decimal text only rounds to 1; a list or object as schema version is refused here and raises `TypeError` in the code; file size and decoding of the file are not modelled.
- BundleDocument.ExportReadsBackIff: takes the home-path rewriting of the finished document as the identity.
- BundleArchive.Archive.ImportBundle: the payload digest is an arbitrary function; source file name and import time of a manifest row are not modelled.
- PathDecode.DecodeUnder: file-system errors count as a directory that does not exist.
- SchemaWalker.WalkIff: NaN and infinities are not values of the model, and when several problems exist only the first one in walk order is reported.
- MigrationLadder.MigrationStore.Migrate: column types, defaults, primary keys and column order are not modelled; a startable schema is one complete up to its recorded version or with an unfinished bootstrap.
- RunLock.RecoveryClosesOnlyDeadRuns: process ids are not reused and inode numbers are fresh.
- Redaction, fingerprint normalisation, id extraction from raw metadata and timestamp parsing: inputs of the model.
- Terminal interface, web server, dashboard, report text, command line, scheduling, git and the agent SDK itself: presentation or effects without an invariant of their own.
- `cadence.py`, `retention.py`, `efficacy.py`, `orchestration.py`, `skills_lock.py`, `acceptance.py`, `doctor.py`, `config.py`: each would add only members settled by one branch.
