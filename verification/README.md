# ShadowScan: a model of the scan pipeline

ShadowScan looks for AI agents. A scan runs connectors under deadlines, reuses cached results, merges and correlates
what they find, matches it against inventories and vendor registries, scores it, and compares or merges the resulting
reports. The connectors are input and output; the code between them is state and algebra with strong guarantees. This
project models that code in Dafny and proves those guarantees for all inputs, all interleavings and all runs.

`dafny verify dfyconfig.toml` checks the whole project.

## What is modelled

* **Supervision** (`Ledgers`, `Supervision`, `SupervisionLiveness`, `SupervisionDesk`, `PollRefinement`,
  `TimelyResults`, `JobHistories`, `FairTraces`). A transition system whose atomic steps are those of the worker
  threads, of the clock and of the supervisor's loop, one future at a time, so that a worker may move between any two
  reads of the supervisor. Safety is an invariant of every run; termination is proved on every infinite fair trace
  with a ranking argument over pending jobs and remaining deadlines, and fair traces exist. `SupervisionDesk` has the
  supervisor as an object whose loops are proved against one specification of a poll, and `PollRefinement` shows that
  every interleaved turn of the loop meets it.
* **Cache** (`SlotLock`, `SlotLockProgress`, `CacheAgreement`, `CacheAnswers`, `Eviction`). The per-slot lock file,
  which may be unlinked and recreated, with inodes as identities; the two-snapshot check, with digests taken file by
  file while the input changes; and the oldest-first eviction loop.
* **Autonomy** (`Autonomy`, `AutonomyClassifier`, `AutonomyLevels`, `AutonomyTags`, `AutonomyMerge`, `AutonomyLaws`,
  `AutonomyRegrouping`, `AutonomyRecording`). The classifier, what its levels mean, what tags do to it, the widening
  merge with its rule basis, and the recording methods.
* **Correlation** (`Ordering`, `CorrelationKeys`, `CorrelationLinks`, `Correlation`, `CorrelationConflicts`,
  `CorrelationEvidence`, `CorrelationReport`). Declared scopes, groups, bounded symmetric links, and pruning.
* **Comparison** (`Drift`, `DriftMeaning`, `Comparison`, `ComparisonResults`, `ComparisonEvidence`). Classified drift,
  the full comparison and the count-only one, and the evidence a resolution rests on.
* **Registries** (`Text`, `Glob`, `GlobClasses`, `CiteMarker`, `RegistryEntries`, `RegistryRecords`,
  `TrustedApprovals`, `TrustedMatching`, `Reconciliation`, `ReconciliationPass`, `RegistryMeaning`). The pattern
  escape against a glob matcher, the citation scanner against its regular expression, approvals and reconciliation.
* **Merging** (`Semilattice`, `Merging`, `MergingAll`, `Fleet`, `FleetMeaning`). In-place merging of observations,
  fleet verdicts and risk, both as joins.
* **Arithmetic and bounded traversals** (`Risk`, `RiskMeaning`, `Confidence`, `ConfigGraph`, `Framing`).

Clocks, schedules, digests, input changes, parsed identifiers and what the operating system hands over are arbitrary
inputs or arbitrary steps. Digests are injective, inodes are fresh while a descriptor is open, times are integers, and
scores and weights are exact.

## Where the code and its documentation differ

* `correlate` says that a conflicting declared tenant or account prevents both kinds of link. The code compares the
  scope of the *key*, and a qualified identifier brings its own: `CorrelationConflicts.DeclaredConflictStillLinks`.
  `ConflictingFindingsLinkWhen` says exactly which findings in conflict are linked, and `ConflictPreventsLocalLinks`
  where the documented rule holds.
* A result that was ready before its deadline can still be discarded, because the future may resolve after the wait
  has returned: `TimelyResults.TimelyResultMayBeDiscarded`. `DiscardedWhenFoundOverdue` has the exact condition over
  all runs.

## Model

| member | source | states |
|---|---|---|
| `Ledgers.ExportLedger.Record` | shadowscan/engine.py:285-288 | an entry is appended exactly when the reporting job has not been cancelled |
| `Ledgers.ExportLedger.Entries` | shadowscan/engine.py:290-307 | the manifest is what live jobs reported plus one failure entry per timed-out job, in job order |
| `Ledgers.FinalEntriesPerJob` | shadowscan/engine.py:290-307 | per job: a timed-out job has exactly one entry, a failed one, whatever it reported and however late; any other job keeps all it reported, in order |
| `Ledgers.ScopeLedger.Record` | shadowscan/engine.py:332-337 | a second report of one configured entry turns the record into nothing, for good; a cancelled job records nothing |
| `Ledgers.ScopeLedger.Records` | shadowscan/engine.py:339-345 | exactly the single records of jobs that did not time out |
| `Supervision.NextInv` | shadowscan/engine.py:874-996 | every atomic step of any worker thread, of the clock or of the supervisor keeps the bookkeeping invariant |
| `Supervision.RunInv` | shadowscan/engine.py:898-996 | the invariant holds after every finite interleaving |
| `Supervision.WhenSupervisionEnds` | shadowscan/engine.py:898-924 | once the loop has ended every job has exactly one result; a written-off one carries no findings, is skipped, incomplete and cancelled; any other is its own result and finished before its supervision deadline, which JobHistories.CallsGetTheirTime ties to the start of the call |
| `Supervision.LedgersWhenSupervisionEnds` | shadowscan/engine.py:278-345 | nothing a timed-out worker reported reaches the manifest or the scope records, in any interleaving, and each timed-out job has one failed entry |
| `Supervision.OnlyWrittenOffJobsAreSilenced` | shadowscan/engine.py:285-288 | a report is refused only for a job that has been, or is about to be, written off |
| `Supervision.SupervisorNeverBlocks` | shadowscan/engine.py:936-942 | from every reachable state in which the loop runs the supervisor can take its next step, also where it takes a publication lock |
| `Supervision.PendingJobsHaveAnExit` | shadowscan/engine.py:964-974 | a pending job is held by a worker under a deadline, or can still be started, or the next capacity check gives it up |
| `SupervisionLiveness.PendingFalls` | shadowscan/engine.py:898-924 | on a fair trace work gets done as long as a job is pending |
| `SupervisionLiveness.SupervisionEnds` | shadowscan/engine.py:898-924 | on every fair infinite trace with an unbounded clock the loop ends, with every job accounted for |
| `SupervisionDesk.PollDecidesOnce` | shadowscan/engine.py:900-924 | for any readings, a poll gives a pending job at most one outcome: its own result exactly when the wait returned it and it was not late |
| `PollRefinement.TurnRefinesPoll` | shadowscan/engine.py:898-924 | every turn of the interleaved loop, worker steps and clock included, changes the fields exactly as one poll does for readings of jobs and clock taken during that turn |
| `SupervisionDesk.Supervisor.Poll` | shadowscan/engine.py:900-924 | one turn of the loop changes the pending, completed, timed-out and abandoned sets exactly as its four phases prescribe |
| `SupervisionDesk.Supervisor.SettleFinished` | shadowscan/engine.py:902-914 | finished futures are settled unless they finished late |
| `SupervisionDesk.Supervisor.FindOverrun` | shadowscan/engine.py:915-919 | exactly the unfinished jobs past their deadline are found |
| `SupervisionDesk.Supervisor.WriteOff` | shadowscan/engine.py:920-962 | each expired job is booked as a timeout, and a still running call is remembered as abandoned |
| `SupervisionDesk.Supervisor.CapacityExhausted` | shadowscan/engine.py:964-974 | true exactly when all worker slots are held by timed-out calls |
| `SupervisionDesk.Supervisor.AbandonQueue` | shadowscan/engine.py:976-996 | exactly the jobs that can still be cancelled are given up as not started |
| `TimelyResults.KeptWhenReturned` | shadowscan/engine.py:900-914 | in every completed run a job ends with its own result exactly when it finished before its deadline and some wait returned its future |
| `TimelyResults.DiscardedWhenFoundOverdue` | shadowscan/engine.py:915-922 | in every completed run a result that was ready in time is discarded exactly when its deadline was found to have passed in a poll whose wait had not returned it, which is exactly when no wait ever does; a future resolved before some poll began is kept |
| `TimelyResults.TimelyResultMayBeDiscarded` | shadowscan/engine.py:900-925 | a run in which that happens |
| `JobHistories.CallsGetTheirTime` | shadowscan/engine.py:377-412 | a call that starts keeps its result exactly when it finishes within the timeout, counted from its own start (two seconds more for an isolated plugin), and a wait returns it; it is written off as a timeout only once that time is up |
| `JobHistories.UnstartedIsGivenUp` | shadowscan/engine.py:976-996 | a call that never starts ends as not started for lack of capacity |
| `JobHistories.FoundAfterItsTime` | shadowscan/engine.py:915-919 | whenever a poll finds a call past its deadline, its time, counted from its own start, is up |
| `JobHistories.StartsOnce` | shadowscan/engine.py:377-381 | a call starts at most once |
| `JobHistories.ReportsWereCleared` | shadowscan/engine.py:285-288 | a report is appended only after its worker found the cancel flag clear |
| `JobHistories.OneLateReport` | shadowscan/engine.py:285-288 | once its cancel flag is set, a job appends at most one more report |
| `FairTraces.AFairTraceExists` | shadowscan/engine.py:898-924 | the fairness termination is proved under can be met: a job is started, finishes, is settled by the loop, and the loop stops |
| `SlotLock.NextInv` | shadowscan/incremental.py:561-600 | opening or creating, locking, rechecking, unlinking and releasing keep the protocol invariant |
| `SlotLock.MutualExclusion` | shadowscan/incremental.py:811-841 | whoever passed the recheck, and has not unlinked the file itself, holds the inode now at the lock path; two such holders coexist only when both locks are shared |
| `SlotLock.LockedEntryIsStable` | shadowscan/incremental.py:843-856 | under a checked lock the entry changes only by its exclusive holder |
| `SlotLock.LocksAloneDoNotExclude` | shadowscan/incremental.py:829-836 | a run that shows why the recheck is needed: without it two exclusive holders overlap on one slot |
| `SlotLockProgress.LockIsTaken` | shadowscan/incremental.py:811-841 | an uncontended process ends up holding the file that has the slot's name |
| `SlotLockProgress.LoaderReads` | shadowscan/incremental.py:843-856 | a loader reads the slot's entry and leaves the slot as it was |
| `SlotLockProgress.SaverWrites` | shadowscan/incremental.py:949-1019 | a saver replaces the entry by a new one, and may take it back while it holds the lock |
| `SlotLockProgress.RemoverEmpties` | shadowscan/incremental.py:668-694 | a remover empties the slot |
| `SlotLockProgress.CleanerUnlinks` | shadowscan/incremental.py:561-600 | a cleaner removes the lock file of a slot without an entry |
| `SlotLockProgress.UsedSlotsKeepTheirLock` | shadowscan/incremental.py:576-582 | no step removes the lock file of a slot that has an entry |
| `CacheAgreement.EqualSnapshots` | shadowscan/engine.py:664-677 | the double collect: two equal snapshots mean that nothing between them moved |
| `CacheAgreement.NextInv` | shadowscan/engine.py:657-719 | every step of every configuration, and every input change, keeps stored results equal to a fresh scan of the input they are stored under |
| `CacheAgreement.CachedResultsAgree` | shadowscan/engine.py:669-677 | a reused result is what a fresh scan of the input at the second snapshot gives, and a saved payload was computed from one unchanged input, for every interleaving |
| `CacheAgreement.ReusedInputWasCurrent` | shadowscan/engine.py:673-676 | that input was the whole current input at a moment between the hit and its use |
| `CacheAgreement.ReturningDigestsBreakAgreement` | shadowscan/incremental.py:788-803 | if a digest could return to an earlier value a torn result would be saved: the assumption is needed |
| `CacheAnswers.AnswerIsFresh` | shadowscan/engine.py:657-719 | every complete answer of a scan, reused or collected, is a fresh scan of the whole input at one moment since that scan began |
| `CacheAnswers.UndisturbedScanIsComplete` | shadowscan/engine.py:699-719 | a scan during which no input changes, and whose snapshots and connector succeed, ends complete and is never sent back for a rerun |
| `CacheAnswers.RefusedHitIsIncomplete` | shadowscan/engine.py:669-719 | a scan whose hit was refused, as a file moved between its two snapshots, saves nothing and ends incomplete |
| `CacheAnswers.SaveStores` | shadowscan/incremental.py:978-1019 | a save fills its own slot and touches no other |
| `CacheAnswers.SavedIsFound` | shadowscan/incremental.py:895-899 | a later scan of the same configuration and input finds exactly the saved payload |
| `Eviction.EvictsShortestPrefix` | shadowscan/incremental.py:716-726 | with nothing protected or stuck, the removed entries are a prefix of the (mtime, slot) order, namely the shortest one whose rest has no expired entry and meets both quotas |
| `Eviction.OnlyImmovableOverQuota` | shadowscan/incremental.py:719-729 | if a quota is still exceeded, every remaining entry was protected or could not be removed |
| `Eviction.ProtectedEntryFits` | shadowscan/incremental.py:716-729 | an entry protected while room is made survives its own save unless some other removal failed |
| `Eviction.ByAgeSorts` | shadowscan/incremental.py:716-716 | the visiting order is a permutation of the entries |
| `Eviction.ByAgeIsOldestFirst` | shadowscan/incremental.py:716-716 | oldest first, and entries of one age in the order of their slots |
| `Eviction.FitsMeans` | shadowscan/incremental.py:713-729 | the quotas are 256 entries and 512 MiB over the sum of all sizes |
| `Eviction.CacheDirectory.RemoveEntry` | shadowscan/incremental.py:668-694 | an entry file counts as removed when it could be unlinked unchanged or was gone already; a refused lock, another file in its place or a failed unlink changes nothing |
| `Eviction.CacheDirectory.EvictOldest` | shadowscan/incremental.py:716-726 | the running totals stay the count and byte sum of what is left, and the survivors are those of the specification |
| `Eviction.CacheDirectory.Maintain` | shadowscan/incremental.py:696-729 | the result is true exactly when what remains meets both quotas, also with protected or stuck slots |
| `Autonomy.OrderedKeepsEveryRule` | shadowscan/autonomy.py:354-359 | the cap of 32 never drops a rule: the basis is exactly the last value of each of the 17 rules |
| `Autonomy.SameItemsSameOrder` | shadowscan/autonomy.py:354-359 | a basis depends only on which items there are |
| `AutonomyClassifier.FloorIsLevel` | shadowscan/autonomy.py:304-328 | raising the floor rule by rule, in any order of the rules that apply, ends at the highest level; AutonomyLevels.FloorMeans says what each level takes |
| `AutonomyClassifier.ClassifyMonotone` | shadowscan/autonomy.py:274-352 | more bypass or initiation evidence never narrows floor, ceiling, oversight or initiation |
| `AutonomyClassifier.ClassifyIsValid` | shadowscan/autonomy.py:274-352 | every classified block is well formed; in particular its floor does not exceed its ceiling |
| `AutonomyLevels.FloorMeans` | shadowscan/autonomy.py:304-328 | each level of the floor by what it takes: 5 for a self-started, 4 for an unapproved side effect, 3 for a workflow, several agents or a model loop that no full gate holds, 2 for side effects, 1 for tool access |
| `AutonomyLevels.CeilingMeans` | shadowscan/autonomy.py:330-341 | the ceiling is 5 unless a gate on every action stands unbypassed; then it is 2, or the floor if that is higher |
| `AutonomyLevels.OversightMeans` | shadowscan/autonomy.py:223-260 | oversight is bypassed exactly when another report, a tag, a server, a setting or an unexplained autonomous capability says so, and gated exactly when a gate or an asking tag stands unbypassed |
| `AutonomyLevels.InitiationMeans` | shadowscan/autonomy.py:194-263 | initiation is the observed or the added one, whichever admits more, with every tag and trigger that counts as a schedule or an event |
| `AutonomyLevels.BasisMeans` | shadowscan/autonomy.py:304-352 | a rule is in the basis exactly when its evidence is there, with the value it gives its bound |
| `AutonomyLevels.ValidMeans` | shadowscan/autonomy.py:488-542 | a block is well formed exactly when its levels are in order and labelled as such, a declared level is on the scale and names its source, and each of at most 32 notes has a rule of its bound and a value of its kind |
| `AutonomyTags.BypassLostWhen` | shadowscan/autonomy.py:223-260 | added tags take bypass evidence away exactly when it rests on the autonomous capability alone, nothing yet explains that capability, and a tag now says the run starts by itself |
| `AutonomyTags.TagsLowerFloorWhen` | shadowscan/autonomy.py:274-352 | added tags lower the floor exactly when they take away the only bypass evidence and a level rests on it; in every other case the floor stays or rises |
| `AutonomyTags.TagsLowerCeilingWhen` | shadowscan/autonomy.py:330-340 | they lower the ceiling exactly when they take away the bypass that a gate on every action conflicted with |
| `AutonomyTags.TagsAndOversight` | shadowscan/autonomy.py:342-349 | oversight narrows exactly when the only bypass evidence goes or an ungated run is said to ask its user; initiation never narrows |
| `AutonomyTags.TriggerTagLowersFloor` | shadowscan/autonomy.py:223-237 | a finding whose floor falls when a trigger tag is added |
| `AutonomyMerge.OrderedKeepsGreatest` | shadowscan/autonomy.py:456-462 | sorting by rule and value and keeping the last leaves, per rule, the greatest value |
| `AutonomyMerge.NotesAre` | shadowscan/autonomy.py:447-468 | the notes of a merge are the strongest notes of the blocks that set each widened bound, and the classifier's own for the others |
| `AutonomyLaws.MergedWidens` | shadowscan/autonomy.py:447-462 | every bound of the merged block is at least that of every valid source and of the plain classification |
| `AutonomyLaws.MergedRanks` | shadowscan/autonomy.py:447-455 | each merged bound is the widest of the classified one and the sources' ones |
| `AutonomyLaws.MergedBasisIs` | shadowscan/autonomy.py:456-481 | a note is in the merged basis exactly when a setter or the classifier gives it, plus the above-ceiling note of the lowest declared level |
| `AutonomyLaws.MergedIsValid` | shadowscan/autonomy.py:429-481 | a merge of valid blocks passes the validity test applied to blocks read from a report |
| `AutonomyLaws.MergedDependsOnlyOnSet` | shadowscan/autonomy.py:403-416 | order and repetition of the sources, and malformed sources, change nothing |
| `AutonomyRegrouping.Regrouping` | shadowscan/autonomy.py:429-481 | merging a partial merge with the remaining sources equals merging all sources: bounds, basis, declared level and understated flag |
| `AutonomyRecording.MergedAutonomy` | shadowscan/autonomy.py:429-481 | the merge as it runs, bound by bound, computes the specified block and flag |
| `AutonomyRecording.Widen` | shadowscan/autonomy.py:446-462 | the loop over the bounds widens each bound and replaces its notes exactly as specified |
| `AutonomyRecording.Observation.ApplyAutonomy` | shadowscan/autonomy.py:367-392 | the recorded block and the understated tag replace whatever was there |
| `AutonomyRecording.Observation.MergeAutonomy` | shadowscan/autonomy.py:403-426 | the same for a finding merged from several reports |
| `AutonomyRecording.AppliedIsValid` | shadowscan/autonomy.py:367-392 | a recorded block is well formed and carries the above-ceiling note exactly when the declared level exceeds the ceiling |
| `AutonomyRecording.ApplyIsIdempotent` | shadowscan/autonomy.py:367-373 | recording twice equals recording once: classification never reads the tag it writes |
| `CorrelationKeys.Collect` | shadowscan/correlation.py:377-437 | the nested loops build the groups of the specification |
| `CorrelationKeys.GroupedIs` | shadowscan/correlation.py:411-413 | with unique ids, a finding's entry in a group is what that finding alone contributes: the scope of its first use, the fields of all |
| `CorrelationKeys.GroupedIgnoresOrder` | shadowscan/correlation.py:377-437 | the groups do not depend on the order of the findings |
| `CorrelationLinks.PairsAre` | shadowscan/correlation.py:476-488 | exactly the pairs of distinct members of groups of 2 to 25, not of one connector and surface and not in conflicting scopes, are visited |
| `CorrelationLinks.LinkTable.AddLink` | shadowscan/correlation.py:451-473 | a match is recorded at both ends, or nowhere when either end is full |
| `CorrelationLinks.LinkedKeepsGood` | shadowscan/correlation.py:451-473 | linking keeps the table symmetric with mirrored fields, irreflexive, without duplicate matches and at 24 peers or fewer |
| `Correlation.Link` | shadowscan/correlation.py:517-525 | the exact and the fuzzy table are filled pair by pair as specified |
| `Correlation.EveryPairIsCovered` | shadowscan/correlation.py:460-463 | a comparable pair is missing only if one of its ends already has 24 peers |
| `Correlation.ExactMatchIsVerified` | shadowscan/correlation.py:440-448 | every exact match was routed as exact from both ends; CorrelationEvidence.ExactMatchMeans says what that takes |
| `Correlation.FuzzyMatchIsUnverified` | shadowscan/correlation.py:517-525 | every candidate match rests on a local identifier without verified scope or on a similar name |
| `Correlation.TablesIgnoreOrder` | shadowscan/correlation.py:517-525 | the link tables are the same for every order of the findings |
| `CorrelationReport.Correlate` | shadowscan/correlation.py:526-546 | each finding's related, details and candidate lists are those of the tables; earlier links are replaced |
| `CorrelationReport.PruneRelated` | shadowscan/engine.py:1562-1592 | exactly the links to findings that are kept remain |
| `CorrelationReport.LinksAreBounded` | shadowscan/correlation.py:526-546 | after any subset is kept: at most 24 of each kind, only to kept findings, never to itself, exact and candidate links disjoint |
| `CorrelationReport.LinksAreSymmetric` | shadowscan/engine.py:1562-1568 | after any subset is kept, links are mutual and each side lists the other's matches with source and target fields swapped |
| `CorrelationReport.ReportIgnoresOrder` | shadowscan/correlation.py:491-546 | what a report lists does not depend on the order of the findings |
| `CorrelationConflicts.DeclaredConflictIs` | shadowscan/correlation.py:310-353 | two declared scopes conflict exactly when the findings name different tenants or workspaces, or different accounts of one identity namespace |
| `CorrelationConflicts.PairedWhen` | shadowscan/correlation.py:476-488 | two findings are paired for an exact or a candidate link exactly when they share a key of at most 25 findings in scopes that do not conflict, not from one connector and surface, with or without verified scope |
| `CorrelationConflicts.ConflictingPairsAre` | shadowscan/correlation.py:496-501 | two findings in declared conflict are paired exactly when such a key comes, for at least one of them, from a qualified reference, which brings a scope of its own |
| `CorrelationConflicts.ConflictingFindingsLinkWhen` | shadowscan/correlation.py:491-525 | the same of the links: none without such an identifier, and with one a link, unless an end already has 24 peers |
| `CorrelationConflicts.ConflictPreventsLocalLinks` | shadowscan/correlation.py:498-501 | the documented rule, where it holds: findings without qualified references in declared conflict are never linked |
| `CorrelationConflicts.DeclaredConflictStillLinks` | shadowscan/correlation.py:491-501 | two findings of different tenants are linked by the full id of one resource, unlike the docstring says |
| `CorrelationEvidence.IdentifierKeyMeans` | shadowscan/correlation.py:377-413 | a finding uses an identifier key exactly when its declared scope is usable and one of its identifiers gives it: its kind and value, or what it refers to as a qualified reference, but neither a malformed reference nor a repository path; fields of all, scope of the first |
| `CorrelationEvidence.NameKeyMeans` | shadowscan/correlation.py:414-436 | and a name key exactly when a normalised name gives it, under the declared scope |
| `CorrelationEvidence.ExactMatchMeans` | shadowscan/correlation.py:440-448 | an exact match joins two findings of different connectors or surfaces that use one identifier in agreeing scopes, and both spell it as a qualified reference or a scope of its kind is known of both (for an Entra application id, the tenant) |
| `CorrelationEvidence.CandidateMatchMeans` | shadowscan/correlation.py:517-525 | a candidate match rests on an identifier whose scope is not known of both, or on a name |
| `CorrelationEvidence.NoSharedScopeNoExactLink` | shadowscan/correlation.py:447-448 | one-sided scope never makes a local identifier exact |
| `CorrelationEvidence.UnusableScopeLinksByName` | shadowscan/correlation.py:317-323 | a finding whose declared scope is redacted or otherwise not comparable has no exact link, and is a candidate by its name only |
| `CorrelationEvidence.MeetingMeans` | shadowscan/correlation.py:476-525 | two findings that meet at an identifier used by at most 25 are linked exactly or become candidates by that rule, unless an end already has 24 peers |
| `Drift.StatesDifferInAField` | shadowscan/comparison.py:807-810 | two substantive states differ exactly when some field differs |
| `Drift.DriftEntries` | shadowscan/comparison.py:557-604 | the two loops collect the specified entries |
| `Drift.SortIsInOrder` | shadowscan/comparison.py:604-604 | entries come out ordered by class and field name |
| `Drift.EveryDifferenceIsClassified` | shadowscan/comparison.py:557-604 | every differing field outside the risk block has an entry, and every entry names a differing field |
| `Drift.PartsCover` | shadowscan/comparison.py:536-541 | a list differs exactly when its capability or its governance part does: splitting the tags loses nothing |
| `Drift.ShownValuesDoNotMatter` | shadowscan/comparison.py:560-566 | class, field, direction and adversity come from the observed states, whatever is shown |
| `Drift.RiseReverses` | shadowscan/comparison.py:489-506 | swapping the two observations turns a rise of the autonomy interval into a fall, and its adversity round |
| `DriftMeaning.BoundRoseMeans` | shadowscan/comparison.py:489-506 | a bound of the interval rose, and is adverse, exactly when the classifier ranks the later value higher |
| `DriftMeaning.DirectionMeans` | shadowscan/comparison.py:489-506 | a differing field was set, was cleared, changed, rose or fell, by whether a value is there and how it ranks |
| `DriftMeaning.AdverseMeans` | shadowscan/comparison.py:509-533 | field by field, when a change counts against the finding |
| `DriftMeaning.ListEntryMeans` | shadowscan/comparison.py:536-604 | a list has one entry per class with a difference, adverse when something was added, where mitigating tags count the other way round |
| `DriftMeaning.EntriesAreOrdered` | shadowscan/comparison.py:604-604 | entries come by class, inventory, capability, autonomy, governance, coverage, and within one by field name |
| `Comparison.ReadFindings` | shadowscan/comparison.py:412-437 | the loop builds the index of the report or refuses it |
| `Comparison.IndexedHolds` | shadowscan/comparison.py:412-437 | the index holds exactly the report's records, each under its own id |
| `Comparison.IndexedWhen` | shadowscan/comparison.py:417-434 | a report is read exactly when every record is well formed and no id repeats |
| `Comparison.ComparableWhen` | shadowscan/comparison.py:736-777 | no reason is given exactly when both scans are complete, count-consistent, identity-attested, equal in coverage and scope, without unmatched scan-local ids, and the baseline is recent |
| `ComparisonResults.DriftTotals` | shadowscan/comparison.py:711-733 | each change counts once for every class it has an entry of |
| `ComparisonResults.ChangedFieldsAre` | shadowscan/comparison.py:808-810 | a change lists exactly the differing fields |
| `ComparisonResults.CompareReports` | shadowscan/comparison.py:780-838 | the full comparison, with its errors |
| `ComparisonResults.DriftCounts` | shadowscan/comparison.py:841-885 | the count-only comparison, with its errors |
| `ComparisonResults.CountsAgree` | shadowscan/comparison.py:848-858 | whenever the full comparison returns, the count-only one returns its reasons, counts, class totals and adverse flags |
| `ComparisonResults.FullPathNeedsExport` | shadowscan/comparison.py:798-818 | exactly when the full comparison returns although the count-only one does: every record can be exported and changed ones stay well formed |
| `ComparisonResults.EveryFindingIsAccountedFor` | shadowscan/comparison.py:780-838 | each baseline id is in exactly one of shared, resolved, unknown and not comparable, each current id in exactly one of shared, new and not comparable, and no list repeats an id |
| `ComparisonResults.ResolutionNeedsEvidence` | shadowscan/comparison.py:787-793 | a resolved finding is gone from a comparison without any reason against it, and is not scan-local |
| `ComparisonEvidence.ResolutionMeans` | shadowscan/comparison.py:736-777 | a finding is resolved only if every connector completed equally often in both scans, both are attested throughout and of one scope, and a baseline with an age limit is at most that many days old, not in the future and not after the current scan |
| `ComparisonEvidence.CoveredCounts` | shadowscan/comparison.py:394-402 | coverage counts each connector as often as it completed and no scan-level record |
| `ComparisonEvidence.CounterCounts` | shadowscan/comparison.py:389-391 | a counter has exactly the names that occur, each with the number of its positions |
| `ComparisonEvidence.CompleteMeans` | shadowscan/comparison.py:352-373 | a scan is complete exactly when its summary says so and it has records, each of a named connector without errors, neither skipped nor incomplete |
| `ComparisonEvidence.CountsMatchMeans` | shadowscan/comparison.py:375-391 | a summary agrees with the findings exactly when total and tallies by surface and kind do |
| `ComparisonEvidence.ReasonsAboutOne` | shadowscan/comparison.py:745-755 | each reason about one report is given exactly when it holds of it |
| `ComparisonEvidence.ReasonsAboutBoth` | shadowscan/comparison.py:756-776 | so is each reason about the two, the count of unmatched scan-local findings included |
| `ComparisonEvidence.AgeReasonsMean` | shadowscan/comparison.py:776-776 | each reason about the age of the baseline, in seconds and days |
| `ComparisonEvidence.TotalsMean` | shadowscan/comparison.py:711-733 | per class the number of changes with an entry of it, the new and resolved findings under inventory and the reasons under coverage, and when the class is adverse |
| `ComparisonEvidence.CountsRefusedWhen` | shadowscan/comparison.py:841-870 | a comparison is refused exactly when a report cannot be read or the age limit is not 1 to 36500 days |
| `ComparisonResults.ChangedMeansStateDiffers` | shadowscan/comparison.py:805-818 | a shared finding is listed as changed exactly when its state differs |
| `ComparisonResults.NothingChangesAgainstItself` | shadowscan/comparison.py:780-838 | a report compared with itself shows nothing new, resolved, unknown or changed |
| `Glob.LiteralMatchesOnlyItself` | shadowscan/registry.py:144-146 | for all strings, s matches the escaped pattern of r under fnmatchcase exactly when s equals r |
| `Glob.UnescapedMatchesMore` | shadowscan/registry.py:144-146 | an unescaped resource can match another string |
| `GlobClasses.StarMatchesAll` | shadowscan/registry.py:513-515 | a star stands for any text of any length, a question mark (AnyMatchesOne) for one character |
| `GlobClasses.RangeAndMore` | shadowscan/registry.py:513-515 | a class stands for its ranges, both ends included, and its single characters |
| `GlobClasses.ListMatches` | shadowscan/registry.py:513-515 | a class without ranges stands for exactly the characters it lists, a bracket that comes first included |
| `GlobClasses.NegatedMatches` | shadowscan/registry.py:513-515 | a negated class stands for every other character |
| `GlobClasses.UnclosedIsLiteral` | shadowscan/registry.py:513-515 | a bracket that nothing closes stands for itself |
| `CiteMarker.MarkerIsMatch` | shadowscan/registry.py:707-707 | the regular expression matches at a position exactly when a marker begins there |
| `CiteMarker.NothingClosesLater` | shadowscan/registry.py:713-716 | after an unclosed marker no later one can close: the early stop is sound |
| `CiteMarker.HasCiteMarker` | shadowscan/registry.py:710-727 | the single pass finds a marker exactly when the regular expression matches somewhere |
| `RegistryEntries.StripOfPattern` | shadowscan/registry.py:684-704 | stripping an entry's escaped pattern makes it match exactly the stripped resource |
| `RegistryEntries.EscapedPatternHasNoMarker` | shadowscan/registry.py:697-700 | an escaped pattern is never refused for a citation marker |
| `RegistryEntries.MatchState.Match` | shadowscan/registry.py:473-540 | what matching returns and writes on the finding, check by check, with the loop over the extra entries |
| `RegistryEntries.ApprovalIsUnambiguous` | shadowscan/registry.py:518-540 | an approval is returned exactly when the identity is usable, the caller authenticated and one approval applies: one loaded entry and no extra, or no loaded entry and extras of one agent and source |
| `TrustedApprovals.WithheldIsNotApproved` | shadowscan/registries.py:572-589 | the withholding and the approval rules agree on every status, mode and policy |
| `TrustedApprovals.Approvals.constructor` | shadowscan/registries.py:468-525 | the dictionaries are those of the accepted records, record by record |
| `TrustedMatching.BookIs` | shadowscan/registries.py:488-525 | the entries by resource are exactly those of accepted records' usable bindings, and the entries by finding exactly those of accepted record findings |
| `TrustedMatching.BoundEntryIsExact` | shadowscan/registries.py:552-566 | a binding's entry approves exactly the findings with its resource and the provider, account and region it sets |
| `TrustedMatching.OwnEntryIsExact` | shadowscan/registries.py:505-508 | a record finding's own entry approves exactly the findings with its own unpadded resource and scope |
| `TrustedMatching.TrustedApprovalIs` | shadowscan/registries.py:443-466 | a trusted registry sanctions a finding exactly when identity and caller allow it, no loaded entry approves it, an accepted record of this run covers it and all that do are one approval |
| `TrustedMatching.TrustedEntryIsOfARecord` | shadowscan/registries.py:527-533 | the entry returned then belongs to such a record |
| `TrustedMatching.Sanction` | shadowscan/engine.py:1294-1294 | what the approvals offer is matched together with the loaded inventory, and an entry returned that is not a loaded one belongs to a record that covers the finding |
| `RegistryMeaning.UsableMeans` | shadowscan/registries.py:134-158 | an exact identity is not empty, not padded and not redacted anywhere |
| `RegistryMeaning.UsableBindingMeans` | shadowscan/registries.py:153-158 | a binding is usable exactly when its resource and whatever provider, account or region it sets are exact identities |
| `RegistryMeaning.ApprovesMeans` | shadowscan/registry.py:541-565 | an entry approves exactly when a pattern matches the resource, every scope list allows the finding, and a workspace or site entry names accounts |
| `RegistryMeaning.PolicyIs` | shadowscan/registries.py:468-487 | the last entry of the trusted list with a registry's type and exact id speaks for it, and none for a type that cannot be trusted |
| `RegistryMeaning.AcceptedMeans` | shadowscan/registries.py:572-589 | a record approves exactly when such an entry accepts its status, mode and origin, and its own id is exact |
| `RegistryMeaning.RefusedMeans` | shadowscan/registries.py:572-589 | which refusal a record gets, and that a usable record of an approvable status is refused exactly when it is not accepted |
| `RegistryMeaning.ConferredEntryMeans` | shadowscan/registries.py:552-566 | the entry a record confers has its identity and publisher, matches exactly the unpadded resource and asks for the scope that is given |
| `ReconciliationPass.Reconcile` | shadowscan/registries.py:313-401 | the pass writes the specified block on every finding and counts malformed records; earlier blocks do not matter |
| `ReconciliationPass.MatchBindings` | shadowscan/registries.py:355-360 | the findings hit, and whether every usable binding missed in scope |
| `Reconciliation.RegisteredMeansBound` | shadowscan/registries.py:340-382 | a record is registered-and-observed exactly when it binds an observed finding, a finding exactly when a registering record binds it |
| `Reconciliation.LinksAreMutual` | shadowscan/registries.py:365-381 | up to 50 links per side, the two link lists are mutual |
| `Reconciliation.UnregisteredNeedsCompleteListing` | shadowscan/registries.py:383-400 | observed-not-registered exactly when no record of any registry binds the finding and a registry that could list it, with only complete listings, covers its scope |
| `Reconciliation.BlocksIgnoreOrder` | shadowscan/registries.py:313-401 | the blocks do not depend on the order of the findings |
| `RegistryMeaning.BindsMeans` | shadowscan/registries.py:160-168 | a record binds a finding exactly when its status registers and one of its exact bindings names the finding in every field it sets |
| `RegistryMeaning.ObservedRecordMeans` | shadowscan/registries.py:365-376 | a record is registered-and-observed exactly when it registers and binds some finding, and lists up to 50 of those |
| `RegistryMeaning.UnobservedRecordMeans` | shadowscan/registries.py:345-382 | a record that binds nothing is registered-not-observed exactly when it registers and has usable bindings that were all in scope; otherwise it is not comparable for the stated reason |
| `RegistryMeaning.AbsenceMeans` | shadowscan/registries.py:388-394 | a finding is absent from a registry exactly when all its identified records list completely, one reaches the finding's provider and account, and they could bind its resource type |
| `RegistryMeaning.RegisteredFindingMeans` | shadowscan/registries.py:375-382 | a bound finding lists registries of records that bind it |
| `RegistryMeaning.UnregisteredFindingMeans` | shadowscan/registries.py:383-400 | an unregistered finding lists only registries it is absent from |
| `ReconciliationPass.PruneKeepsMutualLinks` | shadowscan/registries.py:404-414 | links between kept findings survive pruning on both sides |
| `Merging.TopIsSemilattice` | shadowscan/merge.py:12-22 | the choice of kind and resource type is associative, commutative and idempotent |
| `Merging.JoinIsSemilattice` | shadowscan/merge.py:12-80 | so is the join of whole observations: observed kinds, evidence keys, lists and times |
| `Merging.TopMeans` | shadowscan/merge.py:12-22 | an agent takes precedence over a service identity, that over a grant, and a grant over every other kind; ties go to the alphabetically later kind and then type |
| `Merging.TimesMean` | shadowscan/merge.py:77-78 | of the times that are there the earlier becomes the first and the later the last |
| `Merging.Finding.MergeClassification` | shadowscan/merge.py:12-33 | the pair with the higher key is kept and no observed kind or type is lost |
| `Merging.Finding.MergeObservations` | shadowscan/merge.py:36-58 | every list keeps what it had and takes what is new from the other finding, once each and in its order there; evidence is new by signal, location and description; the first owner stays |
| `Merging.Finding.Absorb` | shadowscan/merge.py:68-79 | one merge step joins the two views in place, keeps the first nonempty owner, and extends every list behind what was there, evidence weights included |
| `MergingAll.Merge` | shadowscan/merge.py:61-80 | the first finding of each id ends with the join of all findings of that id; every other finding stays as it was |
| `MergingAll.MergeIgnoresOrder` | shadowscan/merge.py:61-66 | per id the merged view is the same for every order and repetition |
| `MergingAll.MergeIgnoresGrouping` | shadowscan/merge.py:12-18 | merging some findings first and the rest later changes no view |
| `Fleet.VerdictIsJoin` | shadowscan/fleet.py:229-260 | the merged registration is the join of the sources' verdicts: unassessed below registered below shadow, two different matches joining to shadow |
| `Fleet.VerdictIgnoresOrder` | shadowscan/fleet.py:229-239 | order and repetition of the sources do not change the verdict |
| `Fleet.VerdictIgnoresGrouping` | shadowscan/fleet.py:213-226 | assessing a merged finding again can stand for its sources |
| `Fleet.Accumulate` | shadowscan/fleet.py:328-348 | the accumulation loop, with its refusal |
| `Fleet.AccumulatedIs` | shadowscan/fleet.py:340-348 | per id the kept (score, danger score) is the lexicographic maximum and every assessment is kept |
| `Fleet.RefusedWhen` | shadowscan/fleet.py:329-337 | a fleet is refused exactly when one id is used with two identities |
| `Fleet.FleetIgnoresOrder` | shadowscan/fleet.py:328-348 | no order of the sources changes the refusal, a verdict or a kept score |
| `FleetMeaning.KeptRiskIsHighest` | shadowscan/fleet.py:340-345 | the risk kept for an id is one of its sources', and no source has a higher score, or the same score and a higher danger score |
| `FleetMeaning.FleetRegistrationMeans` | shadowscan/fleet.py:213-260 | a merged finding is shadow exactly when a reconciling source found it unregistered or two registered it differently, and registered as one agent exactly when all that assessed it say so |
| `ConfigGraph.GoodMeansPaths` | shadowscan/config.py:221-226 | the recursive bound means that no path is longer than the depth limit and every number reached is finite |
| `ConfigGraph.AcceptedIsAcyclic` | shadowscan/config.py:233-236 | nothing below the root of an accepted graph lies on a cycle |
| `ConfigGraph.Validator.Validate` | shadowscan/config.py:221-247 | each call accepts exactly when what is below fits the remaining budget, restores the path set, and reports a cycle, a non-finite number or a limit only if there is one below the object or the trail to it is too long |
| `ConfigGraph.ValidateConfigGraph` | shadowscan/config.py:210-249 | on every finite graph, cyclic or shared, the check ends and accepts exactly when paths and unfolding are within the limits and, if asked, numbers finite; a limit is reported only if the unfolding is too large or a path without a repeated object too long |
| `ConfigGraph.ExpandEnv` | shadowscan/config.py:350-370 | on an accepted graph the expansion ends: text with its variables replaced inside copies of the lists and dictionaries around it, no more nodes than were counted, and a failure exactly when some text it goes into lacks a variable |
| `ConfigGraph.ExpansionIsUnique` | shadowscan/config.py:350-370 | an object has one expansion at most |
| `ConfigGraph.CheckAndExpand` | shadowscan/config.py:641-645 | check, then expand: the result has at most 100000 nodes |
| `Risk.HalfEvenIsNearest` | shadowscan/risk.py:450-450 | rounding gives the nearest integer, the even one on a tie |
| `Risk.ScaledIsNearer` | shadowscan/risk.py:449-455 | scaling moves a subtotal towards zero and never past it |
| `Risk.Assess` | shadowscan/risk.py:423-475 | the factors are the base ones and then the explanation; they sum to the score, and the level is that of the score |
| `Risk.ScoreIsMonotone` | shadowscan/risk.py:413-451 | for any subtotal the score stays in 0 to 100 and never falls when confidence rises |
| `Risk.DangerBasisIgnoresGovernance` | shadowscan/risk.py:478-515 | under the danger basis the danger score is the score, and neither inventory nor ownership changes it |
| `Risk.CombinedBasisAddsGovernance` | shadowscan/risk.py:446-447 | under the combined basis the two subtotals differ by exactly the governance weights |
| `Risk.LevelIsMonotone` | shadowscan/models.py:214-223 | a higher score is never a lower level; the thresholds are 75, 50, 25 and above 0 |
| `RiskMeaning.ScoreMeans` | shadowscan/risk.py:449-451 | the score is the whole number nearest to the subtotal times 0.6 to 1.0, by confidence, kept within 0 and 100 |
| `RiskMeaning.ExplanationMeans` | shadowscan/risk.py:452-466 | a scaling factor is listed exactly for a confidence below 1 and a bounds factor exactly when the rest explains less than 0 or more than 100; together they lead from the subtotal to the score |
| `RiskMeaning.GovernanceMeans` | shadowscan/risk.py:478-518 | which governance factors an assessment has, with which weights, and that each comes at most once and under the combined basis only |
| `Confidence.Finding.RecomputeConfidence` | shadowscan/models.py:502-528 | confidence is one minus the product over groups of one minus the strongest weight, rounded to three places |
| `Confidence.TakeOut` | shadowscan/models.py:525-526 | the product does not depend on the order of the groups |
| `Confidence.ConfidenceGrows` | shadowscan/models.py:502-513 | confidence lies between 0 and 1 and never falls when evidence is appended |
| `Confidence.ConfidenceIgnoresOrder` | shadowscan/models.py:517-524 | the order of the evidence does not matter, although code evidence without a group is keyed by its position |
| `Confidence.RepetitionAddsNothing` | shadowscan/models.py:505-510 | repeating an observation of a group adds nothing |
| `Confidence.LikelihoodMeans` | shadowscan/models.py:181-203 | the likelihood words divide the confidences at 0.3, 0.6 and 0.85 |
| `Framing.EncodeResult` | shadowscan/plugin_process.py:88-98 | the chunks joined, or a refusal exactly when they exceed the limit |
| `Framing.LengthRoundTrip` | shadowscan/plugin_process.py:227-227 | a length that fits the prefix survives it |
| `Framing.ReadExactly` | shadowscan/plugin_process.py:244-255 | exactly the requested bytes, an early end only if the stream is too short, a timeout only at the deadline; the loop ends by bytes left and time left |
| `Framing.Receive` | shadowscan/plugin_process.py:258-267 | the declared number of bytes after the prefix, refused before its body is read when over the limit |
| `Framing.WaitSliceIs` | shadowscan/plugin_process.py:83-85 | a wait is the time left, at most a day, and nothing once the deadline has come |
| `Framing.Exchange` | shadowscan/plugin_process.py:223-228 | for every payload, split of the stream, delay and trailing bytes: the payload sent is received unchanged, or the read ends with the deadline passed |

## Left out

- Connectors, HTTP, Git, process spawning, signals and file reading: input and output; their results are arbitrary.
- The sanitizer, the signature index and the metadata merge of duplicate findings are not part of this model.
- The `autonomy` label folding, gate and cadence metadata: the classifier reads them as already interpreted fields.
- Tag order: `Observation` keeps the tags as a list, but classification reads them as a set, as the source does.
- Identifier parsing in correlation (`_global_resource`, `_identity_text`): each identifier and scope field arrives with what the parser makes of it.
- Eviction.CacheDirectory.RemoveEntry: what a removal meets at its slot is an input, since `SlotLock` has the lock itself; a file that another process put in place of a listed one counts as the listed one.
- Runtime and lifecycle correlation and their pruning: one-directional lookups over the same groups.
- Building a collection scope and live scope records: a comparison only uses whether the digest is present and equal.
- The report metadata of a comparison (`age_days`, exported records): only ids, changed fields and drift are modelled.
- Character classes whose first range is empty: the pattern compiler may then read a later `!` as a negation; here the range matches nothing. Escaped patterns never contain one.
- RegistryEntries.MatchState.Match: the outcomes of the identity checks and the names that suggest entries arrive as inputs; the helpers behind them are not part of this model.
- TrustedApprovals.Approvals.constructor: the texts of the warnings are left out, not what they count.
- Record parsing (`parse_registry_record`): records arrive parsed, or as malformed.
- Merging.Finding.Absorb: owner and evidence weights keep the first observation by design and are not part of the joined view; the merge of metadata is not part of this model.
- Fleet.VerdictIsJoin: the reasons and suggestions written beside a verdict keep the first source's values and are not modelled.
- Fleet source statistics, timestamps and the fleet's own collection scope: bookkeeping.
- Risk.Assess: capability, tag, provider, metadata and autonomy factors arrive as a list; the table lookups that make them are left out.
- Confidence.Finding.RecomputeConfidence: weights and products are exact reals, so binary rounding is not modelled.
- ConfigGraph.ExpandEnv: the replacement of variables in one string is a parameter.
- Framing.ReadExactly: time passes in whole ticks; the socket is the sequence of receives a schedule prescribes.
- The dashboard, command line, reporters, triage client and MCP registry lookups: presentation and lookups, not modelled.
