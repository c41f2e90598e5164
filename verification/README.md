# Easy-A: sync, scoring and caches, in Dafny

Easy-A serves a university class search. A worker sweeps the registrar's whole-term schedule, stores
only what changed, and keeps a table of ranking rows derived from historical grades. This project
models the parts of it where two ways of doing one thing must agree, and proves that they do.

Five parts, each in its own group of modules:

* **Live sync.** `SweepPlan`, `Scope`, `Gate` and `DbLoad` decide; `SweepApply`, `ApplySweepPlan` and
  `Rankings` write; `StateCache` and `Fingerprint` keep the worker's copy of a term; `SweepRun` and
  `SweepTransaction` put one sweep together as a transaction that is busy, rolled back, rehearsed or
  committed; `WorkerRun` runs them among other writers. `Schema` holds the tables as one value. The main
  results are in `SweepHistory`, `WorkerRun`, `SweepTransaction`, `RankingCoherence`, `StateReload`,
  `SecondSweep` and `RepeatedSweep`. `GateMeaning`, `SweepMeaning`, `SweepResult`, `RunResult` and
  `CacheAge` say of whole sweeps, in terms of the stored sections and the listed rows alone, when one goes
  through, what the tables then show and how old the kept state can be.
* **Grade analytics.** `Grades`, `Scoring`, `Instructors`, `Breakdown`, `Evidence` and `EvidenceQueries`
  lead to `CourseAnalytics` (one course at a time) and `TermAnalytics` (the whole term, indexed and
  memoised), which must agree. `ScoreMeaning` and `BreakdownMeaning` write every figure out over plain sums
  of grade rows. `Monotonicity`, `PinnedRow` and `Inventory` relate the scores to what else is shown or
  reported; `EvidenceCache`, `EvidenceTrust` and `EvidenceWriters` keep the evidence between sweeps.
* **Cadence.** `Windows`, `CadenceLaws`, `Runner` and `Freshness`.
* **Response cache and page scan.** `ResponseCache`, `CacheLaws`, `PageScan`, `Reconcile`.
* **Historical backfill.** `Fetch`, `BackfillSelect`, `Backfill`, `BackfillLaws`, `BackfillMeaning`,
  `SecondBackfill`, `Rollback`, `RollbackLaws`.

Objects that the service changes in place are classes here (`Rankings.Session` for the open database
session, `SweepStateCache`, `GradeEvidenceCache`, `ResponseCache`), and loops are loops, each proved
against a function of its inputs. The laws are stated about those functions, and the modules named
`...Meaning` and `...Result` say what the functions compute without using them.

Choices that a reader of the laws should know:

* A joined grade row, a term view and a course choice are read from queries whose row order is not
  fixed. Where the order could show, the methods take the rows in any order and the result is proved
  to be the same.
* What a ranking row shows beyond its analytics (titles, meeting times, syllabus marks) is an arbitrary
  function of the section's non-seat columns and its current instructor; the proofs hold for every such
  function. `refreshed_at` is ignored.
* Grade counts and scores are exact reals and recency weighting is off, so sums have no order.
* A local calendar is any function from days to instants in which no day is shorter than 23 hours.
* Environment readings (clock, jitter, lock, responses, catalog answers, faults, the server's pages) are
  parameters, and the laws quantify over all of them.
* Where the code promises less than its prose, the code is followed, and the exact condition is proved.
  The hourly floor holds of the planned start. Waking up late can carry an actual start past the end of
  a window (`src/easy_a/sync/runner.py:103`), and the single operator sweep compares with the earliest
  next start alone: either keeps the hour exactly when the window of that start outlasts it
  (`Runner.LateWakeUps`, `CadenceLaws.OnceAgainstTheHour`). Seats stay fresh up to the next planned sweep
  exactly under `CadenceLaws.FreshExactly`: always without failures, not always after one. Across a
  restart the 300 s floor holds for the last start when it was recorded, and otherwise exactly under
  `Runner.RestartsAndTheFloor`: a sweep can crash, or fail without a record
  (`src/easy_a/sync/sweep.py:403`). The state cache promises to notice re-marked sections; it does,
  except exactly when markings and restorations balance (`Fingerprint.BlindSpot`,
  `StateCache.UnseenMarksMislead`). The pinned row of an instructor (`PinnedRow.PinnedRowAgrees`), the
  append of a name (`Convergence.AppendSettles`) and a rollback handed foreign ids
  (`RollbackLaws.DeleteAndLiveTerms`) have their exact conditions too.

`dafny verify dfyconfig.toml` checks everything.

## Model

| member | source | states |
|---|---|---|
| SweepTransaction.RunSweep | src/easy_a/sync/sweep.py:188-251 | one sweep with the worker's two caches ends in exactly the tables, outcome and last-success count of a sweep that re-reads the whole term; busy and rehearsal leave the state cache alone, failure rolls back and empties it, a commit keeps a current one; the evidence cache is never emptied and stays right for the tables as committed or rolled back |
| WorkerRun.RunSweepsAmong | src/easy_a/sync/sweep.py:188-251 | a whole run of sweeps with one state cache and one evidence cache, with other writers inserting and deleting rows of any term, grades included, and re-marking sections between them, ends where the run without caches ends, as long as no changes of marks cancel out unseen |
| WorkerRun.OneWayRunsShow | src/easy_a/sync/apply.py:120-129 | writers that only mark sections, or only restore them as the operator's restore does, never cancel out |
| WorkerRun.AmongNobody | src/easy_a/sync/sweep.py:188-251 | when nobody else writes, that run is the plain run of sweeps and no marks cancel out |
| WorkerRun.RunSweeps | src/easy_a/sync/sweep.py:188-251 | so a worker alone, its two caches kept over every busy, failed, rehearsed and committed sweep, ends where the run without them ends |
| SweepTransaction.SweepInTransaction | src/easy_a/sync/sweep.py:254-367 | scope, load, gate, course adding, diff, apply and stage decide exactly as the cache-free decision and stage a full view of the new tables; evidence read from the written tables still answers for the tables before them |
| SweepHistory.RunKeepsRankingsCoherent | src/easy_a/rankings/cache.py:75-257 | over any run of busy, failed, rehearsed and committed sweeps the cached ranking rows equal a whole-term rebuild, although each sweep rebuilt only the courses it touched or none |
| SweepHistory.AfterKeepsSound | src/easy_a/sync/sweep.py:188-251 | every outcome keeps one section per term and CRN, known courses, owned histories and ordered primary keys |
| SweepHistory.AfterKeepsCoherent | src/easy_a/sync/sweep.py:254-367 | one sweep, courses added from the catalog included, keeps the ranking cache coherent |
| SweepHistory.AfterKeepsEvidence | src/easy_a/analytics/queries.py:638-658 | no outcome of a sweep changes the joined pre-term grade rows, the recorded names of their sections or the evidence fingerprint, nor any row of an earlier term |
| RankingCoherence.SweepKeepsRankingsCoherent | src/easy_a/sync/apply.py:376-442 | every active section keeps its full-rebuild row and removed ones have none after the scoped rebuild, or after none when the plan is not structural |
| RankingCoherence.CoherentIsFullRebuild | src/easy_a/rankings/cache.py:75-257 | the cache is coherent if and only if a whole-term rebuild would change nothing |
| RankingCoherence.UntouchedRanking | src/easy_a/sync/plan.py:121-129 | the row of a section outside the changed ids is the same before and after the writes: seat-only changes and other courses' sweeps cannot show in it |
| ApplySweepPlan.SweepKeepsValid | src/easy_a/sync/apply.py:312-414 | applying a plan of the diff keeps every table invariant |
| ApplySweepPlan.Apply | src/easy_a/sync/apply.py:312-414 | the ordered writes and the scoped rebuild from the kept evidence give the specified tables, the returned ids are exactly the sections written, and the evidence cache stays right should they be rolled back |
| ApplySweepPlan.ChangedCourseKeys | src/easy_a/sync/apply.py:417-442 | every section of any other course was there before the sweep and kept its removal mark and its full-rebuild ranking row; every key is the course of a section the plan wrote |
| SweepApply.WritePlan | src/easy_a/sync/apply.py:326-374 | inserts, updates, appends, removals, restores and last-seen bumps, done in order, have the stated net effect |
| SweepApply.MarkSections | src/easy_a/sync/apply.py:346-374 | removing, restoring and last-seen marking, one pass after the other, compose to the stated effect on each section and nothing else |
| SweepResult.SweepShowsResponse | src/easy_a/sync/apply.py:312-374 | after a succeeded sweep every listed section holds its row in full, is not removed and was seen at the fetch; every followed section not listed is removed at the fetch; all others are as they were; and every new section is a row of the response |
| SweepResult.SweepShowsHistories | src/easy_a/sync/apply.py:324-374 | after a succeeded sweep at a new time every listed section shows its row's instructor and seats |
| SweepResult.SweepAppendsWhatItSaw | src/easy_a/sync/apply.py:324-374 | histories only grow, and each new entry is a listed row's name or seats at the fetch |
| SweepResult.ListedSeatsStayFresh | src/easy_a/rankings/cache.py:280-310 | judged from the instant the sweep wrote into the section, the seats of every listed section stay fresh up to the next planned sweep |
| Rankings.RefreshSectionRankings | src/easy_a/rankings/cache.py:75-257 | the scoped or whole-term rebuild stores exactly the full-rebuild row of each selected section, drops removed ones and touches nothing else |
| Rankings.BatchRowsAreOwn | src/easy_a/rankings/cache.py:117-160 | the batch analytics hold, under each CRN, the section's own row |
| SweepFrame.EvidenceKept | src/easy_a/analytics/queries.py:526-594 | writes inside one term leave the joined grade rows of earlier terms and the recorded names of their sections alone |
| SweepFrame.WrittenWithinTerm | src/easy_a/sync/apply.py:312-374 | a plan of the diff writes only sections of its own term and keeps their identity |
| SweepPlan.BuildSweepPlan | src/easy_a/sync/plan.py:176-224 | one pass over the rows and one over the stored sections build every part of the plan, including unknown courses and removals |
| SweepPlan.RemovalsAreTheMissing | src/easy_a/sync/plan.py:209-234 | the number of removals is the number of missing active sections the gate judges |
| PlanFacts.PlanIsGood | src/easy_a/sync/plan.py:176-224 | every plan writes only sections of its term, inserts only CRNs the term does not hold, for known courses, each once |
| PlanFacts.UpdatesSpec | src/easy_a/sync/plan.py:197-200 | each known row records exactly its changed columns under its own section, and nothing else is recorded |
| SweepMeaning.UpdatesAreTheDifferences | src/easy_a/sync/plan.py:165-200 | an update of a section holds exactly the columns in which stored and fetched values differ, with the fetched values, and stands exactly for the listed sections that differ somewhere |
| SweepResult.HistoriesGrowOnChange | src/easy_a/sync/plan.py:154-207 | a name or seats are appended exactly for the listed sections whose state does not show them |
| PlanFacts.AppendsSpec | src/easy_a/sync/plan.py:203-204 | the instructor appends are exactly those of the rows whose name changed, one per section |
| PlanFacts.SnapshotsSpec | src/easy_a/sync/plan.py:205-207 | the snapshot appends are exactly those of the rows whose seats changed, one per section |
| PlanFacts.RemovalsInTerm | src/easy_a/sync/plan.py:209-213 | a section is removed if and only if it is active, in scope and not listed |
| PlanFacts.UnknownSpec | src/easy_a/sync/plan.py:237-248 | a course is unknown exactly when a row with a new CRN names it and no course has its key |
| Scope.ApplyScope | src/easy_a/sync/scope.py:61-103 | keeps the undergraduate Tampa rows, counts every dropped row under the first rule it fails, and refuses exactly the CRNs that repeat |
| Scope.UndergraduateByFirstDigit | src/easy_a/sync/scope.py:27-34 | a number is undergraduate exactly when it starts with four digits, the first below five |
| Scope.CampusUpToCase | src/easy_a/common/campus.py:8-12 | case and surrounding blanks never decide the campus |
| Convergence.AppendSettles | src/easy_a/sync/plan.py:154-163 | after an append the next diff sees no change if and only if the new observation is later than the stored ones or ties a blank latest state |
| SecondSweep.SecondSweepIsQuiet | src/easy_a/sync/plan.py:176-224 | planned again from the state after apply, nothing is inserted, updated, restored or removed and the same courses stay unknown; histories grow again exactly where the first entry did not become the latest |
| SecondSweep.LaterSweepConverges | src/easy_a/sync/plan.py:176-224 | at a time later than all stored ones the whole second plan is empty |
| SecondSweep.AppendsAgain | src/easy_a/common/instructors.py:98-122 | a name is appended again exactly when it was appended and did not settle |
| SecondSweep.SnapshotsAgain | src/easy_a/sync/apply.py:278-309 | seats are recorded again exactly when a stored snapshot is newer than the sweep |
| SecondSweep.NothingToRemove | src/easy_a/sync/plan.py:209-213 | a removed section is not removed twice, and no other becomes missing |
| RepeatedSweep.RepeatedSweepConverges | src/easy_a/sync/sweep.py:254-367 | end to end: a later sweep of the same response that goes through plans no write at all and reports the same unknown courses, as long as the catalog still has no answer for those |
| RepeatedSweep.RepeatedSweepGoesThrough | src/easy_a/sync/sweep.py:254-367 | it goes through, whatever the override, exactly when the subjects of the active sections pass: the missing-share, row-floor and zero-row rules cannot trip |
| RepeatedSweep.AddedIdsAreRead | src/easy_a/sync/sweep.py:170-185 | the course ids resolved right after adding courses are the ids the next sweep reads |
| SweepState.LoadTermSections | src/easy_a/sync/apply.py:231-246 | reads every section of the term with its current instructor state and latest seats |
| SweepState.ReloadSections | src/easy_a/sync/apply.py:249-275 | replaces the given sections in the view and keeps the rest |
| StateReload.ReloadIsFullLoad | src/easy_a/sync/apply.py:249-275 | re-reading only the ids a plan touched gives the view a full re-read gives |
| StateReload.PatchedView | src/easy_a/sync/apply.py:249-275 | patching a view is enough as soon as every other section looks the same |
| StateCache.SweepStateCache.Load | src/easy_a/sync/apply.py:145-160 | reuses the kept state if and only if it is of this term, was loaded less than the limit ago and its fingerprint is unchanged; else reads in full and forgets the old one |
| StateCache.SweepStateCache.Stage | src/easy_a/sync/apply.py:162-165 | stages the re-read view and fingerprint without publishing it |
| StateCache.SweepStateCache.Commit | src/easy_a/sync/apply.py:167-170 | publishes what was staged |
| StateCache.SweepStateCache.Invalidate | src/easy_a/sync/apply.py:172-173 | forgets everything |
| CacheAge.Serve | src/easy_a/sync/apply.py:133-173 | over any loads, stagings, commits and invalidations, whatever others edited in place between them, every answer goes back to a full read less than the limit before it |
| StateCache.TrustedLoadIsCurrent | src/easy_a/sync/apply.py:145-160 | a reused state is the current full view, whatever others inserted, deleted and re-marked meanwhile, unless their changes of marks cancel out |
| StateCache.TrustSurvivesWriters | src/easy_a/sync/apply.py:120-129 | trust in the kept state survives a further history of other writers if and only if their changes of marks do not cancel out against those since it was read |
| StateCache.UnseenMarksMislead | src/easy_a/sync/apply.py:120-160 | a kept state of acceptable age is reused although the view differs if and only if the changes of marks cancel out |
| Fingerprint.FingerprintSeesWriters | src/easy_a/sync/apply.py:176-194 | if new ids exceed all issued ones, any history that changes the term's section, observation or snapshot ids changes the fingerprint, whatever columns it edits in place besides |
| Fingerprint.FingerprintExactly | src/easy_a/sync/apply.py:176-194 | whatever was inserted, deleted or edited, the fingerprint is unchanged if and only if the ids are the same and as many kept sections were newly marked as were restored |
| Fingerprint.BlindSpot | src/easy_a/sync/apply.py:120-194 | for histories of inserted, deleted and re-marked rows: the fingerprint hides a changed view if and only if the ids are the same, markings and restorations balance, and some mark differs |
| Fingerprint.OneWayMarksShow | src/easy_a/sync/apply.py:120-129 | changes of marks in one direction, marking only or restoring only, always show |
| StateCache.ForeignRowsForceFullLoad | src/easy_a/sync/apply.py:145-160 | after such a history the next load is a full reload |
| Fingerprint.SameFingerprintSameView | src/easy_a/sync/apply.py:176-194 | outside that blind spot an unchanged fingerprint means an unchanged view |
| Fingerprint.SwappedMarksAreNotSeen | src/easy_a/sync/apply.py:176-194 | an input of the blind spot: one section marked removed while another is restored |
| DbLoad.LoadDbState | src/easy_a/sync/apply.py:52-104 | with or without a cache, the diff reads the full view, the preferred course of each key and the gate's counts |
| DbLoad.LoadCourseIds | src/easy_a/sync/apply.py:80-88 | each key of the requested subjects stands for its course of the highest edition, then id |
| DbLoad.ChosenIsNewest | src/easy_a/sync/apply.py:80-88 | no other course of the key has a newer edition, or the same edition and a higher id |
| CourseAdding.AddedKeepsCoherent | src/easy_a/sync/sweep.py:297-307 | a course that no grade row or section refers to cannot show in any ranking, so adding courses leaves the cache coherent |
| CourseAdding.AddedKeepsView | src/easy_a/sync/sweep.py:297-307 | nor in the term view |
| SweepTransaction.AddCourses | src/easy_a/sync/sweep.py:297-307 | stores the catalog answers for the missing courses and teaches the diff their ids |
| Gate.EvaluateGate | src/easy_a/sync/gate.py:78-118 | reports each rule if and only if it fails, and nothing exactly when the response is accepted |
| GateMeaning.OutcomesExactly | src/easy_a/sync/sweep.py:188-367 | every outcome of every sweep: busy exactly without the lock, else succeeded or rehearsed exactly when nothing disturbed it and the rules on the counts hold; all else fails |
| GateMeaning.SweepGoesThrough | src/easy_a/sync/sweep.py:277-294 | undisturbed, a sweep succeeds if and only if something in scope is listed, at most the accepted share of the followed active sections is missing, the accepted share of the last succeeded sweep's rows is reached and at most the accepted number of subjects is lost, for every override |
| GateMeaning.DefaultGate | src/easy_a/sync/gate.py:56-118 | without an override: at most a tenth missing, nine tenths of the rows of the last succeeded sweep, and at most two or a fiftieth of the subjects lost, in whole numbers |
| RunResult.JudgedByLastSuccess | src/easy_a/sync/sweep.py:277-294 | after any run, busy, failed and rehearsed sweeps included, the next one is measured against the rows of the last succeeded sweep, and goes through exactly under the four rules over the tables as they then are |
| Gate.OverrideMonotone | src/easy_a/sync/gate.py:56-75 | a larger override accepts every response a smaller one accepts; one tenth is the default |
| Gate.OnlyZeroRowsAreRefusedAtOne | src/easy_a/sync/gate.py:56-118 | no override accepts zero rows, and the full override accepts everything else |
| Gate.AddingNeverTrips | src/easy_a/sync/gate.py:78-118 | more rows, fewer missing sections and fewer absent subjects never turn acceptance into refusal |
| Gate.BoundedRemoval | src/easy_a/sync/gate.py:94-101 | an accepted sweep removes at most the allowed share of the active in-scope sections, a tenth by default |
| TermAnalytics.GetTermSectionHistoricalAnalytics | src/easy_a/analytics/queries.py:375-502 | the indexed and memoised whole-term build returns exactly the per-course results, concatenated in key order, for any order of the fetched rows |
| CourseAnalytics.GetCurrentSectionHistoricalAnalytics | src/easy_a/analytics/queries.py:281-372 | the per-course build returns the specified rows for any order of the fetched rows |
| Analytics.CourseRowsPermutation | src/easy_a/analytics/queries.py:782-915 | the order in which grade rows are fetched never shows in a course's results |
| Evidence.LoadEvidence | src/easy_a/analytics/queries.py:526-594 | the loaded evidence holds every joined row once and its inverted index lists exactly the rows of each course |
| EvidenceQueries.ForCourseIds | src/easy_a/analytics/queries.py:596-605 | an index lookup over several courses returns the attributed rows, each once, in row order |
| EvidenceQueries.InstructorObservations | src/easy_a/analytics/queries.py:607-635 | grouping by instructor keeps exactly the non-laboratory rows of sections of these courses under each usable name |
| TermAnalytics.ScoreSections | src/easy_a/analytics/queries.py:452-500 | memoised instructor statistics and breakdowns are those computed afresh for each section |
| TermAnalytics.SplitSections | src/easy_a/analytics/queries.py:416-431 | one sorted read of the term, split by course, is the sorted read of each course |
| EvidenceCache.GradeEvidenceCache.Get | src/easy_a/analytics/queries.py:652-658 | returns evidence that answers for the current tables and reads it again exactly when the fingerprint differs |
| EvidenceTrust.SweepKeepsTrust | src/easy_a/analytics/queries.py:638-683 | writes inside the swept term leave the evidence fingerprint as it was, and kept evidence answers for the tables before them if and only if it answers for those after: it survives commits and rollbacks |
| EvidenceTrust.SameEvidenceSameTrust | src/easy_a/analytics/queries.py:638-683 | tables with the same pre-term evidence and fingerprint cannot be told apart by the cache |
| EvidenceWriters.EvidenceKeySeesRows | src/easy_a/analytics/queries.py:661-683 | if new ids exceed all issued ones, inserting or deleting a grade row, section or observation of an earlier term changes the evidence fingerprint |
| EvidenceWriters.SameKeySameEvidence | src/easy_a/analytics/queries.py:638-683 | so for histories that do not edit kept rows of earlier terms an unchanged fingerprint means unchanged evidence |
| EvidenceWriters.GradeEditsAreSeen | src/easy_a/analytics/queries.py:661-683 | an edit of the total or the course of one pre-term grade row changes the fingerprint |
| EvidenceWriters.CourseEditsAreSeen | src/easy_a/analytics/queries.py:661-683 | an edit of the course of one pre-term section changes the fingerprint |
| Grades.AggregateGradeObservations | src/easy_a/analytics/grades.py:98-142 | counts, distinct sections, mapped sections and terms accumulate to the aggregate |
| Grades.AggregatePermutation | src/easy_a/analytics/grades.py:98-142 | the aggregate does not depend on the order of the observations |
| Scoring.SmoothBetween | src/easy_a/analytics/scoring.py:70-84 | the smoothed value lies between the observed value and the prior, moved by n / (n + strength) |
| ScoreMeaning.CourseStatsMeaning | src/easy_a/analytics/queries.py:705-766 | over plain sums of the grade rows: a course's figures come from its own rows, else its subject's other rows, else nothing, each shrunk by n / (n + strength) toward the next wider level with the strengths of a course |
| ScoreMeaning.ComputedFigures | src/easy_a/analytics/scoring.py:70-151 | raw value, shrunk value and easiness of each kind of score, with the instructor's prior strength exactly for an instructor's own history |
| ScoreMeaning.ShrunkInRange | src/easy_a/analytics/scoring.py:70-84 | with raw value and prior between 0 and 1 the shrunk value is prior + n / (n + strength) times their difference, nothing clamped |
| ScoreMeaning.SectionMeaning | src/easy_a/analytics/queries.py:335-364 | a section is scored from its instructor's own rows exactly when they suffice and it is no laboratory, with the course's smoothed values as priors; else from its course |
| ScoreMeaning.JoinedRowsMeaning | src/easy_a/analytics/queries.py:526-594 | the evidence holds each grade row of an earlier term once, with the columns of the section of its term and CRN, if there is one |
| Scoring.SmoothMonotone | src/easy_a/analytics/scoring.py:70-84 | smoothing keeps order in the observed value and in the prior |
| Scoring.EasinessMonotone | src/easy_a/analytics/scoring.py:87-97 | a better smoothed grade never lowers easiness |
| Scoring.EasinessFallsWithWithdrawals | src/easy_a/analytics/scoring.py:87-97 | a higher smoothed withdrawal rate never raises easiness |
| Monotonicity.BetterGradesNeverHurt | src/easy_a/analytics/queries.py:705-766 | raising letters in grade rows lowers no section's easiness in the whole-term build and changes no source, evidence size or withdrawal rate, through all priors and shrinkage |
| Monotonicity.MovingOneStudentUp | src/easy_a/analytics/queries.py:375-502 | the same for one student of one grade row |
| PinnedRow.PinnedRowAgrees | src/easy_a/analytics/queries.py:99-189 | a section scored from its instructor's own history has a ready breakdown with one current row of the same easiness and evidence, if and only if that history carries letter grades |
| PinnedRow.DefaultPinned | src/easy_a/analytics/queries.py:461-500 | with a positive evidence minimum, the default, that is always so |
| PinnedRow.TaughtRowsAreAmong | src/easy_a/analytics/queries.py:864-915 | an instructor's rows are a sub-multiset of the course's rows, and all of them are mapped |
| PinnedRow.TaughtWithinCourse | src/easy_a/analytics/queries.py:864-915 | so their letters, totals and withdrawals are bounded by the course's |
| Breakdown.BuildInstructorBreakdown | src/easy_a/analytics/queries.py:99-189 | for any order of the instructors: lists or collapses each, in the displayed order, with the stated status |
| BreakdownMeaning.BreakdownMeansWhatItShows | src/easy_a/analytics/queries.py:99-189 | the report's lines, shares, totals, terms and collapsed count, written out over the joined rows each instructor taught |
| BreakdownMeaning.AnalyticsMeanWhatTheySay | src/easy_a/analytics/queries.py:375-502 | every row of the build belongs to an active section of a requested course, with score and breakdown as written out over the grade rows of earlier terms |
| BreakdownMeaning.RankingExplained | src/easy_a/rankings/cache.py:75-257 | so is every ranking row that a rebuild stores |
| Schema.LaboratoryUpToCase | src/easy_a/common/section_types.py:19-28 | case and spacing never decide whether a section is a laboratory |
| Inventory.AggregateGradeRows | scripts/inventory_tampa_grades.py:472-482 | per-course row counts and sums are those of the scorer's joined rows; later rows feed no course |
| Inventory.RollUpMatches | scripts/inventory_tampa_grades.py:472-630 | when rows agree with the section they join, the inventory's sums equal the scorer's aggregate; rows of no course may be among them |
| Inventory.InventoryAgreesWithScorer | scripts/inventory_tampa_grades.py:288-423 | a row the scorer wrote is evidence-backed or a listed exception, except `history_not_used` exactly when the course's totals are all zero and `unclassified` exactly when the subject fallback has no letter grade |
| Inventory.StatesMeanWhatTheySay | scripts/inventory_tampa_grades.py:288-423 | each state of any cache row whatever, exactly, the failing ones included: what the row claims against what the evidence holds |
| Instructors.GetCurrentInstructorStates | src/easy_a/common/instructors.py:60-95 | the one-read version resolves every section as the single-section rule does |
| Instructors.CurrentStateMeaning | src/easy_a/common/instructors.py:98-145 | blank, one name or ambiguous exactly as the names observed at the latest time say, up to case and spacing |
| Instructors.StateAfterLater | src/easy_a/common/instructors.py:98-122 | a later observation alone decides the state |
| Instructors.StateAfterTie | src/easy_a/common/instructors.py:98-122 | an observation at the latest time joins the names of that time |
| Instructors.UniqueAppend | src/easy_a/common/instructors.py:139-145 | a name counts once up to case and spacing; blanks never count |
| Instructors.UsableUpToCase | src/easy_a/common/instructors.py:126-136 | case and surrounding blanks never decide whether a name is usable; blanks and staff never are |
| CadenceLaws.StartsAreSpaced | src/easy_a/sync/windows.py:142-178 | a planned start is never before now, at least 300 s after the previous start, and at least 3600 s after it outside every window |
| CadenceLaws.StartsAreBounded | src/easy_a/sync/windows.py:142-178 | a planned start is at most max(now, previous + 4320 s), even under backoff |
| CadenceLaws.OpeningsAreMet | src/easy_a/sync/windows.py:172-178 | no opening after the previous start is slept through |
| CadenceLaws.BackoffIsKept | src/easy_a/sync/windows.py:158-160 | a failed sweep is not repeated before its backoff unless a window opens first |
| CadenceLaws.PlannedStartIsLeast | src/easy_a/sync/windows.py:142-178 | the planned start is the least instant that meets every rule: now, the stretched interval or backoff, the hour outside windows, and an opening that comes first |
| CadenceLaws.JitteredIntervalIsKept | src/easy_a/sync/windows.py:142-178 | a start waits the interval of its tier times the jitter, unless a window opens first |
| CadenceLaws.FreshUntilNextStart | src/easy_a/sync/windows.py:160-195 | without failures, what a sweep that started at one instant verified at a later one and ended by is within the fresh limit at every instant up to the next planned start, across openings, closings and touching windows |
| CadenceLaws.FreshExactly | src/easy_a/sync/windows.py:142-195 | for any verified instant, wait, failures and length of sweep: the wait for the next planned start is fresh throughout if and only if it ends within 4500 s and, when it is longer than 375 s from inside a window, that window closes by then and the wait ends outside |
| CadenceLaws.FreshAfterFailure | src/easy_a/sync/windows.py:156-160 | when a sweep fails in the window in which an earlier one verified, seats stay fresh up to the retry if and only if the window closes within 375 s of the verification and the retry is within that limit or outside and within 4500 s |
| CadenceLaws.FailureOutlastsFresh | src/easy_a/sync/windows.py:156-160 | a concrete failure after which they do not |
| CadenceLaws.LateStartsAndTheHour | src/easy_a/sync/windows.py:142-178 | every start from the planned one on, however late, keeps the hour outside windows if and only if the window of the planned start, if any, outlasts the hour or touches the next |
| CadenceLaws.OnceAgainstTheHour | src/easy_a/sync/cli.py:375-388 | an operator's single sweep keeps the 300 s floor always, and the hour exactly under that condition on the earliest next start |
| CadenceLaws.OnceCanBreakTheHour | src/easy_a/sync/cli.py:375-388 | a concrete calendar on which a single sweep breaks the hour |
| Windows.ContainsByDay | src/easy_a/sync/windows.py:123-127 | an instant is in a window exactly when its local day is |
| Windows.EarliestOpening | src/easy_a/sync/windows.py:133-140 | the search in file order finds the earliest opening after an instant |
| Windows.BackoffDoubles | src/easy_a/sync/windows.py:198-201 | 600, 1200, 2400 s, then the hour |
| Runner.RunLoop | src/easy_a/sync/runner.py:47-100 | every start is planned by the cadence from the last start and the failures so far, keeps its floors and bounds, waits for its target, and the loop ends only at a stop, an interrupted wait or the asked number of sweeps |
| Runner.LateWakeUps | src/easy_a/sync/runner.py:66-114 | the actual start of any sweep of the loop keeps the hourly floor, however late it wakes up, if and only if the window of its planned start outlasts the hour |
| Runner.LateWakeUpBreaksTheHour | src/easy_a/sync/runner.py:103-114 | a concrete wait that ends late and outside, within the hour |
| Runner.WaitUntil | src/easy_a/sync/runner.py:103-114 | ends on time at the first reading at or past the target, unless stopped first |
| Runner.StartsAreRateLimited | src/easy_a/sync/runner.py:66-98 | any n further actual starts take at least n times 300 s on a monotone clock, whatever mix of success, failure and busy occurs |
| Runner.RecordedAreGapped | src/easy_a/sync/runner.py:66-98 | recorded starts of one process are at least 300 s apart and after its seed |
| Runner.RunProcesses | src/easy_a/sync/cli.py:260-266 | across restarts seeded with the latest recorded start, every planned start keeps the floors of its tier and recorded starts are 300 s apart |
| CadenceLaws.UnrecordedStartAndTheFloor | src/easy_a/sync/windows.py:142-178 | planned from an earlier recorded start, every restart keeps 300 s from a later unrecorded one if and only if that fell outside every window, 300 s before the recorded hour ends, with no window opening in the 300 s after it |
| Runner.RestartsAndTheFloor | src/easy_a/sync/runner.py:60-66 | over any history of processes that crash or fail to record: a restart keeps 300 s from the last start of all, whenever it comes, if and only if that start was recorded or the above condition holds of it |
| Runner.RestartCanSweepEarly | src/easy_a/sync/runner.py:60-66 | a concrete crash after which the restart sweeps 10 s later |
| Freshness.ClassifyObservation | src/easy_a/schedule/freshness.py:33-69 | refuses limits out of order; unavailable exactly without an observation in the past, else fresh exactly up to the one limit and stale exactly beyond the other |
| Freshness.VerifiedSeatsStayFresh | src/easy_a/schedule/freshness.py:72-144 | an unchanged section verified during a sweep shows fresh seats up to the next planned sweep, however old its snapshot |
| Freshness.SeatsJudged | src/easy_a/schedule/freshness.py:72-144 | verified seats are fresh to 375 s and stale beyond 600 s inside windows, 4500 s and 7200 s otherwise, counted from the later of snapshot and verification |
| Freshness.UnknownSeats | src/easy_a/schedule/freshness.py:72-106 | without a snapshot, or with all four seat columns empty, seats are unavailable |
| Freshness.LimitsWithoutCadence | src/easy_a/schedule/freshness.py:72-144 | both limits as set decide; a single one set is ignored for verified seats, which fall back to 600 and 1800 s without the cadence |
| Freshness.OlderIsNeverFresher | src/easy_a/schedule/freshness.py:33-69 | time alone never makes an observation look fresher |
| ResponseCache.ResponseCache.Get | src/easy_a/api/response_cache.py:53-61 | a hit is returned and becomes the most recent entry; an expired entry is dropped |
| ResponseCache.ResponseCache.Put | src/easy_a/api/response_cache.py:63-75 | an oversize body changes nothing; any other replaces its key's entry, becomes the most recent and evicts the oldest until the bytes fit |
| ResponseCache.ResponseCache.Drop | src/easy_a/api/response_cache.py:77-78 | removes one entry and keeps the byte count exact |
| CacheLaws.OrderIsRecency | src/easy_a/api/response_cache.py:53-78 | over any operations the entries stand in the order of their last accepted put or hit |
| CacheLaws.EvictsLeastRecentlyUsed | src/easy_a/api/response_cache.py:74-75 | after any operations an accepted put evicts the shortest prefix, in order of last use, that suffices |
| CacheLaws.EvictsShortestPrefix | src/easy_a/api/response_cache.py:74-75 | an entry stays if and only if it and everything after it fit |
| CacheLaws.AcceptedPutStays | src/easy_a/api/response_cache.py:66-75 | an accepted response survives its own evictions and the budget is kept |
| CacheLaws.RunIsSound | src/easy_a/api/response_cache.py:37-78 | after any operations keys are distinct, the budget is kept and every entry is the latest accepted put of its key |
| CacheLaws.HitIsLatestPut | src/easy_a/api/response_cache.py:53-61 | a hit is the latest accepted put of its key and younger than the time to live |
| CacheLaws.ServedExactly | src/easy_a/api/response_cache.py:53-61 | a key is served if and only if an entry of it is kept and its latest accepted put is younger than the time to live, and then with that put's body, headers and route |
| CacheLaws.PutIsKeptExactly | src/easy_a/api/response_cache.py:63-75 | a put is kept if and only if its body is at most an eighth of the budget; a larger one changes nothing |
| CacheLaws.MissLeavesNothing | src/easy_a/api/response_cache.py:53-61 | a look at a key that is not served leaves no entry of it |
| PageScan.ScanPages | scripts/verify_rankings_pages.py:170-238 | against any server the walk ends within the announced page count, and reports no reason if and only if the server answered every page of one strictly ascending list, which it then returns with exact source counts |
| PageScan.FindOrderViolation | scripts/verify_rankings_pages.py:154-167 | finds nothing exactly when the keys so far and the page ascend strictly, seam included |
| PageScan.PageCountIsCeiling | scripts/verify_rankings_pages.py:170-180 | the bound is the ceiling of total by page size, and one for an empty list |
| PageScan.StopIsJustified | scripts/verify_rankings_pages.py:194-229 | whenever the walk stops with a reason, no list at all is being served |
| Reconcile.ReconcileScan | scripts/verify_rankings_pages.py:241-278 | passes if and only if CRNs are distinct, equal the stored ones, all are Tampa and the counts agree; otherwise reports the first rule that fails, with the missing, extra or repeated CRNs |
| Reconcile.VerifyTerm | scripts/verify_rankings_pages.py:170-278 | end to end: passes if and only if the server lists exactly the stored sections, each once, and the stored counts agree |
| Reconcile.ServedOnce | scripts/verify_rankings_pages.py:170-238 | a server serves at most one list |
| Fetch.ParseWholeTerm | src/easy_a/sync/fetch.py:88-194 | refuses exactly for a bad chunk size, a missing header, lost rows, or, without quarantine, a row that does not normalise; otherwise every data row is returned, skipped or failed |
| Fetch.ChunksDoNotShow | src/easy_a/sync/fetch.py:130-164 | with a row-by-row table parser the chunk size cannot be told from the result |
| Fetch.ParseChunks | src/easy_a/sync/fetch.py:130-164 | the buffer loop is the chunked parse and counts the data rows |
| Fetch.RowsPartition | src/easy_a/sync/fetch.py:171-194 | every parsed row is exactly one of normalised, skipped and failed |
| Fetch.RowsExactly | src/easy_a/sync/fetch.py:171-194 | kept rows are what accepted rows normalise to, skipped ones what the gate turned away, and each failure stands under the position of its row |
| BackfillSelect.SelectBackfillRows | src/easy_a/schedule/backfill.py:264-357 | counts every row by its fate and every row to write by type and delivery, or refuses when an allowed row was set aside unread |
| BackfillSelect.KeptExactly | src/easy_a/schedule/backfill.py:302-315 | a row is written exactly when all grade rows of its CRN name its course, its campus is allowed and the course is known |
| BackfillSelect.SelectionCountsExactly | src/easy_a/schedule/backfill.py:264-357 | each count is the number of rows and set-aside rows it names, in plain conditions on row, grades and catalog; the rows to write stand in order |
| BackfillSelect.HistogramsMeaning | src/easy_a/schedule/backfill.py:264-357 | each histogram entry is the number of rows to write with that type or delivery, and the unusable names are the blank ones and staff |
| BackfillSelect.ReportLabelMeaning | src/easy_a/schedule/backfill.py:104-115 | a campus label is the cleaned campus cut to sixty characters, and never empty |
| BackfillSelect.SelectionConserves | src/easy_a/schedule/backfill.py:222-242 | fetched rows are those to write plus every skip plus failures, matched grade rows are those to write plus the skipped graded ones, and the campus labels and both histograms add up |
| BackfillSelect.GateBeforeNormalisingIsInvisible | src/easy_a/sync/fetch.py:171-194 | when all rows normalise, gating by campus before normalisation gives the selection that no gate gives |
| Backfill.WriteTermBackfill | src/easy_a/schedule/backfill.py:395-510 | refuses exactly the selections with a repeated CRN; otherwise the tables and counts are those specified: no snapshot, no removal, no other term |
| BackfillLaws.DiffersIsChanged | src/easy_a/schedule/backfill.py:385-392 | on stored histories the backfill asks for an observation exactly when the live diff would |
| BackfillMeaning.WriteStoresSelection | src/easy_a/schedule/backfill.py:395-510 | after the write every selected row is stored in full under its course and seen now, new sections are just the selected rows without one, and nothing else changes |
| BackfillMeaning.BackfillObservesOnChange | src/easy_a/schedule/backfill.py:385-392 | a stored section gets an observation exactly when its current state does not show the row's name |
| BackfillLaws.BackfilledKeeps | src/easy_a/schedule/backfill.py:395-510 | a stored section keeps term, CRN, removal mark and first sight, and other terms are untouched |
| BackfillLaws.WriteKeepsUnique | src/easy_a/schedule/backfill.py:395-510 | one section per term and CRN afterwards |
| SecondBackfill.SecondWriteIsQuiet | src/easy_a/schedule/backfill.py:395-510 | a second write inserts and updates nothing and appends nothing exactly when every appended name became the latest, which is always so at a new time |
| Rollback.SelectRollbackSections | src/easy_a/schedule/backfill.py:522-558 | selects exactly the never otherwise used sections of the asked historical terms and counts kept and eligible ones by term |
| RollbackLaws.RollbackTakesExactly | src/easy_a/schedule/backfill.py:522-558 | written out: sections of an asked historical term with observations, all of them the backfill's, and with no snapshot and no syllabus |
| RollbackLaws.DeleteBackfilledSections | src/easy_a/schedule/backfill.py:561-589 | deletes observations, rankings and historical sections of the given ids and counts the sections |
| RollbackLaws.RollbackTouchesNothingElse | src/easy_a/schedule/backfill.py:522-589 | every other section keeps its rows, and no history is orphaned |
| RollbackLaws.DeleteAndLiveTerms | src/easy_a/schedule/backfill.py:561-589 | handed any ids, the delete leaves the live terms alone if and only if no live section among them has observations or a ranking |
| RollbackLaws.WriteThenRollbackRestores | src/easy_a/schedule/backfill.py:395-589 | writing into a clean slate and rolling back restores sections, observations and rankings exactly |

## Left out

- Fingerprint.SameFingerprintSameView: holds for histories of inserted, deleted and re-marked rows; in-place edits of other columns never change the fingerprint.
- WorkerRun.RunSweepsAmong: other writers do not edit kept rows in place, removal marks apart; such edits that leave every count, sum and maximum unchanged are trusted by the code.
- Fetch.ChunksDoNotShow: assumes a table parser that reads each row on its own; HTML parsing, the header pattern and the anchor repair are not modelled.
- SweepTransaction.RunSweep: takes the last succeeded sweep as the latest one, where the code orders recorded runs by their start time, and takes the term's row as present.
- Scoring.SmoothBetween: exact reals; IEEE rounding, recency weights and the unrounded letter shares of the breakdown are left out, and negative prior strengths, on which the code raises, are excluded by the settings type.
- Gate.EvaluateGate: exact fractions; the float between an override and its complement, and the text of the reasons, are left out.
- Runner.RunLoop: over finite observations of the environment; signal handlers are left out.
- Backfill.WriteTermBackfill: appends the observations of known sections in selection order, where the query order of the database decides in the code; only their ids depend on it.
- Case folding and upper-casing are those of ASCII letters.
- SQL mechanics, advisory locks and chunked IN lists: a transaction is one step and the lock is mutual exclusion.
- The catalog lookup: added courses have ids that are not in use; its pacing, cap and negative cache are left out.
- HTTP clients, log redaction, error classes and the text of recorded runs.
- The middleware around the response cache: which requests are cached, and the cache key.
- The report side of the inventory: field completeness, sources and window counts.
- The ranking search itself, syllabus signals, ratings, `rankings/diff.py`, `refresh/cleanup.py`, `analytics/pair_coverage.py` and `quality/`: counting or set comparison that would add easy members.
