# Verified models of an education analytics deployment

A Dafny model of the parts of this repository where a mistake is easy to make and hard to see: the
SQL Lab worker, the report queries, column naming, dashboard packing and layout, the provisioners,
foreign-key ordering of migration models, example generation for the API documentation, and the
guest-token refresh of the embedded SDK. `dafny verify dfyconfig.toml` checks everything.

- **SQL Lab** (`SqlLab`, `QueryRow`, `SqlLabSafety`, `SqlLabResults`, `SqlLabLimits`,
  `SqlLabReturns`, `SqlLabWorker`). One worker runs the blocks of a script against its `query` row
  while another process may commit STOPPED at any moment. `QueryRow` is the row and one ORM
  session's view of it (loaded attributes, pending changes, commit, refresh). `SqlLab` is the state
  machine: a program counter, one step for each access to shared state, and library code as events
  that succeed or raise. The theorems hold for every schedule, that is for every sequence of events.
  `SqlLabWorker` is the code in its own imperative shape; every method is proved to take only the
  machine's steps, so each theorem about runs is a theorem about it.
- **Reports** (`Sql`, `UserReport`, `TeacherReport`, `ProgrammeReport`, their proofs and columns,
  `GainMetrics` and `CompletionMetrics`). `Sql` gives joins, DISTINCT, UNION, GROUP BY and the
  aggregates over sequences of rows with NULLs. The queries are written in it clause by clause; the
  theorems are about every database.
- **Column names** (`Decimal`, `ColumnNames`), **packing and layout** (`Packing`, `Layout`),
  **provisioning** (`Provision`, `ProvisionRuns`), **foreign keys** (`ForeignKeys`),
  **guest tokens** (`GuestToken`), **examples** (`ExampleGen`).

What the proofs found, beyond what the code promises:

- `dedup` does not "always return unique values" (superset/superset/result_set.py:39-40); the exact
  condition is `DedupDistinct`, and for whole cursor descriptions `FinalNamesDistinct`.
- A stop can be lost: before the RUNNING commit always, unless the worker had already read the row as
  RUNNING; and later in a run that goes well exactly when every block had been checked for
  (`StopBeforeRunningIsLost`, `StopWinsByPlace`). The guard at superset/superset/sql_lab.py:642
  never sees a stop, since it only looks for FAILED. `StopSurvivesIff` is the condition in any run.
- An exception inside the outer error handler escapes. It leaves the row unfinished unless the handler
  had committed, the row was finished already, or a stop comes later (`CrashIffRaisedInOuterHandler`,
  `CrashedRowFinishedIff`, `CrashCanLeavePending`).
- `limiting_factor` is never reset between blocks (`CommittedFactor`, `FactorLeftBehind`).
- Whether the limit that `apply_limit` sets survives the refresh before the first block depends on
  the ORM flushing or discarding pending changes there, on a commit of a cancel key in between, or
  on the limit not having changed; if none of these holds, the rows are not the promised ones
  (`RowsExactIffLimitKept`).
- After a failed write the returned payload names a results key that does not exist.
- The aggregate gain card is the weighted mean of the gains exactly when no matched student starting
  from zero adds mastery.
- `primary_role` says "No role" for users whose only roles are unranked, while `no_role_flag` is 0
  (`UnrankedSaysNoRole`).
- Course figures of the two teacher datasets differ exactly for courses that no longer exist
  (`DeletedCourseDiffers`).
- A submission with two grades for its assignment and user is two activity rows (`SubmissionGrain`).
- `setTimeout` takes a signed 32-bit delay: refreshes come less than five seconds apart exactly for
  guest tokens whose delay wraps below five seconds, the first at about 25 days of lifetime
  (`SpacedIffGrantsKeepDistance`, `WrappedTokensRefreshAtOnce`).
- `oneOf` and `anyOf` are not read when `type` is missing; an unresolved component reference yields
  an empty object.

## Model

| member | source | states |
|---|---|---|
| SqlLabWorker.Execution.GetSqlResults | superset/superset/sql_lab.py:171-199 | The whole worker takes only the state machine's steps for the schedule it met; unless the error handler itself raises, the row ends SUCCESS, FAILED or STOPPED and the returned status is that one up to a later stop; TIMED_OUT is never committed; a SUCCESS or FAILED row has its end time; a run that succeeds returns a payload if and only if it is asked to, naming the query and holding what was kept of the last block, and one that fails or is stopped returns no rows |
| SqlLabWorker.Execution.ExecuteSqlStatements | superset/superset/sql_lab.py:374-684 | The script runner, whatever raises and whoever interferes, follows the state machine and ends in the outer handler, or returned with what `RunDelivers` says |
| SqlLabWorker.Execution.RunBlock | superset/superset/sql_lab.py:477-519 | One turn of the block loop: refresh and look for a stop, announce, commit, execute, or handle the error |
| SqlLabWorker.Execution.ExecuteQuery | superset/superset/sql_lab.py:249-323 | One block: every engine outcome, timeout, redirect and exception leads where the source leads it |
| SqlLabWorker.Execution.FetchRows | superset/superset/sql_lab.py:285-291 | The fetched rows, one more than the limit allows, are kept or lose the last one; NOT_LIMITED is set exactly when they are kept; the step taken is that of these rows |
| SqlLabWorker.Execution.HandleQueryError | superset/superset/sql_lab.py:91-127 | A failure that is handled leaves FAILED in the row, with an end time, and in the payload the status read back after the commit: that, or STOPPED by a later stop; a raise inside goes to the outer handler, or out of it |
| SqlLabWorker.Execution.StoreResults | superset/superset/sql_lab.py:561-640 | The payload names the drawn key either way; the row is given that key only by a write that succeeded; a failed one clears it and, in a run that does not return its results, commits FAILED and raises |
| SqlLabWorker.Execution.Refresh | superset/superset/sql_lab.py:477-483 | A refresh re-reads the row after flushing or discarding what was pending; the flag is true exactly if the row now shows a stop, which ends the run with a STOPPED payload |
| SqlLabWorker.Execution.ApplyLimits | superset/superset/sql_lab.py:452-453 | The loop over the statements leaves the query limit and the statement limits that the specification gives |
| SqlLabSafety.SoundStep | superset/superset/sql_lab.py:374-684 | Every step of worker or environment keeps the session invariant: no committed TIMED_OUT, an end time on finished rows, a pending status only in the handlers |
| SqlLabSafety.EveryRunEndsTerminal | superset/superset/sql_lab.py:171-199 | For every schedule a returned run has left SUCCESS, FAILED or STOPPED; TIMED_OUT never; finished rows have an end time |
| SqlLabSafety.ReturnedStatusIsCommitted | superset/superset/sql_lab.py:481-513 | For every schedule the status returned is the one committed; the row differs from it only by a stop that came after, and a returned STOPPED is always in the row |
| SqlLabSafety.CrashIffRaisedInOuterHandler | superset/superset/sql_lab.py:190-199 | For every schedule an exception escapes `get_sql_results` if and only if one is raised inside its own error handler |
| SqlLabSafety.CrashedRowFinishedIff | superset/superset/sql_lab.py:190-199 | After such an exception, whatever follows, the row is SUCCESS, FAILED or STOPPED if and only if the handler had committed, the row was already finished, or a stop comes later |
| SqlLabSafety.CrashCanLeavePending | superset/superset/sql_lab.py:190-199 | Two exceptions in a row, one in the worker and one in the handler, leave a PENDING row PENDING |
| SqlLabSafety.RunsAreBounded | superset/superset/sql_lab.py:471-684 | No schedule makes the worker take more than 11 + 5 * blocks steps |
| SqlLabSafety.NeverStuck | superset/superset/sql_lab.py:374-684 | Until it has returned or crashed, some event moves the worker |
| SqlLabSafety.StopLimitsBlocks | superset/superset/sql_lab.py:477-483 | A stop committed after RUNNING lets at most one more block start, and only if its check had passed; none before the first refresh |
| SqlLabSafety.StopBeforeLastRefreshIsHonoured | superset/superset/sql_lab.py:303-318 | With no timeout, redirect or error outside the engine call, a stop that a later refresh sees ends the run with row and payload STOPPED |
| SqlLabSafety.StopWinsIffRefreshed | superset/superset/sql_lab.py:642-644 | In a smooth run a stop wins if and only if the worker refreshed once more; otherwise SUCCESS overwrites it |
| SqlLabSafety.StopWinsByPlace | superset/superset/sql_lab.py:471-513 | Exactly when a stop wins, by the worker's place when it is committed: if and only if some block has not been checked for yet, or the engine call raises later |
| SqlLabSafety.StopBeforeRunningIsLost | superset/superset/sql_lab.py:400-402 | For every schedule, a stop before the RUNNING commit survives it if and only if the worker had already read the row as RUNNING; any other is overwritten |
| SqlLabSafety.StopSurvivesIff | superset/superset/sql_lab.py:91-127 | For every schedule that returns, whatever else goes wrong: if the last stop falls between the RUNNING commit and the commit of the outcome, it survives if and only if the worker refreshes the row later, or its outer handler had read the row as FAILED before the stop |
| SqlLabSafety.LeftAloneSucceeds | superset/superset/sql_lab.py:471-684 | From any healthy point there is a schedule that runs every block and ends SUCCESS |
| SqlLabSafety.CommittedBeforeEngine | superset/superset/sql_lab.py:477-487 | For every schedule: while the engine runs the row shows all the worker has set, and each commit expires what it has read |
| SqlLabReturns.RunDelivers | superset/superset/sql_lab.py:549-682 | For every schedule that returns: on success there is a payload if and only if one is asked for; it names the query, and its rows are what was kept of the full result that the last block brought: the first min(n, L) of them where the last statement is limited and the limit outlived the refresh; any other payload has no rows and no key |
| SqlLabResults.NoDanglingKey | superset/superset/sql_lab.py:561-644 | Over all queries and schedules with fresh keys, a committed results key names an entry holding this query's success payload, its data and that very key |
| SqlLabResults.AsyncSuccessHasKey | superset/superset/sql_lab.py:606-644 | A storing run that does not return its results and ends SUCCESS has committed a key |
| SqlLabResults.ReturnedKeyIsStoredIffCommitted | superset/superset/sql_lab.py:561-640 | A returned success payload always names a key; the backend has it if and only if the row names it |
| SqlLabResults.FailedWriteLeavesKeyInPayload | superset/superset/sql_lab.py:606-618 | After a failed write the row has no key while the returned payload names one that was never stored |
| SqlLabLimits.LimitAfterMeans | superset/superset/sql_lab.py:235-239 | The query limit after the loop is the request clamped to the maximum as soon as one statement does not mutate, unless the script is a CREATE TABLE AS without limit |
| SqlLabLimits.LimitsAreUniform | superset/superset/sql_lab.py:241-246 | Every statement that does not mutate gets the same LIMIT, one more than the clamped request, unless the script is a CREATE TABLE AS without limit |
| SqlLabLimits.BlockLimitMeans | superset/superset/sql_lab.py:225-246 | A block has the LIMIT of its statement; a script that runs as one block that of its last statement |
| SqlLabLimits.KeptRows | superset/superset/sql_lab.py:285-291 | For any limits of statement and query, how many of the n rows are kept: always the first ones |
| SqlLabLimits.FetchAndTrim | superset/superset/sql_lab.py:285-291 | Fetching one more and trimming it leaves exactly the first L rows; it was not trimmed if and only if there were at most L |
| SqlLabLimits.RowsExactIffLimitKept | superset/superset/sql_lab.py:477-487 | The last block returns the first L rows for every full result if and only if the clamped limit outlived the refresh of the row |
| SqlLabLimits.SuccessReturnsFirstRows | superset/superset/sql_lab.py:541-560 | End to end: the payload a successful run has filled holds the first min(n, L) rows; for one block the factor is NOT_LIMITED exactly when n <= L |
| SqlLabLimits.CommittedFactor | superset/superset/sql_lab.py:287-291 | The committed factor over several blocks: it is never reset, so with flushing refreshes any block that fit decides it |
| SqlLabLimits.FactorLeftBehind | superset/superset/sql_lab.py:287-291 | For every such query of at least two blocks whose last one is limited, a run that commits NOT_LIMITED with SUCCESS although the rows of its last block were cut |
| ColumnNames.NormalizeCursorDescriptionNames | superset/superset/result_set.py:102-131 | The nested loops terminate and build the normalization relation: explicit names kept, each synthetic name the first free one |
| ColumnNames.PickedBound | superset/superset/result_set.py:123-129 | Every picked index is below the number of columns |
| ColumnNames.PickedIncreases | superset/superset/result_set.py:115-129 | The picked indices increase along the list |
| ColumnNames.NormalizedProperties | superset/superset/result_set.py:102-131 | Same length, explicit names unchanged, synthetic names pairwise distinct and disjoint from all explicit ones |
| ColumnNames.NormalizedUnique | superset/superset/result_set.py:102-131 | A description has only one normalization |
| ColumnNames.Dedup | superset/superset/result_set.py:49-59 | The counting dictionary computes: each item with the number of earlier equal items appended, for either case setting |
| ColumnNames.DedupDistinct | superset/superset/result_set.py:36-59 | The result has distinct names if and only if no item is itself the numbered form a repeated item takes |
| ColumnNames.DedupDistinctByKey | superset/superset/result_set.py:49-59 | For any key, the case-insensitive one included: distinct if and only if no first item of its key is the numbered form of a later one |
| ColumnNames.DedupNotAlwaysUnique | superset/superset/result_set.py:39-40 | The documented "always returns unique values" fails on foo, foo, foo__1 |
| ColumnNames.DedupFixpoint | superset/superset/result_set.py:49-59 | Exactly the lists of distinct names are left alone |
| ColumnNames.DedupIdempotent | superset/superset/result_set.py:49-59 | A second pass changes nothing if and only if the first made the names distinct |
| ColumnNames.FinalNamesDistinct | superset/superset/result_set.py:158 | After both passes the names are distinct if and only if the explicit names alone do not clash |
| ColumnNames.FinalNamesDistinctIfNoSuffix | superset/superset/result_set.py:158 | In particular when no explicit name is another one followed by __ and a positive numeral |
| ColumnNames.ColumnNamesOf | superset/superset/result_set.py:149-158 | The composition, name by name: a named column keeps its name, numbered from its second occurrence on; a nameless one is _col_ and the first index that no name and no earlier nameless column has taken; all distinct under that condition |
| Packing.RowsOf | reports/provision_programme_dashboards.py:978-991 | The greedy loop keeps all charts in order, its rows fit exactly when every chart fits, and no split that fits has fewer rows |
| Packing.GreedyStaysAhead | reports/provision_programme_dashboards.py:978-991 | After k rows the greedy packer has placed at least as many charts as any split that fits |
| Packing.PackingOptimal | reports/provision_programme_dashboards.py:978-991 | No order-preserving split into rows of at most 12 columns uses fewer rows |
| Layout.LayoutFor | reports/provision_programme_dashboards.py:994-1041 | The mutated dictionary ends as the layout of greedily packed rows: frame, rows, boxes with their parents, and no other key; each box shows its chart, and the boxes of a row take up at most 12 columns if every chart does |
| Layout.BoxesMean | reports/provision_programme_dashboards.py:1010-1028 | A box carries the id, name and width of the last chart with its id; its height is 26 for at most three columns, else 60 for a table and 44 for any other chart |
| Layout.GridIsPacked | reports/provision_programme_dashboards.py:978-1040 | In the dictionary itself, for distinct ids: the widths of the boxes of each grid row add up to at most 12, and no split of the charts into such rows has fewer rows than the grid |
| Layout.KeyTexts | reports/provision_programme_dashboards.py:1011-1030 | The keys are CHART- and ROW- with the number in decimal, rows with at least two digits |
| Layout.ParentsAreThePath | reports/provision_programme_dashboards.py:1013-1039 | Every chart has a path from the root; its parents are the path to it, for every path there is, if and only if its id occurs once |
| Layout.ReadingOrder | reports/provision_programme_dashboards.py:1018-1040 | Reading the grid's rows left to right gives the charts in input order |
| Provision.Store.Cleanup | reports/provision_programme_dashboards.py:1044-1057 | Whatever is not owned is untouched; a cleanup that finishes on a listable store leaves nothing owned |
| Provision.Store.CreateDataset | reports/provision_programme_dashboards.py:1060-1080 | Adds one owned dataset and nothing else, or dies |
| Provision.Store.CreateCharts | reports/provision_programme_dashboards.py:1083-1104 | The charts of a page in order, each with the report's description; a failed call leaves those before it |
| Provision.Store.CreateDashboard | reports/provision_programme_dashboards.py:1107-1143 | One page added to those built, its layout placing exactly its charts; foreign artifacts untouched even when it dies |
| Provision.Store.Build | reports/provision_programme_dashboards.py:1173-1176 | The part after the cleanup: on a store without owned artifacts it ends complete, or leaves the report cut at a definite place: no dataset yet, or some whole pages and at most one page begun |
| Provision.Store.Provision | reports/provision_programme_dashboards.py:1171-1176 | From any state a run touches only dashboards with its slugs, charts that carry its marker and datasets of its name; from a listable one it ends with one copy of everything unless its calls run out, for which a bound is given; what a cut run leaves is a state of a cut cleanup or of a cut build; with room for the report the store stays listable however far the run gets |
| Provision.CompleteIsOneCopy | reports/provision_programme_dashboards.py:1044-1143 | What complete means, by slugs, names and descriptions: each page's dashboard with its charts in order over the dataset, and nothing else with a page's slug, the marker or the dataset's name |
| ProvisionRuns.RunsThenRun | reports/provision_programme_dashboards.py:1171-1178 | The states between the runs are given, each a possibly cut run of the one before with its own budget of calls; after all of them the last run ends with one copy of everything unless its own calls run out, foreign artifacts untouched |
| ProvisionRuns.RunBeside | reports/provision_moodle_user_report.py:529-608 | Another report's run, however far it gets, leaves a complete report complete and its dashboards and charts unchanged; if it ends, both reports are complete |
| ProvisionRuns.MarkerInDescription | reports/provision_programme_dashboards.py:1093 | A description carries another marker if and only if its own marker or the chart's name does |
| ProvisionRuns.ReportsSeparate | reports/provision_teacher_performance_report.py:80 | With the three reports' markers, their charts are told apart if and only if no chart name quotes another marker |
| Sql.LeftJoinRowForRow | reports/provision_moodle_user_report.py:109-140 | A left join onto a relation with at most one match keeps the left side row for row |
| Sql.LeftJoinLength | reports/provision_programme_dashboards.py:139-140 | A left join never has fewer rows than its left side, and as many if and only if every left row has at most one match |
| Sql.LeftJoinMembers | reports/provision_moodle_user_report.py:109-140 | A left join has every matching pair, and a row with NULL exactly if nothing matches it |
| Sql.InnerJoinSelects | reports/provision_programme_dashboards.py:225-226 | An inner join onto such a relation drops the rows without a match and duplicates none |
| Sql.GroupByLookup | reports/provision_moodle_user_report.py:131-139 | A lookup into a grouped relation finds at most one row: the aggregate of that key's group |
| Sql.DistinctMeans | reports/provision_programme_dashboards.py:102 | DISTINCT keeps every value once |
| UserReport.DatasetRowForRow | reports/provision_moodle_user_report.py:108-141 | Exactly one row for each user with deleted = 0 and id > 1, whatever the role assignments and enrolments |
| UserReport.RankMeans | reports/provision_moodle_user_report.py:113-130 | The rank of a role is its place in the list of fifteen, and 99 for every other role |
| UserReport.RankOfUser | reports/provision_moodle_user_report.py:109-134 | The joined rank is the minimum over the user's roles, NULL if and only if there is none |
| UserReport.FlagsMean | reports/provision_moodle_user_report.py:102-107 | Each flag against the user's roles: learner if and only if employee and nothing ranked higher, and so on |
| UserReport.PrimaryRoleMeans | reports/provision_moodle_user_report.py:59-76 | The primary role is the title of the best of the fifteen roles the user has, No role if and only if there is none |
| UserReport.FlagsPartition | reports/provision_moodle_user_report.py:75-105 | The four flags and "only unranked roles" partition the users; exactly for the last kind the title says No role while no_role_flag is 0 |
| UserReport.UnrankedSaysNoRole | reports/provision_moodle_user_report.py:75-105 | A database that shows it, for every role outside the fifteen |
| UserReport.FlagSums | reports/provision_moodle_user_report.py:102-105 | Each flag column sums to the number of kept users it describes |
| TeacherReportProofs.CourseRowMeans | reports/provision_teacher_performance_report.py:206-217 | The union has, of trainers only, the enrolments with flag 0 and the completions with flag 1 |
| TeacherReportProofs.StudentRowCounts | reports/provision_teacher_performance_report.py:206-225 | courses_completed is the number of distinct courses the trainer has a completion of, courses_assigned of those and the ones of the trainer's enrolments, straight from the tables |
| TeacherColumns.StudentRowMeans | reports/provision_teacher_performance_report.py:158-290 | Every figure of a student row from the tables: submissions and courses of the teacher, mean percentage of the student's baseline and mastery grades, number of grades, gain, school of the class |
| TeacherColumns.CourseReportMeans | reports/provision_teacher_performance_report.py:288-328 | Every row of COURSE_SQL: a course of the trainer, flagged if and only if completed, with the trainer's submissions |
| TeacherReportProofs.StudentGrain | reports/provision_teacher_performance_report.py:154-158 | STUDENT_SQL has one row a (teacher, class, student), for exactly the triples whose class and users exist |
| TeacherReportProofs.ClassStudentsMean | reports/provision_teacher_performance_report.py:150-158 | Those triples are the trainer's classes joined with their users |
| TeacherReportProofs.GradedRowForRow | reports/provision_teacher_performance_report.py:246-252 | The five left joins neither drop nor duplicate a student row |
| TeacherReportProofs.AssignedMeans | reports/provision_teacher_performance_report.py:303-307 | Grouping by teacher and course with MAX keeps each pair once, completed if and only if some row says so |
| TeacherReportProofs.CourseGrain | reports/provision_teacher_performance_report.py:315-328 | COURSE_SQL has one row a (teacher, course), for exactly the courses a trainer is enrolled in or has completed whose course and user exist, flagged if and only if completed |
| TeacherReportProofs.CountsAgreeIffCoursesExist | reports/provision_teacher_performance_report.py:239-251 | For every student row the course figures equal the teacher's row counts in COURSE_SQL if and only if those courses exist; completed never exceeds assigned |
| TeacherReportProofs.DeletedCourseDiffers | reports/provision_teacher_performance_report.py:213-216 | A database with a completion of a deleted course, where they differ |
| TeacherReportProofs.QueriesAgree | reports/provision_teacher_performance_report.py:288-328 | With intact foreign keys the two queries agree on every teacher; NULL course ids are harmless |
| CompletionMetrics.ShareWithinUnit | reports/provision_teacher_performance_report.py:948-952 | Under any filter of COURSE_SQL the completion card is NULL or between 0 and 1 |
| CompletionMetrics.ShareOfTeacher | reports/provision_teacher_performance_report.py:948-952 | Filtered to one teacher the card is courses_completed / courses_assigned of that teacher's student rows, NULL without courses |
| GainMetrics.SumsDecompose | reports/provision_teacher_performance_report.py:958-963 | Mastery minus baseline is the baseline-weighted gains plus the mastery of students starting from zero |
| GainMetrics.CardIsMeanIffNothingFromZero | reports/provision_teacher_performance_report.py:958-963 | Where the card is not NULL it is the baseline-weighted mean of the gains if and only if the students starting from zero add no mastery |
| GainMetrics.CardIsWeightedMean | reports/provision_teacher_performance_report.py:272-276 | With positive baselines the card is the baseline-weighted mean of the gains |
| GainMetrics.CardWithinGains | reports/provision_teacher_performance_report.py:958-964 | With non-negative baselines that are not all zero, and no mastery from zero, the card lies within any bounds of the individual gains |
| GainMetrics.CardWithinGainsIfPositive | reports/provision_teacher_performance_report.py:272-276 | In particular with positive baselines |
| GainMetrics.ZeroBaselineEscapes | reports/provision_teacher_performance_report.py:273-274 | Without that hypothesis it need not: a student from zero moves the card but has no gain |
| ProgrammeReportProofs.ProgrammeCoursesMean | reports/provision_programme_dashboards.py:81-100 | programme_courses has each programme course once |
| ProgrammeColumns.ProgrammeCourseMeans | reports/provision_programme_dashboards.py:81-100 | Its rows are the programme courses with their names and the name of their category, Uncategorised without one |
| ProgrammeColumns.ParticipantsMean | reports/provision_programme_dashboards.py:101-108 | participants has each programme course and user with one of the four roles in a context of level 50 for that course, once |
| ProgrammeReportProofs.LearnersCounted | reports/provision_programme_dashboards.py:109-115 | The joined learner count is the number of distinct enrolled users of the course, 0 without any |
| ProgrammeReportProofs.SubmissionGrain | reports/provision_programme_dashboards.py:76-79 | submission_rows has a row for each counted submission, in order, if and only if none of them has two grades for its assignment and user; otherwise it has more |
| ProgrammeReportProofs.DatasetRowForRow | reports/provision_programme_dashboards.py:203-231 | With unique keys and existing users the dataset is union_rows, row for row, for any row numbers |
| ProgrammeColumns.UnionRowsMean | reports/provision_programme_dashboards.py:121-189 | Which rows union_rows has, from the tables: every counted submission with each of its grades, every graded item, every observation and every participant, with kind, name, concept and score of each |
| ProgrammeColumns.DatasetRowMeans | reports/provision_programme_dashboards.py:203-231 | Every column of every row of the dataset: the activity, school, course name, flags, and the learners on the row numbered 1 |
| ProgrammeReportProofs.FlagsMean | reports/provision_programme_dashboards.py:212-217 | On every row: completed if and only if the participant has a completion of that course, enrolled if and only if the row stems from a participant, a course name if and only if there is a course |
| ProgrammeReportProofs.OnlyUserlessRowsDropped | reports/provision_programme_dashboards.py:225-231 | Without existing users too: the activities of the dataset are the rows of the union with a user, in order |
| ProgrammeReportProofs.RowsAreProgramme | reports/provision_programme_dashboards.py:121-189 | Every row of the union carries a programme course or none |
| ProgrammeReportProofs.SumIsOverCountedCourses | reports/provision_programme_dashboards.py:196-219 | Without existing users: SUM(course_learners) is the sum of distinct learners over the courses whose first numbered row has a user |
| ProgrammeReportProofs.LearnersCountedOnce | reports/provision_programme_dashboards.py:196-219 | SUM(course_learners) is the sum of distinct learners over exactly the courses with a row, for every ROW_NUMBER that respects the partition, however ties fall |
| ProgrammeReportProofs.RowNumbersExist | reports/provision_programme_dashboards.py:197-200 | Such a numbering exists for every union |
| ForeignKeys.CollectModels | superset/scripts/benchmark_migration.py:98-116 | The worklist terminates with each mapped table reachable through mapped tables, once, and nothing else |
| ForeignKeys.AddTargets | superset/scripts/benchmark_migration.py:110-116 | The inner loop adds exactly the targets not seen yet |
| ForeignKeys.StaticOrder | superset/scripts/benchmark_migration.py:121-130 | An order in which every table follows all it needs exists if and only if no walk over foreign keys between different tables returns |
| ForeignKeys.SelfReferencesAreNoCycle | superset/scripts/benchmark_migration.py:127-130 | A schema that has only self-references always has an order |
| ForeignKeys.StuckIsCyclic | superset/scripts/benchmark_migration.py:130 | A non-empty rest in which every table needs another one of it contains a cycle |
| ForeignKeys.SortedByMeans | superset/scripts/benchmark_migration.py:131 | Sorting by position keeps the models, once each, in the order |
| ForeignKeys.ReferencedFirst | superset/scripts/benchmark_migration.py:118-131 | After sorting, every mapped foreign-key target comes strictly before the table that references it |
| ForeignKeys.FindModels | superset/scripts/benchmark_migration.py:98-133 | All of it: the reachable mapped tables once, referenced ones first, or an error if and only if some walk over foreign keys between different tables returns |
| GuestToken.SlackMeans | superset/superset-embedded-sdk/src/guestTokenRefresh.ts:29-32 | How late a refresh may be before the token runs out: five seconds with at least ten left, less otherwise |
| GuestToken.FreshExactlyIfInTime | superset/superset-embedded-sdk/src/index.ts:245-254 | Over every run the iframe held no expired token if and only if each refresh came within the slack of the token before it |
| GuestToken.NeverExpiredWhileHeld | superset/superset-embedded-sdk/src/guestTokenRefresh.ts:21-33 | With ten seconds left on every token and under five seconds of lateness and latency, no expired token is ever held |
| GuestToken.EmbedAndRefresh | superset/superset-embedded-sdk/src/index.ts:240-254 | The page itself, over any replies: its tokens were never stale if and only if the refreshes were in time, its timer is armed if and only if every token decoded, its refreshes are spaced while tokens keep their distance |
| GuestToken.WaitMeans | superset/superset-embedded-sdk/src/guestTokenRefresh.ts:31-32 | The wait is at least five seconds if and only if the token has no readable expiry, or less than ten seconds left, or a delay of at least five seconds as a signed 32-bit integer; it is 295 seconds without a readable expiry |
| GuestToken.StartsApart | superset/superset-embedded-sdk/src/index.ts:248-254 | While every token sent meets that condition, refresh starts are at least five seconds apart |
| GuestToken.SpacedIffGrantsKeepDistance | superset/superset-embedded-sdk/src/index.ts:245-254 | For the tokens a server grants: refreshes start at least five seconds apart whatever the lateness and latency if and only if every token meets that condition |
| GuestToken.AtMostPerWindow | superset/superset-embedded-sdk/src/guestTokenRefresh.ts:22 | Any window of W ms then holds at most W / 5000 + 1 refresh starts |
| GuestToken.WrappedTokensRefreshAtOnce | superset/superset-embedded-sdk/src/index.ts:251 | Every token whose delay wraps to zero or below: any number of refreshes in one instant |
| GuestToken.StoppedForGood | superset/superset-embedded-sdk/src/index.ts:248-252 | After a rejected fetch or a malformed token nothing is ever refreshed again |
| GuestToken.RunsWhileTokensDecode | superset/superset-embedded-sdk/src/index.ts:248-252 | The loop is still armed if and only if every fetch succeeded with a token that decodes |
| ExampleGen.GenerateExample | superset/docs/scripts/fix-openapi-spec.py:523-624 | The recursion with max_depth terminates on every schema, cyclic references included, and computes the specified example |
| ExampleGen.GenerateObject | superset/docs/scripts/fix-openapi-spec.py:550-567 | The loop that fills `result` keeps exactly the properties with a non-null example |
| ExampleGen.ComponentNameMeans | superset/docs/scripts/fix-openapi-spec.py:537-541 | The name in a component reference is what follows its last slash |
| ExampleGen.ReferencesMean | superset/docs/scripts/fix-openapi-spec.py:534-543 | A component reference gives the example of the component of that name with one level less, {} if it is not defined; any other reference gives None |
| ExampleGen.DefaultsMean | superset/docs/scripts/fix-openapi-spec.py:548-622 | A missing type is object; when objects and arrays are empty; the defaults of numbers and booleans; oneOf before anyOf |
| ExampleGen.FormatsMean | superset/docs/scripts/fix-openapi-spec.py:579-597 | A string is the first value of its enumeration, or else a text that has the declared format |
| ExampleGen.DoneIffChoicesExist | superset/docs/scripts/fix-openapi-spec.py:579-582 | It raises if and only if it visits a string schema with an empty enumeration |
| ExampleGen.OffersExample | superset/docs/scripts/fix-openapi-spec.py:530-624 | The result is the one value the schemas offer, member by member, and is None if and only if they say so |
| ExampleGen.NestingBounded | superset/docs/scripts/fix-openapi-spec.py:530-577 | The result nests at most max_depth - depth + 1 containers around what the schemas carry themselves |
| ExampleGen.ConformsIffSound | superset/docs/scripts/fix-openapi-spec.py:534-612 | A non-None example conforms if and only if every visited schema that has one is sound: its reference resolves, an embedded example conforms, the declared type is known, an integer minimum is an integer, the enumeration allows the offered value, a schema for additional properties accepts the text "value" |
| ExampleGen.ConformsInFragment | superset/docs/scripts/fix-openapi-spec.py:534-612 | In the fragment without embedded examples, enumerations other than of strings, unknown types and schema-valued additionalProperties: it never raises, and a non-None example conforms if and only if references resolve and integer minima are integers |
| ExampleGen.ChoicesReadOnlyForUnknownTypes | superset/docs/scripts/fix-openapi-spec.py:548-622 | oneOf and anyOf matter if and only if a type is declared that the generator does not know, never when it is absent |

## Left out

- SQL parsing and rewriting, row-level security, disallowed functions and tables, CREATE TABLE AS
  naming, engine specs, Celery, serialization, compression and event logging: events that succeed
  or raise. Which statements mutate, and whether the script is a CREATE TABLE AS, are inputs.
- The engine's result is arbitrary; a limited statement, or a limited fetch for FETCH_MANY engines,
  returns a prefix of it. Negative limits are left out: limits are natural numbers.
- Commits to the metadata database do not fail half-way, and `get_query` finds the row or raises;
  its five tries are one. `end_time` is a flag that says whether it is set.
- Whether `refresh` flushes or discards pending changes belongs to the ORM, which is not part of
  this repository; both are modelled and the theorems name the one they need.
- Expiry of entries in the results backend, and `cancel_query`.
- Conversion to Arrow and pandas in `SupersetResultSet`; `convert_to_string`: column names are
  strings already, a NULL one being the explicit name `None`.
- Rounding, dates, names, GROUP_CONCAT and display columns of the reports; LIKE, REGEXP and LOWER
  tests are arbitrary predicates on rows. Strings compare exactly; MySQL's collations are ignored.
  The last-access flags of the user report, and the concept dataset of the teacher report.
- UserReport.FlagSums: sums over the unfiltered dataset; dashboards may filter it.
- ProgrammeColumns.UnionRowsMean: which rows there are; how often each occurs is stated for
  submissions and participants only.
- Layout: absent `children` and `parents` keys are empty lists; `Height` is the programme report's
  rule, the user report differs only in heights and its constant ids.
- Provision: HTTP, authentication, chart forms, colours, filters and CSS. The store is three tables
  with list, create and delete; it serves a number of calls and then fails. A call fails before it
  has an effect, a dashboard with a taken slug is refused, and nobody else writes during a run.
  Deletions within one listing come in any order. One dataset a report, so the teacher report's
  several datasets are not provisioned here, only its marker is compared.
- Provision.Store.Provision: needs at most 1000 artifacts in each listing at its start to promise
  completeness, since one page is all that is read; untouched foreign artifacts need no bound.
- ProvisionRuns.RunsThenRun: also needs room for one report beside the foreign artifacts, so that runs
  cut short keep each listing within one page.
- ForeignKeys: automap reflection, the container-walking queue and the scan of migration source;
  `static_order` and `list.sort` are library code, modelled as any order that meets their contract.
- GuestToken: the iframe, message channel and token decoding (an expiry in milliseconds or none);
  the first fetch and mount; timers fire late but never early.
- ExampleGen: `oneOf`, `anyOf`, `required`, `format`, `maximum`, `exclusiveMinimum` and `nullable`
  as constraints of conformance; schema keys whose values have the wrong JSON type.
- The passes that add tags, examples and descriptions to the specification, the demo scripts,
  configuration, web front end and release tooling.
