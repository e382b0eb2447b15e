# Worked time, its cache and its guards: a Dafny model

This project models the part of the attendance portal that turns punch times into reported hours, and the
administrator operations that change punches, plans, day statuses and employments. It proves that the
stored cache of daily metrics always equals what full recomputation would give, that every figure of a month
counts exactly the minutes it should, that each operation changes exactly what it was asked to, that day
statuses, employment periods and month locks are respected in every reachable state, and that three independent
pieces (the Czech holiday calendar, the integration rate limiter and the reminder scheduler) keep their
promises over all inputs and all runs.

Times are wall-clock minutes counted from midnight of 1 January of year 1; a day is the minute divided by
1440, day 0 is a Monday, and a month is counted from January of year 1. All queries of the program filter
by one employment, and its writers are serialised by a row lock, so each administrator operation is one
atomic step: it either commits, or raises an error and leaves the stored state as it was.

| module | what it holds |
|---|---|
| `Options` | values that may be absent |
| `Calendar`, `Holidays` | proleptic Gregorian calendar, Easter computus, public holidays |
| `Intervals` | ordering and per-day pairing of punches |
| `Breaks`, `Backfill` | automatic breaks and the breaks proposed by the "add missing breaks" action |
| `Sheets`, `Weaving`, `Idempotence`, `BreakEffect`, `BreakAction`, `BreakWitnesses` | what that action does to a stored sheet: when the database accepts it, what repeating it changes, how much work it takes away |
| `Punches` | adding one punch or a closed pair with automatic breaks |
| `Metrics`, `MonthTotals`, `Summary` | day, night, afternoon, weekend and holiday minutes, tenths of an hour, month summaries, the canonical cache |
| `Minutes`, `Figures`, `Reports` | what the reported figures mean: counts of worked or planned minutes, and of credited days |
| `Cache` | the cache table: month resynchronisation, full resynchronisation and the repair script |
| `Ledger` | every administrator operation as a function from state to outcome |
| `Footprint`, `Invariants`, `Period`, `ProblemRange`, `Runs`, `Confirmation` | which days change, what every step keeps, period changes, whole runs, month locks and confirmations |
| `PunchEffects`, `RecordEffects`, `Effects`, `Refusals` | for every operation, the exact condition under which it commits, the records it leaves and what its errors mean, stated on requests and stored rows |
| `Store` | the same operations as methods that update one employment's fields, proved against `Ledger` and `Period` |
| `RateLimit`, `Reminders` | the sliding-window limiter and the reminder scheduler |

## Model

| member | source | states |
|---|---|---|
| `Runs.ReadsAreExactAfterAnyRun` | app/services/month_summary.py:119-242 | after any run of administrator steps from a new employment, a month summary read from the cache equals the recomputed one |
| `Runs.RunKeepsInv` | app/api/v1/admin_attendance.py:166-516 | in every state of every run: unique rows, exclusive day statuses, all facts inside the employment period, cache equal to recomputation |
| `Runs.StepKeepsInv` | app/api/v1/admin_shift_plan.py:433-688 | each of the eight administrator steps carries that invariant from any state to the next |
| `Runs.InitialInv` | app/services/daily_metrics.py:58-99 | a new employment without facts and with an empty cache satisfies the invariant |
| `Effects.RunExactly` | app/api/v1/admin_attendance.py:166-516 | along every run from a new employment each step did exactly what its request says if it was permitted in that state, and nothing at all otherwise |
| `Effects.StepExactly` | app/api/v1/admin_shift_plan.py:433-688 | the same for each of the eight kinds of step from any sound state |
| `Effects.StepKeepsSound` | app/services/day_status.py:166-267 | besides the invariant, vacations and days off stay in plans, sickness and paragraph days in attendance rows, and the period in order |
| `PunchEffects.CreateExactly` | app/api/v1/admin_attendance.py:269-352 | a creation commits if and only if the day is in the period of an active employment, without status and lock, and the minutes are free; it adds the punch or pair and, with automatic breaks, those of the pair or of the interval it closes, under new identifiers |
| `PunchEffects.PlaceIsRank` | app/services/attendance_events.py:60-75 | a new punch closes an interval exactly when an odd number of the day's punches precede it, with the latest of them |
| `PunchEffects.MoveExactly` | app/api/v1/admin_attendance.py:380-460 | a move commits if and only if the row exists, the new minute is free, on a day in the period without status, and neither month is locked; then that row is at the new time and all others are as before |
| `PunchEffects.DeleteExactly` | app/api/v1/admin_attendance.py:463-516 | a deletion commits if and only if the named rows exist, differ and lie in months that are not locked; then exactly those are gone |
| `PunchEffects.BreaksExactly` | app/api/v1/admin_attendance.py:166-266 | the break action commits if and only if it is confirmed, no requested or proposed month is locked and no proposal names a minute twice; it stores every proposed boundary and nothing else |
| `RecordEffects.PlanExactly` | app/api/v1/admin_shift_plan.py:433-577 | a plan request commits if and only if its times are in order on a day without status, or it sets a plan status on a day with nothing else recorded; the day's plan is then the requested one and other days keep theirs |
| `RecordEffects.StatusExactly` | app/api/v1/admin_shift_plan.py:580-688 | a status request commits if and only if the locks of what it touches are open and replaced records were confirmed; the day then has that status, on its own side, without punches or planned times; clearing keeps both; other days are as before |
| `RecordEffects.UpdateExactly` | app/api/v1/admin_employments.py:786-882 | an update commits if and only if the period is in order, records outside it are confirmed and the profile is acceptable; then period and profile are stored and exactly the records, locks, selections and reminders inside the period are left |
| `RecordEffects.ProfileExactly` | app/api/v1/admin_employments.py:148-169 | which requested profiles are accepted, and field by field what is stored for them |
| `RecordEffects.ValidStoredVerbatim` | app/services/employment_access.py:50-87 | a valid request that keeps the employment type is accepted and stored as it is |
| `RecordEffects.LockExactly` | app/services/locks.py:116-165 | locking or unlocking changes that one lock of a month sharing a day with the employment, and nothing else |
| `RecordEffects.PreviewIsNothing` | app/api/v1/admin_employments.py:247-361 | a preview counts nothing if and only if every record lies in the new period |
| `Refusals.RefusedForReason` | app/api/v1/admin_attendance.py:269-516 | a refused punch, break, plan or status request names a true obstacle: the missing row, the occupied minute, the status or lock of the very day, the unconfirmed replacement |
| `Refusals.UpdateRefusedForReason` | app/api/v1/admin_employments.py:786-869 | the same for an update of the employment |
| `Runs.LockedMonthIsFrozen` | app/services/locks.py:32-54 | over any run, a month locked throughout keeps its punches and attendance statuses, or its plans, exactly, provided the updates of the employment in it keep them in the period |
| `Runs.StepRespectsLocks` | app/services/locks.py:46-54 | no single punch, break, plan or status step, whatever months it touches, changes what a held lock protects; an update of the employment does not when the protected records lie in the new period |
| `Runs.UpdateKeepsAttendanceMonth` | app/api/v1/admin_employments.py:793-876 | a committed update leaves the punches and attendance statuses of a month alone if and only if all of them lie in the new period, locked or not |
| `Runs.UpdateKeepsPlanMonth` | app/api/v1/admin_employments.py:793-876 | the same for the plans of a month |
| `Runs.WiderPeriodSparesAll` | app/api/v1/admin_employments.py:208-213 | a period that covers the present one, so also an edit of the profile alone, meets that condition for every month |
| `Runs.PeriodChangeOverridesLock` | app/api/v1/admin_employments.py:807-811 | a concrete confirmed change that deletes the punches of a locked month whose lock stays |
| `Runs.UncheckedLocksProtectNothing` | app/api/v1/admin_shift_plan.py:612-643 | a day-status change that consults only one lock type changes nothing the other lock protects |
| `Runs.CreateRespectsLock` | app/api/v1/admin_attendance.py:335-349 | a committed new punch or pair leaves every locked attendance month as it was |
| `Runs.MoveRespectsLock` | app/api/v1/admin_attendance.py:437-458 | a committed move leaves locked months alone, the month left and the month entered alike |
| `Runs.DeleteRespectsLock` | app/api/v1/admin_attendance.py:502-512 | a committed deletion leaves every locked month as it was |
| `Runs.BreaksRespectLock` | app/api/v1/admin_attendance.py:195-262 | added breaks leave every locked month as it was, though only the requested month is checked up front |
| `Runs.StatusRespectsLocks` | app/api/v1/admin_shift_plan.py:612-686 | a committed status change leaves locked attendance months and locked plan months as they were |
| `Runs.PlanRespectsLock` | app/api/v1/admin_shift_plan.py:451-457 | a committed plan change touches no punch, no attendance row and no locked plan month |
| `Footprint.FootprintSound` | app/services/attendance_mutations.py:17-34 | when every changed time is on the day of a passed timestamp, or strictly inside an interval recorded before on a day that lost none, or strictly inside one recorded after on a day that gained none, a day not reported as changed has the same times, intervals and state |
| `Footprint.FootprintExact` | app/services/attendance_mutations.py:17-34 | the reported days are exactly those of the passed timestamps and those whose punches changed |
| `Footprint.CoveredIsChanged` | app/services/attendance_mutations.py:21-30 | each such time's day is in the reported set, because some interval of that day appeared or disappeared |
| `Footprint.EarlierTimeIsPaired` | app/services/time_intervals.py:81-89 | every stored time with a later one on its day belongs to a closed interval of that day |
| `Footprint.InsertedRows` | app/db/models.py:325-329 | rows accepted by the unique constraint keep times and ids distinct and add exactly their own times to each day |
| `Invariants.CreateKeepsInv` | app/api/v1/admin_attendance.py:269-352 | creating a punch or closed pair keeps the invariant |
| `Invariants.MoveKeepsInv` | app/api/v1/admin_attendance.py:380-460 | moving a punch, also across months, keeps the invariant |
| `Invariants.DeleteKeepsInv` | app/api/v1/admin_attendance.py:463-516 | deleting one or two punches keeps the invariant although the day's later pairs shift |
| `Invariants.BreaksKeepInv` | app/api/v1/admin_attendance.py:166-266 | adding missing breaks, which passes no timestamps and checks no period, keeps the invariant |
| `Invariants.InsertionsDetected` | app/api/v1/admin_attendance.py:244-262 | every inserted break lies inside the period and on a day reported as changed |
| `Invariants.GroupsInside` | app/services/time_intervals.py:192-210 | every proposed break boundary lies strictly inside a recorded interval |
| `Invariants.PlanKeepsInv` | app/api/v1/admin_shift_plan.py:433-577 | writing, replacing or removing a plan keeps the invariant |
| `Invariants.StatusKeepsInv` | app/api/v1/admin_shift_plan.py:580-688 | setting or clearing a day status keeps the invariant |
| `Invariants.ReplacedExclusive` | app/services/day_status.py:270-349 | after a status change no day has a status together with punches, planned times or a second status |
| `Invariants.OtherDaysTimes` | app/services/day_status.py:318-319 | clearing a day's punches empties that day and changes no other |
| `Confirmation.NothingLostUnconfirmed` | app/api/v1/admin_shift_plan.py:486-499 | a break, status, plan-status or employment step requested without confirmation never loses a punch, an attendance status or a plan |
| `Confirmation.UnconfirmedStatus` | app/services/day_status.py:281-292 | a status committed without confirmation replaces nothing recorded |
| `Confirmation.UnconfirmedUpdate` | app/api/v1/admin_employments.py:793-811 | a period change committed without confirmation deletes nothing |
| `Confirmation.InactiveIsReadOnly` | app/services/employment_access.py:30-38 | outside the employment period, or with a deactivated user, no punch, break, plan or status step changes anything |
| `Ledger.PlansNeverOverlap` | app/services/time_intervals.py:53-61 | plans of different days never overlap, so the overlap check never refuses |
| `Period.UpdateKeepsInv` | app/api/v1/admin_employments.py:793-876 | editing profile and period keeps the invariant, also when nothing is resynchronised |
| `Period.DeletesWhatWasPreviewed` | app/api/v1/admin_employments.py:498-639 | a confirmed change removes, kind by kind, exactly as many records as its preview counted |
| `Period.SecondPreviewIsEmpty` | app/api/v1/admin_employments.py:247-361 | after the deletion a preview of the same period counts zero of everything |
| `Period.DeletionClosedUnderPairing` | app/api/v1/admin_employments.py:232-244 | the deleted rows are exactly those on outside days, and no interval loses only one end |
| `Period.TrimmedContained` | app/api/v1/admin_employments.py:498-548 | what remains lies inside the new period and is as exclusive as before |
| `Period.TrimmedDay` | app/api/v1/admin_employments.py:512-527 | deletion empties outside days and keeps every inside day's punches |
| `Period.OutOfRangeEventIds` | app/api/v1/admin_employments.py:232-244 | the loop that grows the id set returns the rows on outside days closed under pairing |
| `Store.CollectChangedDays` | app/services/attendance_mutations.py:21-30 | the loop over appeared and disappeared intervals collects exactly the days they and the timestamps touch |
| `Store.Employment.constructor` | app/api/v1/admin_employments.py:706-748 | a created employment is an initial state of a run |
| `Store.Employment.ReadMonth` | app/services/month_summary.py:119-242 | the summary read from the stored rows; in an invariant state it equals recomputation |
| `Store.Employment.FinishPunches` | app/api/v1/admin_attendance.py:321-352 | shared ending of punch operations: refuse and roll back, or resynchronise exactly the changed months |
| `Store.Employment.CreateEvent` | app/api/v1/admin_attendance.py:269-352 | fields after the call are those the creation step commits, or unchanged with the same error |
| `Store.Employment.MoveEvent` | app/api/v1/admin_attendance.py:380-460 | likewise for moving a punch |
| `Store.Employment.DeleteEvent` | app/api/v1/admin_attendance.py:463-516 | likewise for deleting one or two punches |
| `Store.Employment.InsertGroups` | app/api/v1/admin_attendance.py:205-238 | the insertion loop stores exactly the pairs none of whose ends exist yet, counts the affected groups, and stops if one falls into a locked month |
| `Store.Employment.AddMissingBreaks` | app/api/v1/admin_attendance.py:166-266 | the whole action commits or rolls back as its step does, and reports the numbers of affected intervals and of rows added |
| `Store.Employment.UpsertPlan` | app/api/v1/admin_shift_plan.py:433-577 | likewise for writing a plan |
| `Store.Employment.ConflictingEvents` | app/services/day_status.py:132-154 | punches of the day plus both ends of overlapping intervals are exactly the punches of the day |
| `Store.Employment.SetPlanStatus` | app/services/day_status.py:166-213 | what remains of the day's plan after setting or clearing its status |
| `Store.Employment.SetAttendanceStatus` | app/services/day_status.py:216-267 | what remains of the day's attendance row after setting or clearing its status |
| `Store.Employment.ReplaceDayStatus` | app/services/day_status.py:270-349 | confirmed: punches, plan and attendance row of the day are replaced and nothing else; unconfirmed with conflicts: nothing changes |
| `Store.Employment.UpsertDayStatus` | app/api/v1/admin_shift_plan.py:580-688 | the status endpoint commits or rolls back as its step does |
| `Store.Employment.CollectRangeConflicts` | app/api/v1/admin_employments.py:247-361 | counts of out-of-range records of every kind, and the earliest and latest day among them |
| `ProblemRange.TouchBounds` | app/api/v1/admin_employments.py:183-187 | touching with the extremes of more days keeps the span the exact range of all days seen |
| `ProblemRange.MonthsBetween` | app/api/v1/admin_employments.py:303-307 | the first day of the first month and the last day of the last one bound all months between |
| `ProblemRange.NoProblemDays` | app/api/v1/admin_employments.py:247-361 | there is a day to report exactly when the preview counts something |
| `Store.Employment.DeleteOutOfRange` | app/api/v1/admin_employments.py:498-639 | the reported deletion counts equal the preview of the state before |
| `Store.Employment.UpdateEmployment` | app/api/v1/admin_employments.py:786-882 | a committed update leaves the trimmed records, the normalised profile and, when anything metric changed, an exact cache; a refused one leaves everything |
| `Store.Employment.SetLock` | app/services/locks.py:116-165 | only the lock row of an overlapped month changes |
| `Summary.SyncKeepsExact` | app/services/daily_metrics.py:102-115 | an exact cache stays exact when every month in which some day's facts changed is resynchronised |
| `Summary.CanonicalLocal` | app/services/daily_metrics.py:20-34 | a month's canonical rows depend only on that month's facts and the metric part of the profile |
| `Summary.DayLocal` | app/services/time_metrics.py:101-150 | a day's metrics and states depend only on that day's facts |
| `Summary.PersistedReadsAreExact` | app/services/month_summary.py:190-200 | with an exact cache `use_persisted` makes no difference to any month summary |
| `Summary.PersistedDay` | app/services/month_summary.py:101-116 | a missing row reads as the zeros recomputation gives, a present row as its metrics |
| `Summary.RowRoundTrip` | app/services/daily_metrics.py:37-55 | storing a day's metrics in a row and reading them back loses nothing |
| `Figures.CanonicalColumns` | app/services/daily_metrics.py:37-55 | each column of a canonical cache row holds the counted minutes, or their tenths, of its own category, and nothing when the category is not kept |
| `Figures.RowsOfMonth` | app/services/daily_metrics.py:20-34 | a cache key has a canonical row exactly when the employment is paid by time and some day of the month has a record of that source |
| `Summary.WorkedParts` | app/services/time_metrics.py:106-111 | the worked parts of a day are the intervals of that day's punches |
| `Summary.PlannedParts` | app/services/time_intervals.py:20-38 | the planned parts of a day come from that day's plan alone |
| `Cache.BuildMonthSummary` | app/services/month_summary.py:174-241 | the day loop with its accumulated lists yields the month summary |
| `Reports.MonthFigure` | app/services/month_summary.py:83-98 | each worked and each planned figure of a month is the sum of that figure over its days, in minutes and tenths, and missing exactly when every day misses it |
| `Reports.MonthCounts` | app/services/month_summary.py:174-241 | each figure counts exactly the month's worked, or planned, minutes within the hours of its category |
| `Reports.ReportedAfterAnyRun` | app/services/month_summary.py:119-242 | after any run the figure read from the cache is that count |
| `Reports.MonthCredits` | app/services/time_metrics.py:71-95 | a month credits eight hours for each day with a vacation, sickness or paragraph status under its own name, none to task-based employments |
| `Reports.MonthDays` | app/services/month_summary.py:174-223 | the days of a summary are the days of the month in order |
| `Reports.DayRecords` | app/services/month_summary.py:185-223 | completeness of punches and plan, and which of two statuses is the effective one |
| `Reports.PlannedDayTotal` | app/services/time_intervals.py:20-38 | a day's planned total is departure minus arrival |
| `Cache.SourcePresence` | app/services/daily_metrics.py:20-34 | a source counts as present exactly when some day of the month shows it |
| `Cache.MonthWithoutFacts` | app/services/daily_metrics.py:124-143 | a month no fact falls in has no canonical row |
| `Cache.MetricTable.SyncMonth` | app/services/daily_metrics.py:58-99 | afterwards the month holds its canonical rows and every other row is untouched |
| `Cache.MetricTable.SyncMonths` | app/services/daily_metrics.py:102-115 | the same for a set of months |
| `Cache.MetricTable.SyncAll` | app/services/daily_metrics.py:118-158 | from any table whatever the result is the canonical one |
| `Cache.MetricTable.DropUnexpected` | scripts/rebuild_daily_time_metrics.py:116-120 | counts, and when applying deletes, exactly the rows under unexpected keys |
| `Cache.MetricTable.WriteExpected` | scripts/rebuild_daily_time_metrics.py:121-158 | counts, and when applying repairs, exactly the missing or differing rows |
| `Cache.MetricTable.Rebuild` | scripts/rebuild_daily_time_metrics.py:46-161 | counts exactly the wrong keys, zero if and only if the table is canonical; applying makes it canonical |
| `Cache.ExpectMonth` | scripts/rebuild_daily_time_metrics.py:91-115 | the script's expected rows of a month are its canonical rows |
| `Cache.ExpectAll` | scripts/rebuild_daily_time_metrics.py:89-115 | the script's expected dictionary is the canonical table |
| `Intervals.PairEventRows` | app/services/time_intervals.py:68-89 | grouping by day and pairing each group equals pairing along the sorted list |
| `Intervals.GroupedPairing` | app/services/time_intervals.py:77-89 | the dictionary of days visited in insertion order yields the pairs in time order |
| `Intervals.PairRowsOfDay` | app/services/time_intervals.py:68-89 | pairing all events and keeping one day equals pairing that day's events alone |
| `Intervals.PairsDisjoint` | app/services/time_intervals.py:81-89 | both ends of a pair are stored rows of one day in time order, and later pairs use later rows |
| `Intervals.PairsApart` | app/services/time_intervals.py:81-89 | distinct pairs share no row and do not overlap in time |
| `Intervals.PairedByPosition` | app/services/time_intervals.py:92-94 | exactly the first even number of a day's times is paired; only an odd last one is left |
| `Intervals.DayStateByParity` | app/services/month_summary.py:206-212 | a day is complete exactly when it has a positive even number of punches |
| `Intervals.DayIntervalsByIndex` | app/services/time_intervals.py:82-88 | the intervals of a day join its times two by two |
| `Intervals.OrderedSorted` | app/services/time_intervals.py:64-65 | events are ordered by time, then id |
| `Breaks.BreakSegments` | app/services/time_intervals.py:124-141 | the search loop ends for every duration at the closed-form number of breaks |
| `Breaks.DealSegments` | app/services/time_intervals.py:133-141 | dealing leaves at least a minute for each remaining segment |
| `Breaks.BreaksPartitionShift` | app/services/time_intervals.py:124-141 | segments of 1 to 360 minutes, one more than breaks, that with 30 minutes a break add up to the shift |
| `Breaks.FewestBreaks` | app/services/time_intervals.py:127-132 | no split into blocks of at most 360 minutes uses fewer 30-minute breaks |
| `Breaks.BreaksAreLatest` | app/services/time_intervals.py:124-141 | before each break at least as much is worked as in any other split into as many blocks of 1 to 360 minutes |
| `Breaks.RequiredBreaksFit` | app/services/time_intervals.py:127-132 | the closed form satisfies the loop's exit condition |
| `Breaks.FewerBreaksOverrun` | app/services/time_intervals.py:127-132 | every smaller number of breaks leaves too much work per block |
| `Breaks.AutomaticBreakEvents` | app/services/time_intervals.py:144-156 | boundaries alternate work blocks and 30-minute breaks from the start |
| `Backfill.MissingBreakEventGroups` | app/services/time_intervals.py:159-211 | the session, measuring and placing loops together compute the specified groups |
| `Backfill.AllOrNothing` | app/services/time_intervals.py:174-210 | a session gets breaks of 1 to 30 minutes strictly inside its intervals that sum to exactly the missing pause, or nothing; and something exactly when a break is missing and one interval can hold the first |
| `Backfill.FillPlacesAll` | app/services/time_intervals.py:190-210 | once one interval is long enough for the first break, every later one is placed too |
| `Backfill.PlaceBreak` | app/services/time_intervals.py:196-206 | the placement loop: the first interval that holds the target, else the last one long enough |
| `Backfill.PlacementNearest` | app/services/time_intervals.py:195-206 | a break goes to its target where an interval holds it there, else as near to it as the last interval long enough allows, else nowhere |
| `Backfill.SessionsSplitAtPauses` | app/services/time_intervals.py:166-172 | sessions joined give the intervals back; pauses inside them are under 30 minutes, pauses between them are not |
| `Backfill.SessionsOf` | app/services/time_intervals.py:166-172 | the grouping loop computes those sessions |
| `Backfill.MeasurePause` | app/services/time_intervals.py:182-185 | recorded pause of a session |
| `Idempotence.AddBreaksIdempotence` | app/services/time_intervals.py:159-211 | on sheets whose sessions are single intervals, miss less than 30 minutes or get no break, a second run proposes nothing if and only if no session is one interval of 1111 to 1140 minutes; a third never does |
| `Idempotence.ShortfallsAreSettledAtOnce` | app/services/time_intervals.py:182-210 | a sheet whose sessions all miss less than 30 minutes gets nothing from a second run, whatever its pauses |
| `Idempotence.ShortfallIsSettled` | app/services/time_intervals.py:182-210 | a session missing less than 30 minutes gets one break that does not split it and leaves nothing missing |
| `Idempotence.SpacedIsSimple` | app/services/time_intervals.py:166-172 | sheets whose pauses all last at least 30 minutes are of the kind the equivalence is stated for |
| `Idempotence.SheetAfter` | app/services/time_intervals.py:68-102 | re-pairing the stored rows after one run: the sessions left, and what a further run finds in them |
| `Sheets.SessionsUnique` | app/services/time_intervals.py:166-172 | there is one way only to cut a list of intervals at its pauses of 30 minutes or more |
| `Sheets.PauseIsRest` | app/services/time_intervals.py:180-185 | recorded pause and recorded work make up a session |
| `Weaving.RepairedByCuts` | app/services/time_intervals.py:68-102 | adding times in order inside intervals re-pairs each of them into the pieces between, and leaves the others |
| `Weaving.StoredApart` | app/services/time_intervals.py:81-89 | no stored time lies strictly inside a recorded interval |
| `Idempotence.SingleSession` | app/services/time_intervals.py:190-210 | the breaks of an interval standing alone, in closed form |
| `Idempotence.PiecesSpaced` | app/services/time_intervals.py:190-210 | those breaks are ordered and disjoint and cut the interval into nonempty pieces 30 minutes apart |
| `Idempotence.PieceLengths` | app/services/time_intervals.py:181-186 | after one run every piece is at most 360 minutes, except the last piece of a 1111 to 1140 minute interval |
| `BreakAction.RepeatedAction` | app/api/v1/admin_attendance.py:166-266 | for two committed runs on such a sheet: the second changes nothing if and only if no session is one interval of 1111 to 1140 minutes, and a third would insert nothing |
| `BreakAction.AcceptedIffDistinct` | app/api/v1/admin_attendance.py:201-238 | on every sheet the action inserts exactly what was proposed, and the unique constraint accepts it if and only if no session's proposal names a minute twice |
| `BreakAction.AcceptedIffClashFree` | app/services/time_intervals.py:190-210 | the same condition read on the sheet: in each session that gets breaks, the places found from the targets every 360 minutes share no boundary |
| `BreakAction.ProposalByPlacement` | app/services/time_intervals.py:190-210 | a session gets breaks exactly when it reaches into the month, misses pause and can hold the first; each break is placed from its own target with its own length |
| `BreakAction.OneBreakIsAccepted` | app/services/time_intervals.py:190-210 | a sheet none of whose sessions misses more than 30 minutes is always accepted |
| `BreakAction.AffectedAreProposed` | app/api/v1/admin_attendance.py:205-238 | the number of affected intervals reported is the number of intervals breaks were proposed for |
| `BreakAction.CommitStores` | app/api/v1/admin_attendance.py:205-239 | a committed run stores every proposed boundary and nothing else |
| `BreakAction.SessionLosesItsBreaks` | app/services/time_intervals.py:186-210 | a committed run takes from a session at most the pause it missed, and exactly that if and only if no two of its breaks overlap |
| `BreakAction.SimpleLosesWhatItMisses` | app/services/time_intervals.py:186-210 | a session of one interval, or missing less than 30 minutes, or getting nothing, loses exactly its missing pause, or nothing |
| `BreakEffect.StillWorked` | app/services/time_intervals.py:68-102 | after inserting breaks a minute is worked exactly when it was and an even number of them covers it |
| `BreakEffect.WorkedByParity` | app/services/time_intervals.py:81-89 | a minute is worked exactly when an odd number of its day's punches has gone by and one is still to come |
| `BreakEffect.WorkDrop` | app/services/time_intervals.py:68-102 | recorded minutes drop by the length of the inserted breaks if and only if no two of them overlap |
| `BreakWitnesses.NotIdempotentOnLongShift` | README.md:40 | a concrete shift of 1120 minutes, its rows after one run, and that a further run adds to them |
| `BreakWitnesses.NotIdempotentOnShortPause` | docs/SSOT_CURRENT.md:98 | the same for a concrete sheet with a 20-minute pause |
| `BreakWitnesses.BreaksCanCollide` | app/services/time_intervals.py:200-207 | a concrete state in which the confirmed action fails on the unique constraint |
| `BreakWitnesses.BreaksCanOverlap` | docs/SSOT_CURRENT.md:98 | a concrete state in which the action commits overlapping breaks and leaves 38 minutes of pause where 60 are required |
| `Punches.AddEventPreservesDay` | app/services/attendance_events.py:53-87 | re-pairing the day after a closing punch gives the earlier intervals, the closed one cut into its work blocks, and all later intervals as without breaks |
| `Punches.BreaksCostThirtyMinutes` | app/services/attendance_events.py:71-85 | the day's worked minutes drop by exactly 30 for each inserted break |
| `Punches.ClosedPairs` | app/services/attendance_events.py:15-50 | the rows of a closed pair re-pair to its work blocks of at most 360 minutes |
| `Punches.AddEvent` | app/services/attendance_events.py:53-87 | the times stored for one new punch |
| `Punches.AddClosedInterval` | app/services/attendance_events.py:29-50 | the times stored for a closed pair |
| `Metrics.SplitIntervalByDay` | app/services/time_intervals.py:105-115 | the midnight loop ends and yields the specified parts |
| `Metrics.SplitPartitions` | app/services/time_intervals.py:105-115 | the parts follow one another from start to end, each nonempty and inside its own, later, day |
| `Metrics.MinutesConserved` | app/services/time_metrics.py:106-112 | daily totals over all days add up to the interval lengths |
| `Figures.DayFigure` | app/services/time_metrics.py:101-150 | every figure of a day counts the worked minutes of its hours: all, from 22:00 to 06:00, from the profile's afternoon to 22:00, on Saturdays and Sundays, on public holidays; rounded to the nearest tenth of an hour; missing when not kept |
| `Figures.TotalsConserved` | app/services/time_metrics.py:106-112 | the reported totals of all days add up to the lengths of the intervals |
| `Figures.PlannedAt` | app/services/time_intervals.py:20-38 | a minute is planned exactly between arrival and departure of its own day's plan |
| `Minutes.MinutesCounted` | app/services/time_intervals.py:118-121 | overlap lengths added up are the covered minutes counted one by one, for intervals that share none |
| `Metrics.WindowsPartition` | app/services/time_metrics.py:113-129 | with an afternoon from 06:00 on, night, day, and afternoon windows partition the day's minutes |
| `Metrics.CategoriesDisjoint` | app/services/time_metrics.py:113-129 | night plus afternoon stay within the total for all work if and only if the afternoon starts at 06:00 or later |
| `MonthTotals.CategoriesAtMostTotal` | app/services/time_metrics.py:101-150 | no category of a day exceeds its total, in minutes or tenths, for any intervals |
| `MonthTotals.EasterCategories` | app/services/time_metrics.py:130-143 | Good Friday and Easter Monday count in full as holidays and not as weekend; Easter Sunday and the day before count in full as weekend |
| `MonthTotals.MonthDrift` | app/services/month_summary.py:83-98 | every month and category: six times the tenths is within -2 and +3 minutes a day of the exact minutes |
| `Metrics.RoundingDrift` | app/services/time_metrics.py:47-54 | the same bound for any list of rounded days |
| `Metrics.TenthsMonotone` | app/services/time_metrics.py:153-163 | more minutes on any day never lower the month's tenths |
| `Calendar.MonthUnique` | app/services/daily_metrics.py:64-72 | the month bounds used in every query select exactly the days of that month |
| `Calendar.YearStartClosedForm` | app/services/czech_holidays.py:33-45 | the day number of 1 January by the 4, 100 and 400 year rules |
| `Holidays.EasterFromMarch` | app/services/czech_holidays.py:31-33 | the month and day the computus yields name the day that many days after 22 March, in March or April alike |
| `Holidays.EasterRange` | app/services/czech_holidays.py:20-33 | Easter lies from 22 March to 25 April |
| `Holidays.EasterIsSunday` | app/services/czech_holidays.py:20-33 | Easter is a Sunday in every year |
| `Holidays.MoonShiftIsEpact` | app/services/czech_holidays.py:24-28 | the computus agrees with the epact table of the Gregorian reform |
| `Holidays.EasterFollowsFullMoon` | app/services/czech_holidays.py:20-33 | Easter is the one Sunday one to seven days after the ecclesiastical full moon |
| `Holidays.EasterWeekdays` | app/services/czech_holidays.py:44-48 | Good Friday is a Friday and Easter Monday a Monday |
| `Holidays.EasterDays` | app/services/czech_holidays.py:44-48 | Good Friday and Easter Monday are public holidays and the day before Easter is a Saturday |
| `Holidays.EasterHolidays` | app/services/czech_holidays.py:40-49 | Good Friday and Easter Monday lie from 20 March to 26 April of that year, so they never meet a fixed holiday |
| `Holidays.ThirteenHolidays` | app/services/czech_holidays.py:5-17 | every year has exactly thirteen public holidays |
| `RateLimit.RateLimiter.EnforceRateLimit` | app/security/integration_rate_limit.py:20-35 | decision and buckets after one request |
| `RateLimit.Cleanup` | app/security/integration_rate_limit.py:15-17 | the popping loop leaves the live suffix of the bucket |
| `RateLimit.BucketIsHistory` | app/security/integration_rate_limit.py:15-35 | after any run, what a bucket forgot no later request can need |
| `RateLimit.RefusedExactlyWhenFull` | app/security/integration_rate_limit.py:30-35 | refused if and only if there is a limit and that many requests of the key were accepted in the preceding 60 seconds; without a limit a request leaves no trace |
| `RateLimit.EveryWindowIsLimited` | app/security/integration_rate_limit.py:30-35 | no half-open window of 60 seconds, wherever it starts, holds more accepted requests of a key than the largest limit applied to it |
| `RateLimit.KeysAreIndependent` | app/security/integration_rate_limit.py:29-35 | a key's bucket is what it would be had no other key sent anything |
| `Reminders.AttemptTimes` | app/services/attendance_reminders.py:92-98 | attempt i is due exactly from ten minutes times i - 1 after the first on, up to the fifth |
| `Reminders.EventCounts` | app/services/attendance_reminders.py:220-223 | the tally of recent punches agrees with the stored punches for today and yesterday |
| `Reminders.DueExactly` | app/services/attendance_reminders.py:224-290 | reminder i is due exactly: five minutes after a planned arrival without punches, two hours after a planned departure while punched in, from 08:00 after a day left punched in; plus ten minutes for each earlier one, five in all |
| `Reminders.SentWhenDue` | app/services/attendance_reminders.py:157-304 | every mail sent was due in some run, and whatever was due in a completed run has been sent |
| `Reminders.Scheduler.SendDue` | app/services/attendance_reminders.py:238-249 | the send loop sends the due numbers not yet sent, in order, up to the first failure, and records exactly those |
| `Reminders.Scheduler.Process` | app/services/attendance_reminders.py:157-304 | one run over all employments sends its pending reminders in order up to the first failure, judged against the whole table though only two days are loaded |
| `Reminders.NeverSentTwice` | app/services/attendance_reminders.py:224-304 | over any runs, failing ones included, no reminder is sent twice |
| `Reminders.SentArePrefix` | app/services/attendance_reminders.py:224-304 | the numbers sent of one kind for one employment and day are 1 to k, k at most five, at least what every completed run found due and at most what some run did |

## Where code and documentation differ

- README.md:40 and docs/SSOT_CURRENT.md:98 call the "add breaks" action idempotent and promise the missing
  pause. The model follows the code: `Idempotence` and `BreakAction` give exact conditions, and
  `BreakWitnesses` concrete sheets on which a second run adds breaks, the database refuses the action, or
  less pause is added than is missing.
- The plan endpoint has an overlap check (app/api/v1/admin_shift_plan.py:520-532); plans stay inside their
  day and there is one per day, so it never refuses (`Ledger.PlansNeverOverlap`).

## Left out

- Idempotence.AddBreaksIdempotence: the equivalence is not stated for sheets with a session of several intervals that misses 30 minutes or more and gets breaks; there its breaks cut the session and the parts are short or not depending on where they fall (`BreakWitnesses.NotIdempotentOnShortPause` is one that is).
- Footprint.FootprintSound: assumes distinct wall-clock times per employment, which the unique constraint gives except in the repeated hour of the autumn clock change.
- Store.Employment: SQL queries, row order of unordered selects and the flush order inside a transaction are not modelled; the row lock is modelled as atomicity of each method.
- Store.Employment.UpdateEmployment: takes the requested values with unset fields already filled in; the title and labels are not modelled.
- Reminders.Scheduler.Process: a run is assumed not to stop between sending a mail and recording it; reminder rows deleted by a period change are not fed back into the scheduler.
- RateLimit.RateLimiter.EnforceRateLimit: the bucket key is a parameter; its assembly from namespace, client and address is not modelled.
- Time-zone conversion, clock-change offsets, seconds and microseconds: wall-clock minutes throughout.
- Effects.RunExactly: takes the period of a new employment as checked at creation (app/api/v1/admin_employments.py:724).
- Dates run on without the upper limit of year 9999.
- Creating and deleting an employment beyond its initial state, employment groups, shift-plan selection and automatic locking: they would only add easy members.
- Employee and integration endpoints, sign-in, HTTP, CSRF and payload parsing.
- Printing, PDF, CSV and the web front end; holiday names.
