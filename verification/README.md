# A Dafny model of the punch-in system

This Dafny project models the attendance backend (punches, cached day rows, automatic closes, location
retention, read models), its refresh-token and rate-limit machines, and the two pieces of browser code that
take part in protocols with it: the idempotent retry of a punch and the single-flight session refresh.

Each table set is a value (`Attendance.Tables`, `Auth.Tables`, `RateLimit.Ledger`) with every operation a
function from state to state. The services that update rows step by step are classes (`AttendanceService`,
`AuthService`, `RateLimit.Limiter`, `PunchClient.UsePunch`, `SinglePage.ApiClient`) whose methods are proved
equal to those functions, and what the functions answer and change is stated apart from their definitions
(`Accounts`, `Movement`, `Answers`); loops of the read models are methods proved against recursive definitions. What the
system promises over whole runs is proved about the functions.

Time is an integer number of microseconds passed to every step. Facts that hold for any timestamps (one open
session, consistent durations, cached totals, log correspondence, keys) are proved without assumption on the
clock. The service reads its clock before it waits for the user's row, so timestamps need not follow the
serialisation order, and `WorkedTime.OutOfOrderClockOverlaps` is a run in which sessions then overlap. `Order`
gives the exact condition: a user's sessions stay disjoint at every moment of a run if and only if each accepted
punch-in came no earlier than the end of that user's earlier sessions (`Order.InOrder`), and then every cached
day row is exact too. Disjointness, worked-time bounds and lateness are proved on all runs with that property.
Timestamps that follow the serialisation order (`Monotone`) are sufficient for it (`Order.MonotoneInOrder`).

Elsewhere, too, a theorem assumes of the clock only what it needs, and a lemma derives that from an ordered clock:
regular maintenance that punches are not too far from the last pass (`Upkeep.Maintained`), location purges that a
punch comes long enough after what was erased (`Retention.Forgettable`), the limiter's counts that sweeps come
before later requests in time (`Admission.SweepsFirst`), and access tokens only that password changes fall in
distinct milliseconds. Login lockout and the invisibility of sweeps assume an ordered clock (`RateLimit.Serial`).

Files: `Base` and `Geofence` (vocabulary, clock, reading validation); `Attendance`, `AttendanceService`,
`AttendanceInvariants`, `Order`, `WorkedTime`, `Movement`, `Answers`, `Journal`, `Upkeep`, `Retention` (punches and
maintenance); `Idempotency`, `PunchClient`, `Retry` (keys and the retry protocol); `ReadModels`, `Presence`
(views); `RateLimit`, `Admission` (the limiter and what it lets through); `Auth`, `AuthService`, `Accounts`,
`TokenFamilies`, `Credentials`, `SinglePage` (accounts and sessions).

Where the code and its documentation differ, the model follows the code:

- The service header says every attempt produces an event row. `Answers.UnrecordedAttempts` names attempts that
  leave none, and `Answers.RecordedExactly` gives the guard that decides it before the call: the request is not
  screened out, the session's state allows the punch, and an acceptable punch-out comes after its session began.
- A refusal for the session's state makes the page give its key up as settled, but it is not final:
  `Retry.LateAcceptanceHappens` and `Retry.LateDepartureHappens` are runs in which the refused punch-in or punch-out
  is delivered again and accepted. `Retry.StaleRefusalIsNotFinal` and `Retry.AcceptedExactlyWhenServed` say exactly
  when, and `Retry.GivenUpIsFinalUnlessServed` that nothing is accepted otherwise.
- Idempotency keys are not scoped by direction: `Retry.WrongDirectionHappens` is a run that reports the wrong one, and
  `Retry.DirectionHonouredExactly` says when a success has the direction asked for: exactly if the key was unsettled
  before the call, or settled in that direction.
- The advertised wait of the rate limiter is truncated: `Admission.WaitAdmitsExactly` says exactly when a request
  that waits that long is let in, `Admission.AdvertisedWaitFallsShort` is a run in which it is not.
- The limiter reads its clock before its upsert waits for the row. A request serialised after a sweep that read a
  later clock starts its window's count again, so without an order there is no bound at all
  (`Admission.LateRequestsUnbounded`); `Admission.CountExactly` says exactly when a count is right.
- A rotated token that is presented again is documented to end its whole family. It does so exactly while its row
  exists (`TokenFamilies.ReuseKillsExactly`); once the row was swept the reuse goes unnoticed
  (`TokenFamilies.PurgedReuseUnnoticed`).
- Disabling a user kills refresh tokens for ever, but refuses access tokens only while the user is disabled:
  `Credentials.RefusedOnlyWhileDisabled`, over any run without a password change.
- A password change is meant to end earlier access tokens. One that names the very millisecond of the change
  survives it: `Credentials.SurvivesOnlySameMillisecond`, reached in `Credentials.SameMillisecondTokenSurvives`.
- `location_retention_days` has no lower bound. Erasing coordinates is invisible to the movement check exactly
  when retention days times the speed limit reach 834: `Retention.RetentionInvisible`, `Retention.ShortRetentionShows`.

## Model

| member | source | states |
|---|---|---|
| `Clock.LocalDate` | backend/app/core/time.py:44-46 | an instant belongs to the local day whose bounds enclose it |
| `Clock.WeekdayOfInstant` | backend/app/core/time.py:44-46 | the epoch was a Thursday, a day later is the next date and weekday |
| `Clock.MinuteOfDay` | backend/app/services/attendance_service.py:494-500 | the minute of the day counts whole minutes since local midnight |
| `Geofence.AcceptedExactly` | backend/app/services/geofence_service.py:94-196 | a reading is accepted iff it passes every gate, movement counting only where it is set to block |
| `Geofence.FirstFailingGate` | backend/app/services/geofence_service.py:94-196 | each code is given iff its gate fails and all earlier gates pass; a flag iff the movement check was reached and failed; distance and flag hold the reading's figures |
| `Geofence.RelaxingAcceptsMore` | backend/app/services/geofence_service.py:94-196 | relaxing radius, accuracy, speed or blocking never turns an accepted reading away |
| `Geofence.SpeedIsDistanceOverTime` | backend/app/utils/geo.py:45-49 | the speed times the hours is the kilometres; no elapsed time is infinitely fast unless nothing was travelled |
| `Geofence.TooFastMeans` | backend/app/utils/geo.py:45-49 | too fast means more kilometres than the limit allows in the hours passed, or any distance in no time |
| `Geofence.ConstraintEdges` | backend/app/models/workspace.py:56-70 | the extremes the workspace table admits and the first values it does not |
| `Movement.SightingIsLatest` | backend/app/repositories/punch_repo.py:29-41 | the movement check uses the latest accepted, unpurged punch, and none exactly if there is none |
| `Movement.ComparedWithLatest` | backend/app/services/geofence_service.py:155-165 | a verdict is the reading checked against the user's latest accepted punch with coordinates, or against nothing |
| `Movement.RefusalsLeaveVerdicts` | backend/app/repositories/punch_repo.py:29-41 | refused attempts and other users' punches leave every later verdict as it was |
| `Movement.AcceptedPunchIsCompared` | backend/app/repositories/punch_repo.py:29-41 | the next reading is checked against an accepted punch no earlier than the user's others, and an earlier one changes nothing |
| `AttendanceService.Service.GetOrCreateDay` | backend/app/repositories/attendance_repo.py:37-63 | upsert on user and date: an existing row is kept, a missing one starts empty |
| `AttendanceService.Service.RecomputeDayTotals` | backend/app/repositories/attendance_repo.py:142-166 | every derived field comes from the day's sessions; lateness is kept |
| `AttendanceService.Service.TodayState` | backend/app/services/attendance_service.py:70-114 | the step-by-step view equals the specified state and totals |
| `AttendanceService.Service.DuplicateOutcome` | backend/app/services/attendance_service.py:247-275 | a replay answers from the recorded event |
| `AttendanceService.Service.Screen` | backend/app/services/attendance_service.py:294-306 | the workspace, account and key checks in order |
| `AttendanceService.Service.RecordEvent` | backend/app/services/attendance_service.py:160-193 | one event is appended |
| `AttendanceService.Service.PunchIn` | backend/app/services/attendance_service.py:287-394 | new tables and answer of a punch-in on every path, refusals included |
| `AttendanceService.Service.PunchOut` | backend/app/services/attendance_service.py:397-491 | new tables and answer of a punch-out on every path, refusals included |
| `AttendanceService.Service.AutoCloseStaleSessions` | backend/app/services/attendance_service.py:503-539 | the loop closes all stale sessions, recomputes their days and counts them |
| `AttendanceService.Service.PurgeLocationData` | backend/app/jobs/maintenance.py:32-53 | coordinates of events past retention are erased, nothing else, and the rewritten events are counted |
| `Answers.TodayStateMeans` | backend/app/services/attendance_service.py:97-102 | PRESENT iff a session is open; otherwise CHECKED_OUT or ABSENT by today's sessions |
| `Answers.TodayShowsRunning` | backend/app/services/attendance_service.py:70-114 | the view names the user's open session and how long it has run, or none |
| `Answers.SucceedsExactly` | backend/app/services/attendance_service.py:287-491 | a punch takes effect iff it is not screened out, the session state allows it, the reading is accepted and a punch-out comes after its session began; otherwise sessions and days are untouched |
| `Answers.PunchInDescribesSession` | backend/app/services/attendance_service.py:334-394 | a first-time success returns the one new session, open since the server's instant |
| `Answers.PunchOutDescribesSession` | backend/app/services/attendance_service.py:443-491 | a first-time success returns the user's open session, completed now, and leaves none open |
| `Answers.SuccessShowsNow` | backend/app/services/attendance_service.py:247-275 | every success, first-time or replayed, shows today's elapsed seconds, the user's state and the session row as it now is |
| `Answers.AnswerCodes` | backend/app/services/attendance_service.py:287-444 | which code each request is answered, check by check in order |
| `Answers.ReplayAnswers` | backend/app/services/attendance_service.py:247-275 | a settled key is answered with the recorded refusal, the recorded session, or as a duplicate |
| `Answers.RefusalKeepsSessions` | backend/app/services/attendance_service.py:308-332 | no refusal touches sessions or days |
| `Answers.RecordedExactly` | backend/app/services/attendance_service.py:308-369 | an event is written iff the request is not screened out, the session state allows the punch, and an acceptable punch-out comes after its session began |
| `Answers.UnrecordedAttempts` | backend/app/services/attendance_service.py:308-312 | leaving before entering, entering twice and leaving at the instant of entering write nothing |
| `AttendanceInvariants.RunConsistent` | backend/app/models/attendance.py:110-136 | on every run: one open session per user, punch-out after punch-in, durations paired and exact, cached totals, status and last punch-out equal the recomputation |
| `AttendanceInvariants.RunTimely` | backend/app/services/attendance_service.py:354-357 | on timely runs every patched day row equals its full recomputation, and sessions of a user are ordered and disjoint |
| `AttendanceInvariants.LatenessLatchedOverRuns` | backend/app/services/attendance_service.py:354-356 | a day row is never removed and its lateness never changes again |
| `AttendanceInvariants.RecomputedMeans` | backend/app/repositories/attendance_repo.py:142-166 | recomputing a day stores the status by its sessions, the sum of stored seconds, the earliest punch-in, the latest punch-out and the lateness there was |
| `Order.OrderedExactly` | backend/app/services/attendance_service.py:295-343 | after a run the sessions of each user follow one another iff every accepted punch-in came no earlier than the end of that user's earlier sessions; closing never matters |
| `Order.DisjointThroughoutExactly` | backend/app/services/attendance_service.py:295-343 | at no moment of a run is an instant accounted to two sessions of one user, iff the same condition holds |
| `Order.ExactThroughoutExactly` | backend/app/services/attendance_service.py:354-357 | at every moment of a run all cached rows equal their recomputation, iff no accepted punch-in was earlier than the first punch-in its day row showed |
| `Order.InOrderExact` | backend/app/services/attendance_service.py:354-357 | with punch-ins in order every cached day row equals its recomputation |
| `Order.MonotoneInOrder` | backend/app/services/attendance_service.py:295-298 | timestamps that follow the serialisation order are enough for punch-ins in order |
| `WorkedTime.SessionsDisjoint` | backend/app/services/attendance_service.py:308-343 | with punch-ins in order no instant is accounted to two sessions of one user, automatic closes included |
| `WorkedTime.OutOfOrderClockOverlaps` | backend/app/services/attendance_service.py:295-298 | a run whose clock was read before the lock, not in order, in which sessions overlap and the patched row is not exact |
| `WorkedTime.TruncationLoss` | backend/app/services/attendance_service.py:447 | truncated durations lose less than a second per closed session |
| `WorkedTime.DayTotalBounds` | backend/app/services/attendance_service.py:446-453 | with punch-ins in order the cached total is at most last punch-out less first punch-in, and within a second per session of the exact time |
| `WorkedTime.ElapsedIsWholeSeconds` | backend/app/services/attendance_service.py:64-67 | elapsed seconds are the whole seconds to punch-out, or to now, and none before the session began |
| `WorkedTime.ElapsedOfClosed` | backend/app/services/attendance_service.py:64-67 | a closed session shows its stored duration, zero without one |
| `WorkedTime.LateFromNextMinute` | backend/app/services/attendance_service.py:494-500 | late means at least one full minute after the threshold minute began |
| `WorkedTime.DatesAreLocal` | backend/app/services/attendance_service.py:334-343 | in one zone every session sits on the local date it began, in any order of timestamps |
| `WorkedTime.LateMeansFirstPunchLate` | backend/app/services/attendance_service.py:334-357 | with one zone and policy and punch-ins in order, a session sits on the date it began and a day is late iff its first punch-in was |
| `Journal.ReplayRebuildsSessions` | backend/app/services/attendance_service.py:337-369 | in one zone, replaying accepted events and automatic closes rebuilds the session table exactly |
| `Journal.LogMatchesOnRuns` | backend/app/services/attendance_service.py:446-465 | each session has one accepted IN, an accepted OUT iff COMPLETED, a capping row iff AUTO_CLOSED |
| `Journal.OpenSessionsConserved` | backend/app/services/attendance_service.py:515-536 | accepted INs less OUTs less automatic closes equal the open sessions |
| `Upkeep.AutoClosePassSessions` | backend/app/services/attendance_service.py:515-519 | exactly the open active sessions begun more than the cutoff ago end the cutoff after they began, as AUTO_CLOSED; every other row is unchanged |
| `Upkeep.NoneLeftOpenPastCutoff` | backend/app/repositories/attendance_repo.py:169-178 | after a pass no open session began before the cutoff |
| `Upkeep.SecondPassDoesNothing` | backend/app/services/attendance_service.py:503-539 | a second pass at the same instant changes nothing |
| `Upkeep.MonotoneMaintained` | backend/app/services/attendance_service.py:503-539 | on an ordered clock it is enough that no punch-out comes more than the gap after the pass before it |
| `Upkeep.DurationsBounded` | backend/app/services/attendance_service.py:503-539 | if punch-ins come after the cutoff of the last pass and punch-outs within the gap after it, no closed session is longer than the cutoff plus the gap |
| `Upkeep.ElapsedBounded` | backend/app/services/attendance_service.py:503-539 | nor does a running one show more, at any instant up to the gap after the last pass |
| `Upkeep.DayTotalsBounded` | backend/app/services/attendance_service.py:503-539 | with punch-ins in order and one zone, no day total exceeds a day plus the cutoff plus the gap |
| `Retention.PurgeInvisible` | backend/app/jobs/maintenance.py:32-53 | if each punch comes long enough after what was erased before it, it gets the same verdict, flags, answer and effect whether or not purges ran |
| `Retention.RetentionInvisible` | backend/app/jobs/maintenance.py:32-53 | a retention that outlasts every speed limit is enough when purges precede, in time, the punches serialised after them |
| `Retention.MonotonePurgesFirst` | backend/app/jobs/maintenance.py:32-53 | which they do on an ordered clock |
| `Retention.ShortGapShows` | backend/app/services/geofence_service.py:155-185 | for any metric and far places, a punch too soon after an erasure shows: the purge removes a flag or turns a refusal into an acceptance |
| `Retention.ShortRetentionShows` | backend/app/services/geofence_service.py:155-185 | so every retention short of 834 over the speed limit shows on a run with an ordered clock |
| `Retention.EightyFourDaysAlwaysSuffice` | backend/app/models/workspace.py:67-70 | 84 days are enough for every speed limit the table admits |
| `Retention.PurgeErasesExactlyTheOld` | backend/app/jobs/maintenance.py:39-52 | after a purge no event past retention has coordinates, and everything else about every event is unchanged |
| `Idempotency.PunchRecordsAtMostOne` | backend/app/services/attendance_service.py:303-306 | a punch appends at most one event, and only under an unsettled key |
| `Idempotency.ReplayChangesNothing` | backend/app/services/attendance_service.py:247-275 | a request whose key is settled changes no table |
| `Idempotency.DoneIsSettled` | backend/app/services/attendance_service.py:359-369 | a success names the session of the event that settles its key |
| `Idempotency.RefusedReadingIsSettled` | backend/app/services/attendance_service.py:211-244 | a refused reading is recorded under its key with the same code |
| `Idempotency.SettledForEver` | backend/app/models/punch_event.py:91-94 | a settled key keeps its event on every further run, keys stay unique, events point at their own user's sessions |
| `PunchClient.UsePunch.Begin` | frontend/src/hooks/usePunch.js:42-89 | which checks stop an attempt and with which failure, and that a pending key is reused |
| `PunchClient.UsePunch.Finish` | frontend/src/hooks/usePunch.js:91-134 | the key is given up exactly on conclusive answers, and what is reported |
| `Retry.SuccessMeansExactlyOnce` | frontend/src/hooks/usePunch.js:89-97 | a reported success has exactly one accepted event under its key, whose session was returned |
| `Retry.AtMostOnePerKey` | backend/app/services/attendance_service.py:303-306 | no network behaviour gives one key two events |
| `Retry.RefusedReadingIsFinal` | frontend/src/hooks/usePunch.js:111-120 | after a reported refusal of the reading nothing is ever accepted under that key |
| `Retry.RetriesKeepTheirKey` | frontend/src/hooks/usePunch.js:32-34 | a key is replaced iff a request that carried it was answered conclusively or its page was left or reloaded |
| `Retry.SameDirectionIsHonoured` | backend/app/services/attendance_service.py:303-306 | if all requests under a key agree on the direction, the event has it |
| `Retry.DirectionHonouredExactly` | backend/app/services/attendance_service.py:303-306 | a success has the direction asked for iff its key was unsettled, or settled by an event of that direction |
| `Retry.AnswerLost` | frontend/src/hooks/usePunch.js:121-134 | a run in which a punch-in is recorded but reported as unreachable, and the key is kept |
| `Retry.SettledKeyAlwaysSucceeds` | backend/app/services/attendance_service.py:247-275 | retrying in any direction under a settled key reports success and changes nothing |
| `Retry.WrongDirectionHappens` | frontend/src/hooks/usePunch.js:88-92 | a run in which a punch-out is reported although only a punch-in was recorded |
| `Retry.StaleRefusalIsNotFinal` | frontend/src/hooks/usePunch.js:101-110 | a request under an unsettled key, refused before or not, is accepted when served again iff the workspace, account and reading are good and, for a punch-in, no session is open or, for a punch-out, one begun before the server's instant is |
| `Retry.AcceptedExactlyWhenServed` | frontend/src/hooks/usePunch.js:101-120 | over any further run, something is accepted under a key iff one of its requests is served where the guards of its punch hold |
| `Retry.GivenUpIsFinalUnlessServed` | frontend/src/hooks/usePunch.js:101-120 | nothing is ever accepted under a key given up while unaccepted if none of its requests is served again |
| `Retry.LateAcceptanceHappens` | frontend/src/hooks/usePunch.js:101-110 | from one punch-in on, a run in which a punch-in reported as already punched in is accepted later |
| `Retry.LateDepartureHappens` | frontend/src/hooks/usePunch.js:103-108 | a run in which a punch-out reported as not punched in later closes a session begun since |
| `ReadModels.PayloadIsElapsed` | backend/app/services/attendance_service.py:117-131 | a day's reported total is the sum of elapsed seconds over its sessions |
| `ReadModels.HistoryIsElapsed` | backend/app/services/attendance_service.py:134-152 | a history total is that sum over the range |
| `ReadModels.HistoryAdditive` | backend/app/services/attendance_service.py:134-152 | history totals of adjacent ranges add up |
| `ReadModels.DaySessionsAre` | backend/app/services/analytics_service.py:80-86 | a day lists the sessions of the table with its user and date |
| `ReadModels.DaySessionsCounted` | backend/app/services/analytics_service.py:80-86 | each of them once |
| `ReadModels.TodayIsTodaysHistory` | backend/app/services/attendance_service.py:83-95 | the total shown for today is today's history total |
| `ReadModels.ListDays` | backend/app/repositories/attendance_repo.py:77-96 | exactly the day rows in range, latest first |
| `ReadModels.WorkingDays` | backend/app/services/analytics_service.py:45-56 | the loop ends with the closed-form count of weekdays up to today |
| `ReadModels.WeekdaysClosedForm` | backend/app/services/analytics_service.py:45-56 | the count is a difference of whole weeks and remainders |
| `ReadModels.WeekdaysAdditive` | backend/app/services/analytics_service.py:45-56 | the count is additive over split ranges |
| `ReadModels.AnySevenDaysHoldFive` | backend/app/services/analytics_service.py:45-56 | any seven consecutive days hold five |
| `ReadModels.TallyDays` | backend/app/services/analytics_service.py:80-98 | the loop's totals over the listed days |
| `ReadModels.PresentDatesExactly` | backend/app/services/analytics_service.py:85-87 | present days are the listed days on which the user has a session |
| `ReadModels.RunningSeconds` | backend/app/services/analytics_service.py:81-83 | the running seconds of a day |
| `ReadModels.LongestSession` | backend/app/services/analytics_service.py:91-92 | the longest session so far |
| `ReadModels.Summarise` | backend/app/services/analytics_service.py:59-123 | the summary's figures in terms of listed days and sessions |
| `ReadModels.LateCounts` | backend/app/services/analytics_service.py:89-90 | late arrivals are the listed days whose row is late |
| `ReadModels.AverageMeans` | backend/app/services/analytics_service.py:110-112 | the average is the floored total over the days, and zero without days |
| `ReadModels.LongestOverIsOne` | backend/app/services/analytics_service.py:91-92 | the longest session is one of the user's on those dates and none is longer |
| `ReadModels.SummaryAgreesWithHistory` | backend/app/services/analytics_service.py:80-98 | the summary total is the sum over sessions, hence the history total, and the longest session is within it |
| `ReadModels.AbsencesExplained` | backend/app/services/analytics_service.py:100-108 | in any consistent table without rows after today, reported absences are unattended weekdays less weekend days attended, clamped at zero |
| `ReadModels.AbsencesOnRuns` | backend/app/services/analytics_service.py:100-108 | so on every run in one zone whose punches read instants up to now |
| `Presence.TakeSnapshot` | backend/app/services/analytics_service.py:126-223 | the one-pass lists; each team's figures count its people by the state of their own view, in order, and the columns add up to the lists and to everybody |
| `Presence.SnapshotPartitions` | backend/app/services/analytics_service.py:154-192 | every user is in exactly one list, as often as among the users |
| `Presence.TeamCountsAddUp` | backend/app/services/analytics_service.py:198-209 | per team the three lists add up |
| `Presence.TeamsAddUp` | backend/app/services/analytics_service.py:211-215 | the teams add up to all users |
| `Presence.LineShowsDay` | backend/app/services/analytics_service.py:154-165 | a line shows the day's lateness and number of sessions |
| `Presence.SnapshotStateIsTodays` | backend/app/services/analytics_service.py:166-192 | the dashboard's state is the one the user's own view shows |
| `Presence.SnapshotTotalIsTodays` | backend/app/services/analytics_service.py:166-177 | totals agree iff no overnight session is running, and differ by it otherwise |
| `RateLimit.Limiter.RegisterHit` | backend/app/services/rate_limit.py:82-100 | the upsert of the current window's row |
| `RateLimit.Limiter.Enforce` | backend/app/services/rate_limit.py:103-111 | a request beyond the limit is refused and its hit rolled back |
| `RateLimit.Limiter.AssertWithin` | backend/app/services/rate_limit.py:114-139 | refuses on a used-up window without consuming |
| `RateLimit.Limiter.Clear` | backend/app/services/rate_limit.py:146-151 | removes all windows of one key |
| `RateLimit.Limiter.PurgeExpired` | backend/app/services/rate_limit.py:168-172 | removes exactly the rows past their end and counts them |
| `RateLimit.Limiter.HandleLogin` | backend/app/api/v1/auth.py:69-91 | check, then record a failure or clear |
| `RateLimit.WindowContains` | backend/app/services/rate_limit.py:70-74 | the current window has begun and not ended |
| `RateLimit.RetryAfterBounds` | backend/app/services/rate_limit.py:99-100 | the wait is between one second and the window, and one second more always reaches a new window |
| `RateLimit.WaitTold` | backend/app/services/rate_limit.py:132-139 | a refusal tells the whole seconds left of the current window, at least one |
| `RateLimit.OwnPolicy` | backend/app/services/rate_limit.py:32-67 | each policy name reads its own limit and window |
| `RateLimit.AdvertisedWaitSuffices` | backend/app/services/rate_limit.py:99-100 | the wait reaches the end of the window iff nothing, or all of a last second, was truncated |
| `Admission.CountExactly` | backend/app/services/rate_limit.py:82-111 | in any order of clock readings a stored count is at most the number let through in its window, and equal iff no sweep deleted rows of that window |
| `Admission.WindowWithinLimit` | backend/app/services/rate_limit.py:82-111 | a window into which no request falls after its rows were swept never exceeds the limit |
| `Admission.AdvertisedWaitFallsShort` | backend/app/services/rate_limit.py:99-100 | for every limit with windows of two seconds or more, a run in which doing exactly the advertised wait is refused again |
| `Admission.CountIsAdmitted` | backend/app/core/deps.py:92-111 | if sweeps come before later requests in time, the count a request meets is the number let through in the window, never above the limit |
| `Admission.AnyIntervalAdmitsAtMostTwice` | backend/app/services/rate_limit.py:70-111 | under the same condition any interval of one window's length, aligned or not, admits at most twice the limit |
| `Admission.TwiceTheLimitIsReached` | backend/app/services/rate_limit.py:70-111 | for every policy a run exists that reaches twice the limit |
| `Admission.RefusedExactlyWhenFull` | backend/app/services/rate_limit.py:103-111 | under the same condition a request is refused iff its window has already let the limit through |
| `Admission.LateRequestsUnbounded` | backend/app/services/rate_limit.py:84-98 | without it, for every number of rounds, a run that lets that many times the limit through in one window |
| `Admission.SerialSweepsFirst` | backend/app/services/rate_limit.py:168-172 | an ordered clock has its sweeps first |
| `Admission.FailuresAreCounted` | backend/app/api/v1/auth.py:73-91 | an account's count is the number of failures since the last success in the window, never above the limit |
| `Admission.AnyIntervalFailsAtMostTwice` | backend/app/api/v1/auth.py:73-91 | any interval of one window's length holds at most twice the limit of failures since the last success |
| `Admission.WaitAdmitsExactly` | backend/app/services/rate_limit.py:99-100 | a refused request that waits exactly as told is let in iff the limit admits anyone and nothing, or all of a last second, was truncated |
| `Admission.SweepsInvisible` | backend/app/services/rate_limit.py:168-172 | interleaved sweeps never change a verdict |
| `Admission.LockedOutExactly` | backend/app/api/v1/auth.py:73-91 | an account is refused iff the window holds the limit of failures since its last success |
| `Admission.SuccessWipesTheSlate` | backend/app/services/rate_limit.py:146-151 | after a success no window of the account holds a failure |
| `Admission.CorrectLoginsNeverRefused` | backend/app/api/v1/auth.py:69-74 | a run of only successes is never refused iff the limit admits anyone |
| `AuthService.Service.Create` | backend/app/repositories/token_repo.py:13-34 | a fresh live row |
| `AuthService.Service.Revoke` | backend/app/repositories/token_repo.py:41-43 | stamps one row |
| `AuthService.Service.PurgeExpired` | backend/app/repositories/token_repo.py:65-71 | removes exactly the rows past their expiry and counts them |
| `AuthService.Service.RevokeFamily` | backend/app/repositories/token_repo.py:46-53 | revokes the live rows of one family and counts them |
| `AuthService.Service.RevokeAllForUser` | backend/app/repositories/token_repo.py:56-62 | revokes the live rows of one user and counts them |
| `AuthService.Service.Issue` | backend/app/services/auth_service.py:47-75 | an access token and a refresh row, in a given or a new family |
| `AuthService.Service.Register` | backend/app/services/auth_service.py:78-129 | an ordinary active user signed straight in, or the refusal |
| `AuthService.Service.Login` | backend/app/services/auth_service.py:132-174 | a session in a new family, or the refusal |
| `AuthService.Service.Refresh` | backend/app/services/auth_service.py:177-230 | rotation and every refusal with its revocations |
| `AuthService.Service.Logout` | backend/app/services/auth_service.py:233-240 | revokes the presented token if it is live |
| `AuthService.Service.ChangePassword` | backend/app/services/auth_service.py:243-263 | stamps the user and revokes all refresh tokens |
| `AuthService.Service.CreateUser` | backend/app/services/user_service.py:39-67 | an administrator's new user, or the refusal |
| `AuthService.Service.ChangeRole` | backend/app/services/user_service.py:70-111 | the role part of an update with its guards and revocations |
| `AuthService.Service.SetStatus` | backend/app/services/user_service.py:114-140 | enabling and disabling with guards and revocations |
| `AuthService.Service.ResetPassword` | backend/app/services/user_service.py:143-158 | an administrator's reset |
| `AuthService.Service.CurrentUser` | backend/app/core/deps.py:40-58 | which access tokens are accepted |
| `AuthService.Service.RequireAdmin` | backend/app/core/deps.py:64-67 | who may administer |
| `Accounts.LoginExactly` | backend/app/services/auth_service.py:132-174 | a login succeeds iff the user exists, the password is theirs and they are enabled; the code of each refusal; a refusal changes nothing |
| `Accounts.RegisterExactly` | backend/app/services/auth_service.py:94-129 | a sign-up succeeds iff allowed and free, and stores an ordinary enabled user |
| `Accounts.LogoutExactly` | backend/app/services/auth_service.py:233-240 | signing out revokes exactly the presented live token |
| `Accounts.RefusedRefreshExactly` | backend/app/services/auth_service.py:189-219 | the code of each refused refresh and exactly which tokens it revokes |
| `Accounts.RefreshReplaces` | backend/app/services/auth_service.py:221-230 | a successful refresh stamps the old token, adds the new one and touches nothing else |
| `Accounts.PurgeExactly` | backend/app/repositories/token_repo.py:65-71 | the sweep deletes exactly the rows past their expiry |
| `Accounts.ChangePasswordExactly` | backend/app/services/auth_service.py:243-263 | a change takes the current password of an enabled user; its codes, the new row and exactly that user's live tokens revoked |
| `Accounts.OnlyAdministrators` | backend/app/core/deps.py:64-67 | administrative operations succeed only for an enabled administrator; the code for anybody else, and no change on any refusal |
| `Accounts.CreateUserExactly` | backend/app/services/user_service.py:39-67 | an administrator's new user has the role asked for, is enabled and must change the password; a clash changes nothing |
| `Accounts.ChangeRoleExactly` | backend/app/services/user_service.py:70-111 | an administrator sets anybody's role but their own; only a new role is stored and revokes |
| `Accounts.SetStatusExactly` | backend/app/services/user_service.py:114-140 | an administrator enables and disables anybody but cannot disable themselves; disabling revokes |
| `Accounts.ResetPasswordExactly` | backend/app/services/user_service.py:143-158 | a reset stores the temporary password, asks for another and revokes |
| `Accounts.AccessAnswers` | backend/app/core/deps.py:40-58 | what each access token is answered, in the order of the checks |
| `Accounts.StampsAreMilliseconds` | backend/app/core/security.py:132-143 | a password stamp counts whole milliseconds, zero without a timestamp |
| `Accounts.WhoChangesWhat` | backend/app/services/user_service.py:70-158 | what one step may change about a user and who has to ask for it |
| `Accounts.PasswordOverRuns` | backend/app/services/user_service.py:143-158 | after any run a user's password is the one last set by the user with the current one or by an enabled administrator's reset |
| `Accounts.ChangedOnlyRightfully` | backend/app/services/user_service.py:143-158 | so a password that differs was set by somebody who may |
| `Accounts.SignsInExactly` | backend/app/services/auth_service.py:132-174 | after any run exactly that password signs an enabled user in |
| `Accounts.NewPasswordSignsIn` | backend/app/services/auth_service.py:243-263 | after a change or reset and until the next one, exactly the password then set signs an enabled user in |
| `TokenFamilies.ChainsOnRuns` | backend/app/services/auth_service.py:206-228 | after every run each family is a chain in which only the newest token can be live |
| `TokenFamilies.Rotation` | backend/app/services/auth_service.py:221-228 | a successful refresh presented the newest token, revokes it and appends its replacement |
| `TokenFamilies.AtMostOneLive` | backend/app/repositories/token_repo.py:41-53 | at most one token of a family is live |
| `TokenFamilies.RefreshSucceedsExactly` | backend/app/services/auth_service.py:189-230 | a refresh succeeds iff the token is known, live and unexpired and its user active, and continues the same family |
| `TokenFamilies.ReuseKillsFamily` | backend/app/services/auth_service.py:193-204 | presenting a rotated token whose row still exists leaves its family without a live token |
| `TokenFamilies.ReuseKillsExactly` | backend/app/services/auth_service.py:189-204 | presenting any token but the newest is refused, and ends a live family iff the token's row still exists |
| `TokenFamilies.PurgedReuseUnnoticed` | backend/app/repositories/token_repo.py:65-71 | a run in which a rotated token is presented after its row was swept: refused, nothing changes, the family goes on |
| `TokenFamilies.PurgedTokenIsInert` | backend/app/services/auth_service.py:189-191 | once its row is purged a token is refused and changes nothing |
| `TokenFamilies.DeadForEver` | backend/app/repositories/token_repo.py:65-71 | a family without a live token never gets one again, purges included |
| `TokenFamilies.DoubleRotationKills` | backend/app/services/auth_service.py:184-204 | refreshing twice with one token ends the session |
| `Credentials.EarlierRefreshTokensDead` | backend/app/services/auth_service.py:256-261 | after a change, reset, disablement or role change no earlier refresh token yields a session again |
| `Credentials.BearersNotFromFuture` | backend/app/core/security.py:70-88 | access tokens name a password time that is not in the future |
| `Credentials.AcceptedExactly` | backend/app/core/deps.py:40-58 | over any run, a good access token is accepted iff it has not expired, its user is enabled and the last password change, if any, fell in the millisecond it names |
| `Credentials.EarlierBearersDead` | backend/app/services/auth_service.py:266-268 | after a change at another millisecond an earlier access token is never accepted again, on any later run without a change in that very millisecond and on any clock |
| `Credentials.EarlierBearersDeadOnRuns` | backend/app/core/deps.py:52-54 | the same after any run, for whatever any step handed out |
| `Credentials.EarlierBearersDeadTimely` | backend/app/core/deps.py:52-54 | on an ordered clock a change at another millisecond is enough |
| `Credentials.ChangeStamps` | backend/app/services/user_service.py:143-149 | the new password and time are stored, and only a reset asks for another change |
| `Credentials.FreshSessionWorks` | backend/app/core/security.py:70-88 | a session just handed out works until each of its two tokens expires |
| `Credentials.SurvivesOnlySameMillisecond` | backend/app/core/security.py:132-143 | right after the change a good access token survives iff it names the same millisecond |
| `Credentials.SameMillisecondTokenSurvives` | backend/app/core/security.py:132-143 | registering and changing the password within one millisecond, whichever it is, keeps the first access token good |
| `Credentials.RefusedOnlyWhileDisabled` | backend/app/core/deps.py:40-58 | over any run without a password change of its user, a good access token is accepted iff it has not expired and the user is enabled |
| `Credentials.DisablementOnlySuspends` | backend/app/services/user_service.py:123-128 | disabling and enabling in a row: refused in between, afterwards as before |
| `Credentials.RoleChangeKeepsBearers` | backend/app/services/user_service.py:106-108 | a role change leaves every access token verdict as it was |
| `Credentials.AdminForEver` | backend/app/services/user_service.py:92-119 | once an active administrator exists every run keeps one |
| `SinglePage.ApiClient.RefreshSession` | frontend/src/services/apiClient.js:77-95 | a refresh is sent only if none is in flight |
| `SinglePage.ApiClient.Settled` | frontend/src/services/apiClient.js:85-92 | the slot is freed either way, and a new access token kept |
| `SinglePage.ApiClient.Unauthorised` | frontend/src/services/apiClient.js:127-143 | which unauthorised answers ask for a refresh, and which end the session |
| `SinglePage.StartInStep` | backend/app/services/auth_service.py:47-75 | whoever registers or signs in starts with the one live token of a new family |
| `SinglePage.NeverPresentsRotatedToken` | frontend/src/services/apiClient.js:77-95 | one page with single flight that loses no reply never presents a rotated token; every refresh succeeds and the cookie is the family's newest token |
| `SinglePage.BurntExactly` | frontend/src/services/apiClient.js:77-95 | with replies lost as well, the session ends iff the page at some time presents a rotated token whose row still exists |
| `SinglePage.LostReplyBurnsExactly` | frontend/src/services/apiClient.js:77-95 | the next refresh after a lost reply is refused, and ends the session iff the old token's row still exists |

## Left out

- Rows are values inside maps and sequences: aliasing of row objects and the ORM's identity map are not modelled.
- Concurrency below a serialised step: row locks, the unique indexes' race handling and the unlocked read of stale sessions are each taken as one atomic step; refreshes are taken as serialised, and a refresh request the page gave up on never arrives later.
- Trigonometry and floating point: distance is any function between zero and half the circumference, speed is a real number; rounding of stored coordinates is not modelled.
- Cryptography: password hashes, token hashes and signed tokens are taken as injective; fresh ids never repeat.
- Zones are a fixed offset; the offset may differ from step to step except where `SameOffset` or `SamePolicy` says otherwise.
- AttendanceService.Service.TodayState: the sorted session list of the view is not modelled, because it only re-presents the table.
- AttendanceService.Service.RecordEvent: the accuracy, distance and threshold columns of an event are not modelled; no modelled operation reads them.
- AttendanceService.Service.DuplicateOutcome: the distance, accuracy and radius echoed from the recorded event are not modelled.
- AttendanceService.Service.PunchIn: the distance, accuracy and radius echoed in the answer are not modelled, being copies of the verdict.
- AttendanceService.Service.PunchOut: the distance, accuracy and radius echoed in the answer are not modelled, being copies of the verdict.
- Attendance.Outcome: the distance, accuracy and radius echoed in an answer are not modelled, being copies of the verdict.
- ReadModels.TallyDays: the lists of arrival and departure minutes are left out with the averages taken over them.
- ReadModels.Summarise: average arrival and departure minutes are left out; they are plain means over the listed days.
- Presence.TakeSnapshot: the three lists keep the order of the users instead of being sorted by time or name.
- PunchClient.UsePunch.Begin: the messages shown and the capture timestamp are not modelled.
- Movement.SightingIsLatest: between accepted punches of one user at the same instant the later one is taken, where the database may take either.
- AuthService.Service.ChangeRole: name, email, member id and team updates are left out; they change nothing the claims read.
- AuthService.Service.Login: the user an identifier names is an input, and rehashing of an accepted password is not modelled.
- AuthService.Service.CreateUser: uniqueness of identifiers is an input, because identifiers are not modelled.
- AuthService.Service.Register: uniqueness of identifiers is an input, because identifiers are not modelled.
- Each operation reads the clock once; where the source reads it several times within one operation the readings are identified, except between the login check and the recorded failure.
- Audit rows other than those of automatic closes, event snapshots of radius and accuracy, request metadata and client timestamps.
- The maintenance job's sequence of passes: each pass is a step of its own tables, and the tables are disjoint.
- `SessionStatus.MANUAL` and administrative session edits: no modelled code reaches them.
- Routing, schemas, headers, cookies' attributes, logging, migrations, exports, React pages and the service worker.
- `resolve_period`, UTC range bounds and display strings.
