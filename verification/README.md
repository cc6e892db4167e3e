# Attendance protocol: model and proofs

A Dafny model of the attendance server: class sessions with a rotating code, student check-in against an N-of-3
policy, teacher overrides, a cache of attendance counts refreshed from events, and the per-college row security
under which all of these run. Beside it stand the gateway's request limiter, the migration runner and the push
notifier's token cache. `dafny verify dfyconfig.toml` checks everything.

## How it is built

- `Tables` holds the PostgreSQL tables as maps by primary or unique key, and the queries; every query takes the
  college whose rows it may see. `Worlds` adds the Redis keys with expiry, the clock, and the event bus: events
  committed but not yet published, published but not yet consumed, and everything ever published (which may be
  delivered again). `Stores` is the object the services update in place.
- `SessionService`, `VerificationService`, `AttendanceService`, `ReportingService` and `Consumer` hold the services.
  Each operation is a method on the store, proved to do exactly what a function on states says. `Server` shows
  that every call is one step of a run.
- `Runs` composes those functions into runs from the empty system. What the code leaves open (generated ids, drawn
  codes, the row a `LIMIT 1` returns) is part of the action, so "every run" covers every choice and every
  interleaving of commit, publication and consumption. New colleges, users, courses, sections and enrollments are
  further actions, with no more checks than the tables make.
- `Changes` reduces every step to one change of the tables; `Consistency`, `Lifecycle`, `Provenance`,
  `AggregateCache`, `AggregateRuns`, `CacheTheorems`, `CodeRotation`, `CheckinLimiter`, `Tenancy`,
  `NonInterference` and `TenantViews` prove what runs keep. `SessionAnswers`, `CheckinAnswers`, `AttendanceAnswers` and
  `RefreshAnswers` say for every state what each call answers and writes, from the tables' own columns, the keys and
  the texts alone. `Witnesses` holds short concrete runs for the conditions that cannot be
  dropped. `Gateway`, `MigrationFiles` with `Migrations`, and `TokenCache` are
  independent; `Decimals` reads and writes digit strings for codes and file numbers.

## Where the code does less than one might expect

- A section may name a course of another college: the foreign key does not look at row security and
  `server/internal/admin/service.go:105-130` checks nothing more. The threshold lookup then finds no row, the whole
  refresh is rolled back and the message is gone. `PresentExactIff` gives the exact condition,
  `ForeignCourseLosesPresence` a run.
- Closing a session sends events only for the students it marks absent. The stored session total of everyone
  already recorded stays behind until some event of that student is consumed. `TotalAfterClosing` and
  `TotalOnceSettled` give the exact condition, `TotalStaysBehind` a run.
- An override of an unknown student id fails on the foreign key, of a foreign college's student it succeeds. The
  override is the only service call whose outcome another college's rows can decide (`OverrideAgrees`,
  `ForeignUserShowsInOverride`); no delivered message lets them decide a refresh (`DeliveredRefreshAgrees`).
- A presence in a session that is still open counts as present before the session counts in the total, so a
  percentage can exceed 100: exactly for a student counted in the open session and in every ended one
  (`AboveHundredIff`). It is at most 200 (`StoredRowsBounded`), and 200 is reached
  (`StoredPercentageReachesTwoHundred`).
- A rollback whose commit succeeds but whose reply is lost looks failed; tried again, it takes back one migration
  more (`LostReplyUndoesTwo`).
- A zero window switches the gateway limiter off (`ZeroWindowNeverBlocks`), and an empty access token is returned
  but never cached (`EmptyTokenNeverCached`).

## Assumptions

- Each database transaction is one atomic step, together with the Redis writes that follow its commit. The tables
  do not forbid two open sessions of a section, so "at most one" rests on this; so does the code rotation promise
  for overlapping calls on one session, and the limiter for overlapping check-ins of one student.
- Redis and the broker do not lose data and calls to them succeed, except in the gateway, where a failing Redis is
  modelled and lets the request pass. A committed event is published at some later step, in any order.
- Generated row ids are new. A record is named by its session and student, which the table makes unique.
- A college's verification policy and a course's threshold do not change. Rows are not deleted.
- The clock counts whole seconds, never goes back, and reads the same second throughout one call. Keys vanish
  exactly at their expiry. In the gateway only the increment can fail, not the setting of the expiry after it.

## Model

| member | source | states |
|---|---|---|
| Decimals.PaddedInjective | server/internal/session/service.go:43-46 | Different numbers below the bound get different zero-padded codes, so the million draws are a million codes. |
| Decimals.NumberOfPadded | server/db/migrate.go:58 | Reading a zero-padded number gives the number back. |
| Decimals.PaddedOfNumber | server/db/migrate.go:58 | Padding what a digit string writes to its length gives the string back. |
| Decimals.PlaceValue | server/db/migrate.go:58 | The ten digits have their values and a further digit multiplies by ten and adds its own, which fixes the number any digit string writes. |
| SessionService.CodeIff | server/internal/session/service.go:43-46 | Exactly the strings of six digits are codes that can be drawn: each is a number below a million, zero-padded. |
| SessionService.GenerateCode | server/internal/session/service.go:43-46 | A draw is the six-digit form of a number below one million. |
| SessionService.GenerateCodeOtherThan | server/internal/session/service.go:163-167 | The redraw ends with a six-digit code different from the old one, whatever the old one is; such a draw exists. |
| SessionService.StartSession | server/internal/session/service.go:49-125 | Outcome and whole new state, including each refusal with nothing changed: own section only, no open session, storable geofence; then row, gauge and code key for a fresh id. |
| SessionService.GetOrRotateCode | server/internal/session/service.go:128-183 | Outcome and whole new state: authorised in the database first, a live cached code is shown with its remaining seconds, otherwise row and both keys rotate to a different code. |
| SessionService.InsertAbsences | server/internal/session/service.go:246-267 | The loop inserts exactly one absence for each enrolled student without a visible record, lists each such student once, and fails exactly when an invisible record is in the way. |
| SessionService.PublishAbsences | server/internal/session/service.go:291-302 | The two parallel lists give exactly one event per absent student, with matching record and student. |
| SessionService.EndSession | server/internal/session/service.go:193-317 | Outcome and whole new state: end time, absences, summary of the resulting records, both keys deleted, gauge down by one, one event owed per absence; refusals change nothing. |
| SessionAnswers.StorableIff | server/db/migrations/000001_init.up.sql:73-75 | A number fits NUMERIC(9,6) iff its size is below 999.9999995, NUMERIC(6,2) iff below 9999.995. |
| SessionAnswers.EarthIsStorable | server/db/migrations/000001_init.up.sql:48-49 | Every coordinate of size at most 180 can be stored. |
| SessionAnswers.StartAnswer | server/internal/session/service.go:63-96 | For every state, from the tables' columns: not found unless the section is the college's and the teacher's, conflict while a session runs there, store error for a fence the columns cannot hold, else the new session with ten seconds. |
| SessionAnswers.StartWrites | server/internal/session/service.go:83-108 | A successful start writes exactly that row, a key of ten seconds and the gauge; any other answer writes nothing. |
| SessionAnswers.RotateAnswer | server/internal/session/service.go:138-182 | For every state: not found unless the session runs and its section is the college's and the teacher's; the cached code with its seconds while its key lives, else the drawn code with ten. |
| SessionAnswers.RotateWrites | server/internal/session/service.go:156-182 | Exactly without a live key the drawn code goes to the row and its key and the row's old code to the key beside it; otherwise nothing is written. |
| SessionAnswers.EndAnswer | server/internal/session/service.go:207-223 | With the references in order a closing succeeds iff the teacher's session runs, is a conflict iff it has ended, not found otherwise, and a refusal writes nothing. |
| SessionAnswers.EndWritesRecords | server/internal/session/service.go:231-267 | For every record key: a new absence iff the student is enrolled and has no record of the session, else as before. |
| SessionAnswers.EndOwes | server/internal/session/service.go:291-302 | For every event: one more is owed iff it is the absence event of such a student, with the session's section and the end time. |
| SessionAnswers.EndWrites | server/internal/session/service.go:225-229 | Besides those, a closing sets the end time, drops both keys and one active session, and nothing else. |
| Lifecycle.ConflictIffOpen | server/internal/session/service.go:63-81 | Under the table invariant a teacher is refused with a conflict exactly while some session of the section is open. |
| Lifecycle.StartBlockedUntilEnd | server/internal/session/service.go:73-101 | After a successful start, through any later run, every further start of the section is a conflict until that session ends. |
| Lifecycle.RunEvolves | server/internal/session/service.go:221-229 | Over any run no row of any table is lost; sessions and aggregates keep section and college, an ended session row never changes again, and the attempt and override logs only grow. |
| Lifecycle.EndedRecordsOnlyOverridden | server/internal/attendance/service.go:67-78 | Any step but an override leaves the records of an ended session exactly as they are, none added. |
| Lifecycle.GaugeFollowsOpenSessions | server/internal/session/service.go:98-101 | Over every run the gauge minus the number of open sessions is constant. |
| Lifecycle.EndClosesRoster | server/internal/session/service.go:226-267 | After a closing every student enrolled at that moment has a visible record, every earlier record is unchanged, and every new one is an absence of an enrolled student. |
| Lifecycle.EndOwesOneEventEach | server/internal/session/service.go:291-302 | A closing owes exactly one event per inserted record, naming that record, its session, student and section. |
| Lifecycle.SummaryCounts | server/internal/session/service.go:269-281 | Each of the three summary numbers is the true number of records of that kind in the whole table, tenancy filter or not. |
| Lifecycle.StatusPartition | server/internal/session/service.go:269-281 | The three summary numbers, and the two history numbers, each add up to all records of the session. |
| Lifecycle.EndConservesCounts | server/internal/attendance/service.go:388-397 | After a closing present + absent + override of the summary equals the records of the session and equals present + absent of its history row. |
| Lifecycle.NeverPendingAgain | server/internal/attendance/service.go:258-265 | A student enrolled at closing is never again shown as pending for that session, after any continuation and to any viewer. |
| CodeRotation.RunCodeInv | server/internal/session/service.go:103-108 | Every run keeps row, code key, previous key and history of issued codes of every session in agreement; an ended session has no keys. |
| CodeRotation.MatchesExactlyRecentCodes | server/internal/verification/service.go:153-160 | In every run a code matches at an open session if and only if it is one of the last two issued and the latest is less than ten seconds old; successive codes differ and are at least ten seconds apart. |
| CodeRotation.LiveKeysAgree | server/internal/session/service.go:156-182 | In every run a live code key equals the current code of the row and differs from a live previous key. |
| CodeRotation.LiveCodeKept | server/internal/session/service.go:156-182 | While the code key is live nothing but the end of the session changes the row or either key. |
| CodeRotation.ShownCodeStaysValid | server/internal/session/service.go:156-182 | A code shown with k seconds left matches in all of those k seconds whatever happens, until the session ends, and so does the code it replaced. |
| CodeRotation.StartedCodeStaysValid | server/internal/session/service.go:103-124 | The first code matches for its full ten seconds whatever happens, until the session ends. |
| CodeRotation.AcceptedCodeWasRecent | server/internal/verification/service.go:153-211 | Where all three signals are required, every accepted check-in of every run submitted one of the last two issued codes while the latest was under ten seconds old. |
| VerificationService.Evaluate | server/internal/verification/service.go:153-211 | The imperative comparison of code, network and geofence, the count of matches and the first missing signal as reason. |
| VerificationService.SubmitCheckin | server/internal/verification/service.go:60-289 | Outcome and whole new state for every branch: no session, limited, already in, rejected with its reason and counter, accepted with record, cleared counter and owed event, and a rolled-back write. |
| VerificationService.Verify | server/internal/verification/service.go:153-289 | The judged check-in, once nothing turns it away: the verdict with all it writes, or a failed write with nothing changed. |
| VerificationService.SaveAttempt | server/internal/verification/service.go:213-277 | What is written once the verdict is known: attempt and record rows, then the counter and the event. |
| CheckinAnswers.PolicyDefaults | server/internal/verification/service.go:81-95 | A policy without positive numbers requires three signals and allows three attempts. |
| CheckinAnswers.AnswerUnjudged | server/internal/verification/service.go:76-151 | For every state, the answers before anything is compared, each with its condition on the tables' columns and the counter key, and none of them writes. |
| CheckinAnswers.AttemptFlags | server/internal/verification/service.go:153-183 | The code flag holds iff the submitted code is the live or live previous one, the network flag iff the section names none or the submitted one, the geofence flag iff no complete fence applies or the distance is at most its radius, the session's complete fence first. |
| CheckinAnswers.ReasonIff | server/internal/verification/service.go:185-211 | Each of the four rejection texts, and acceptance, holds iff its condition on those signals and the policy does. |
| CheckinAnswers.AnswerJudged | server/internal/verification/service.go:185-289 | The verdict of every judged check-in from the tables, the keys, the submission and the texts alone. |
| CheckinAnswers.AcceptanceWrites | server/internal/verification/service.go:213-277 | An acceptance writes exactly the attempt, the record pointing to it, the cleared counter and one event of that student, session and section. |
| CheckinAnswers.RejectionWrites | server/internal/verification/service.go:213-264 | A rejection writes exactly the attempt and a counter one higher for 900 seconds. |
| CheckinAnswers.FailureWritesNothing | server/internal/verification/service.go:227-256 | A failed write leaves everything as it was. |
| CheckinLimiter.RunLimits | server/internal/verification/service.go:126-139 | In every run the one expiring counter is exactly the value and expiry recomputed from the attempt log, and no attempt was logged beyond the limit. |
| CheckinLimiter.AtMostMaxAttemptsInAnyWindow | server/internal/verification/service.go:258-264 | In every run any window shorter than fifteen minutes without an acceptance holds at most MaxAttempts rejections of a student at a session, wherever it starts. |
| CheckinLimiter.RejectionsPerAcceptance | server/internal/verification/service.go:258-264 | In every run any window shorter than fifteen minutes holds at most MaxAttempts rejections and MaxAttempts more for each acceptance in it. |
| CheckinLimiter.RejectionsPerOverride | server/internal/verification/service.go:258-264 | In every run, with no condition on acceptances, such a window holds at most MaxAttempts rejections for each override of the record and twice MaxAttempts more. |
| CheckinLimiter.LockedOutOnlyByFailures | server/internal/verification/service.go:126-139 | A locked-out student has at least MaxAttempts rejections there, and the last is less than fifteen minutes old. |
| Provenance.EveryRecordHasASource | server/internal/verification/service.go:185-252 | In every run a present record points to an accepted attempt of that student and session with enough signals, an absent one belongs to an ended session, an overridden one has an override by the section's teacher, and any attempt a record points to is an accepted one of that student and session. |
| Provenance.CheckinNeverReplacesAbsence | server/internal/session/service.go:254-263 | In every run a check-in leaves every absent record as it is. |
| Provenance.ImpossiblePolicy | server/internal/verification/service.go:81-95 | A college that asks for more than three signals never has a present record, in any run. |
| Provenance.AcceptedAtMostOncePerOverride | server/internal/verification/service.go:141-151 | In every run the acceptances of a student at a session are at most one more than the overrides of that record. |
| AttendanceService.SubmitOverride | server/internal/attendance/service.go:37-108 | Outcome and whole new state: invalid status, foreign session, failed write and success, where an existing record keeps its attempt and one override row and one event are added. |
| AttendanceAnswers.OverrideAnswer | server/internal/attendance/service.go:37-107 | For every state: bad request iff the status is neither of the two texts, not found iff the session or section is not the college's and the teacher's, store error iff the student does not exist or the record is another college's, else the status asked for. |
| AttendanceAnswers.OverrideWrites | server/internal/attendance/service.go:67-102 | Record, override row and event carry the student, session, teacher, reason and status asked for; a record keeps its attempt; nothing else is written. |
| AttendanceAnswers.OverrideShows | server/internal/attendance/service.go:258-265 | "overridden_absent" leaves the record overridden absent and out of the presences, "overridden_present" overridden present and among them, and the roster shows that status. |
| AttendanceAnswers.RosterAnswer | server/internal/attendance/service.go:240-265 | Not found, forbidden or the roster, each with its condition; it lists exactly the enrolled students, with the recorded status or pending. |
| AttendanceAnswers.HistoryAnswer | server/internal/attendance/service.go:375-397 | Likewise for the history: a row for every session of the section with the true counts of its records. |
| AttendanceAnswers.CoursesAnswer | server/internal/attendance/service.go:132-143 | A student's list has exactly the enrolled sections with a course of the college, with the stored row or zeros. |
| AggregateCache.WriteMovesRecount | server/internal/attendance/service.go:67-78 | An acceptance or override moves the recount of its own pair by exactly its own record: counted afterwards minus counted before. |
| CacheTheorems.HistoryMatchesAggregates | server/internal/attendance/service.go:388-397 | Presences of a section's history added over its sessions equal the recounts added over the students, and once drained the stored counts added over the students. |
| ReportingService.UpdateAggregate | server/internal/reporting/updater.go:28-110 | Outcome and whole new state: the counts and percentage are computed step by step, then the row is stored and the alert sent, or nothing at all is written when the upsert or the threshold lookup fails. |
| RefreshAnswers.HundredthsExact | server/internal/reporting/updater.go:60-63 | The stored hundredths h satisfy -total < 2(h total - 10000 present) <= total; they are 0 without a total. |
| RefreshAnswers.RefreshStores | server/internal/reporting/updater.go:35-95 | For every consistent state a refresh succeeds iff the student exists and section and course are the college's; it stores the counts over the whole tables with those hundredths, or writes nothing. |
| RefreshAnswers.RefreshAlerts | server/internal/reporting/updater.go:97-107 | For every alert: it is sent, once, iff it names that student, section and threshold, 0 < total, pct total = 100 present and 100 present < threshold total. |
| RefreshAnswers.PublishAnswer | server/internal/session/service.go:291-302 | Publishing moves one copy of the event from what is owed to what waits and touches no other. |
| RefreshAnswers.ConsumeAnswer | server/internal/reporting/consumer.go:73-81 | Consuming takes one copy away and refreshes the pair the message names, under the message's college. |
| ReportingService.ConsumeOne | server/internal/reporting/consumer.go:55-83 | One turn of the loop takes the message away whether or not the refresh succeeds. |
| Consumer.ConsumeBacklog | server/internal/reporting/consumer.go:55-83 | Working off all waiting messages is a run of consumptions; if nothing is left to publish, every reportable stored count is then the recount. |
| Consumer.BacklogTotalsExact | server/internal/reporting/updater.go:39-44 | When working off the backlog leaves nothing to publish or consume, the total of every pair that had a message waiting is exact, where the section's course is its own college's. |
| Consumer.WaitingWasPublished | server/internal/reporting/consumer.go:55-65 | In every run a waiting message was published, which is all the loop asks. |
| AggregateCache.PresentBound | server/internal/reporting/updater.go:46-58 | Presences of a student in a section are at most one more than its ended sessions. |
| AggregateCache.PctBound | server/internal/reporting/updater.go:60-63 | Under that bound the percentage lies between 0 and 200, and is 0 without ended sessions. |
| AggregateCache.MorePresencesIff | server/internal/reporting/updater.go:39-58 | A student has more presences than the section has ended sessions if and only if the student is counted in a session still open and in every ended one. |
| AggregateCache.AboveHundredIff | server/internal/reporting/updater.go:60-63 | The percentage exceeds 100 if and only if that holds and a session has ended; the stored two decimals show it if and only if, besides, at most 20,000 have. |
| AggregateCache.RefreshSucceeds | server/internal/reporting/updater.go:65-91 | Where the course belongs to the section's college and the student exists, a refresh never fails: the value always fits NUMERIC(5,2). |
| AggregateRuns.TouchedIsOwed | server/internal/verification/service.go:239-277 | Every step that changes a pair's presences leaves an event owed for that pair. |
| AggregateRuns.OwedStays | server/internal/session/service.go:291-302 | Nothing but consuming an event of the pair can settle it. |
| AggregateRuns.ConsumeStores | server/internal/reporting/updater.go:28-79 | Likewise the row stored is the recount of that moment with its percentage, whatever the event says. |
| AggregateRuns.ConsumeRefreshes | server/internal/reporting/updater.go:28-79 | Where the section's course is its own college's, consuming any event of a pair, even a repeated one, stores the counts that are true at that moment. |
| AggregateRuns.RunCacheInv | server/internal/reporting/updater.go:46-79 | Every run, with commit, publication and consumption interleaved and messages repeated or reordered, keeps for every section whose course is its own college's: stored present count equals recount or an event of the pair is still on its way. |
| CacheTheorems.PresentExactIff | server/internal/reporting/updater.go:46-91 | With no event of the pair left, the stored count is exact if and only if the section's course is of its own college or there is nothing to count. |
| CacheTheorems.ListedCoursesExact | server/internal/attendance/service.go:132-143 | In a drained system every course a student is shown, including the zero shown where no row is stored, has the exact count. |
| CacheTheorems.StoredRowsBounded | server/db/migrations/000001_init.up.sql:118-127 | In every run every stored row has present at most total plus one, a percentage in [0, 200] that fits its column, and a total no larger than the true one. |
| CacheTheorems.StoresAboveHundredIff | server/internal/reporting/updater.go:60-79 | In every run the row a consumed event stores exceeds 100.00 if and only if the student is ahead of the total in that sense, up to 20,000 ended sessions. |
| CacheTheorems.TotalNeverDecreases | server/internal/reporting/updater.go:39-44 | A stored total never goes down, in any run. |
| CacheTheorems.TotalExactOnceConsumed | server/internal/reporting/updater.go:39-44 | A pair with an event owed, in a section whose course is its own college's, has the exact total as soon as its events are consumed, until the section closes another session. |
| CacheTheorems.TotalExactIffRefreshed | server/internal/reporting/updater.go:39-44 | In such a section, until it closes another session, a total left behind becomes exact if and only if some event of the pair is consumed. |
| CacheTheorems.OwedAfterClosing | server/internal/session/service.go:246-302 | After a closing exactly the students it marked absent, and those already owed one, are owed a refresh. |
| CacheTheorems.RecordedStudentLeftBehind | server/internal/session/service.go:246-267 | A student already recorded when the session closes, with nothing owed, is left with a wrong total and no event to repair it. |
| CacheTheorems.ClosingLeavesBehind | server/internal/session/service.go:225-229 | Right after a closing the stored total of every student of the section is below the true one. |
| CacheTheorems.TotalAfterClosing | server/internal/session/service.go:226-302 | After a closing, for every student and until the section's next closing: the stored total is exact if and only if the section's course is its own college's and some event of the student has been consumed since. |
| CacheTheorems.OwedThenRefreshed | server/internal/reporting/consumer.go:55-83 | What was owed at one moment of a run and is owed no longer has been consumed in between. |
| CacheTheorems.TotalOnceSettled | server/internal/session/service.go:226-302 | Once no event of the student is left, until the next closing: the total is exact if and only if the course is the college's own and the closing marked the student absent, or an event was still on its way, or a later one was consumed. |
| CacheTheorems.AlertsAreBreachings | server/internal/reporting/updater.go:97-107 | In every run an alert has been raised exactly as often as an event of its student and section was consumed while the student's own recount over a positive number of ended sessions gave that percentage, below the threshold of the section's course. |
| CacheTheorems.EveryAlertIsABreach | server/internal/reporting/updater.go:97-107 | In every run each alert goes back to a step at which an event of the student it names was consumed and the student's own percentage was the one it states, below the threshold, and in [0, 200]. |
| Changes.StepChanges | server/db/migrations/000001_init.up.sql:192-240 | Every step of every service changes the tables by one change whose checks have passed, and by nothing else. |
| Consistency.RunConsistent | server/db/migrations/000001_init.up.sql:45-127 | In every run the references between the modelled tables resolve (a record's attempt: EveryRecordHasASource), every session, record, aggregate, attempt and override carries the college of what it belongs to, and a section has at most one open session. |
| Consistency.NeverBlocked | server/internal/session/service.go:248-263 | Under that invariant the absence inserts of a closing never hit a record the college cannot see. |
| Tenancy.OtherCollegesKept | server/db/migrations/000001_init.up.sql:192-240 | A change made under one college leaves every row of every other college unchanged, in all ten tables. |
| Tenancy.SameChangeKeepsAgreement | server/db/migrations/000001_init.up.sql:192-240 | The same change on two databases that agree on a college's rows leaves them in agreement. |
| NonInterference.StartAgrees | server/internal/session/service.go:59-96 | From two states a college cannot tell apart, a start has the same outcome. |
| NonInterference.RotateAgrees | server/internal/session/service.go:138-160 | Likewise for showing or rotating a code. |
| NonInterference.EndAgrees | server/internal/session/service.go:203-281 | Likewise for a closing and its summary. |
| NonInterference.CheckinAgrees | server/internal/verification/service.go:70-252 | Likewise for a check-in, verdict and reason included. |
| NonInterference.OverrideAgrees | server/internal/attendance/service.go:48-87 | For an override the two outcomes agree if and only if the call is refused earlier or the student id exists in both databases or in neither. |
| AggregateCache.RefreshableIff | server/internal/reporting/updater.go:65-91 | In a consistent database a refresh succeeds if and only if the student id exists, the section is the college's, and so is its course. |
| NonInterference.RefreshAgrees | server/internal/reporting/updater.go:35-91 | For a refresh with arbitrary arguments the two outcomes agree if and only if it fails anyway for its section or course, or the student id exists in both databases or in neither. |
| NonInterference.DeliveredRefreshAgrees | server/internal/reporting/consumer.go:73-81 | For a refresh asked for by any message ever published the two outcomes agree outright. |
| NonInterference.OthersInvisible | server/db/migrations/000001_init.up.sql:192-240 | No step of another college changes a row, key, counter, message or alert of this one. |
| NonInterference.OwnStepAgrees | server/db/migrations/000001_init.up.sql:192-240 | The same possible step of a college from two states it cannot tell apart leads to two states it cannot tell apart, unless it is an override that reaches another college's student. |
| NonInterference.OtherCollegesNeverMatter | server/db/migrations/000001_init.up.sql:192-240 | After any run a college sees exactly what it would see had only its own actions, as far as they were possible, and the clock been there; provided it names its own course and teacher in a new section, its own section in an enrollment and no other college's student in an override. |
| TenantViews.ViewsIgnoreOtherColleges | server/internal/attendance/service.go:121-418 | Under the same proviso every roster, section history and course list the college reads after a run is the one of that reduced run. |
| Witnesses.ForeignUserShowsInOverride | server/internal/attendance/service.go:67-78 | A run in which an override fails, and succeeds once another college has created a user with that id, though nothing of the teacher's college changed. |
| Witnesses.ForeignCourseLosesPresence | server/internal/reporting/updater.go:81-91 | A run, drained, in which a presence is recorded and the stored count is wrong because the section's course is another college's. |
| Witnesses.TotalStaysBehind | server/internal/session/service.go:246-267 | A run, drained, in which the stored total of a student recorded before the closing is wrong. |
| Witnesses.StoredPercentageReachesTwoHundred | server/internal/reporting/updater.go:60-79 | A run, drained, in which one session was attended and ended, a second attended and still open, and 200.00 is stored. |
| Server.Start | server/internal/session/service.go:49-125 | A call on the store is one possible step of a run and reports that step's outcome. |
| Server.Rotate | server/internal/session/service.go:128-183 | A call on the store is one possible step of a run and reports that step's outcome. |
| Server.End | server/internal/session/service.go:193-317 | A call on the store is one possible step of a run and reports that step's outcome. |
| Server.Checkin | server/internal/verification/service.go:60-289 | A call on the store is one possible step of a run and reports that step's outcome. |
| Server.Correct | server/internal/attendance/service.go:37-108 | A call on the store is one possible step of a run and reports that step's outcome. |
| Server.Publish | server/internal/session/service.go:291-302 | Publishing any committed event is one possible step of a run. |
| Server.Consume | server/internal/reporting/consumer.go:55-83 | Delivering any message ever published is one possible step of a run. |
| Gateway.RateLimiter.Handle | server/internal/gateway/ratelimit.go:18-37 | Passes or refuses according to the counter built from all earlier requests, and keeps the counter equal to that reconstruction. |
| Gateway.CounterIsWindowCount | server/internal/gateway/ratelimit.go:22-30 | A client's counter is the number of its counted requests since the one that opened the window and set its expiry. |
| Gateway.PassAnswer | server/internal/gateway/ratelimit.go:22-36 | Without Redis every request passes; otherwise one passes iff, with those counted in the window it falls into, it is within the limit, and one that falls into none starts from one. |
| Gateway.FixedWindowExact | server/internal/gateway/ratelimit.go:22-36 | The requests of a client passed since its current window opened are exactly its count cut at the limit, so a fixed window passes at most the limit. |
| Gateway.AnyIntervalPassesTwiceTheLimit | server/internal/gateway/ratelimit.go:22-36 | Any interval of window length, wherever it starts, passes at most twice the limit of a client. |
| Gateway.ShorterIntervalPassesOneLess | server/internal/gateway/ratelimit.go:22-36 | An interval strictly shorter than the window passes at most one less than twice the limit. |
| Gateway.TwiceTheLimitIsReached | server/internal/gateway/ratelimit.go:22-36 | For every limit and window there are requests of which exactly twice the limit pass within one window length, so the bound is sharp. |
| Gateway.ZeroWindowNeverBlocks | server/internal/gateway/ratelimit.go:28-34 | With a window of zero seconds and a limit of at least one no request is refused. |
| MigrationFiles.LoadMigrationFiles | server/db/migrate.go:43-67 | A file is loaded iff some plain entry has its name, which reads digits, an underscore, one line of text and the suffix, and its version is the number of those digits; in ascending order, none lost or repeated. |
| MigrationFiles.LoadableIff | server/db/migrate.go:58-61 | Loading fails iff some plain file whose name reads digits, underscore, one line of text and the suffix has a number above 9223372036854775807. |
| MigrationFiles.FoundOnce | server/db/migrate.go:50-63 | In a directory, where names differ, no file is loaded twice. |
| MigrationFiles.UpOrDown | server/db/migrate.go:30-33 | No entry is loaded both as an up and as a down file. |
| MigrationFiles.OwnDirectory | server/db/migrate.go:31-32 | Of the repository's two migration files one is loaded as up and the other as down, both as version 1. |
| Migrations.Migrator.RunMigrations | server/db/migrate.go:190-235 | The loop over the files, skipping recorded versions and stopping at the first error, equals the specified run for every pattern of faults. |
| Migrations.Migrator.RollbackLastMigration | server/db/migrate.go:94-149 | Reverses the highest recorded version with its first down file; a missing or failing file or a rolled-back transaction changes nothing, a lost reply reports failure after the change. |
| Migrations.Migrator.Migrate | server/db/migrate.go:190-235 | Unloadable files change nothing; otherwise the run over all up files, sorted: only pending versions run, each once and ascending, and on success none is left pending. |
| Migrations.Migrator.Rollback | server/db/migrate.go:94-149 | Unloadable files change nothing; otherwise that rollback over all down files, sorted, for every fault. |
| Migrations.EveryRunStopsAtAPrefix | server/db/migrate.go:200-232 | However a run ends, schema, recorded versions and executed scripts are those of a clean run over a prefix of the files; all of them if it succeeds. |
| Migrations.ResumeFromPrefix | server/db/migrate.go:200-208 | Running all files from the state of any prefix continues as if it had never stopped. |
| Migrations.InterruptionsLeaveNoTrace | server/db/migrate.go:190-235 | After any number of failed runs, a clean run ends in the state of one clean run, and altogether the same scripts ran in the same order. |
| Migrations.SecondRunIsNoOp | server/db/migrate.go:206-208 | A run after a successful run changes nothing and runs no script. |
| Migrations.PendingRunOnceAscending | server/db/migrate.go:65-67 | A successful run over sorted files runs exactly the pending versions, each once, in ascending order. |
| Migrations.CleanRunComposes | server/db/migrate.go:200-232 | A clean run over distinct versions from empty succeeds iff every script does in turn and no version exceeds 2147483647; it leaves their composition and records exactly their versions. |
| Migrations.SucceedsIff | server/db/migrate.go:200-232 | With faults a run succeeds iff the clean run does and no pending file meets a fault, and is then the clean run. |
| Migrations.FaultStops | server/db/migrate.go:220-230 | A rolled-back or failing next file leaves what was there, a lost reply leaves it applied; both end the run with an error. |
| Migrations.OneRollback | server/db/migrate.go:94-149 | After a run over distinct versions, one rollback with an inverse down script leaves the state of the run without its last file, unless its transaction is rolled back, and reports success only for a clean commit. |
| Migrations.RollbackRoundTrip | server/db/migrate.go:94-149 | If every down script inverts its up script, any sequence of rollback calls after a full migration, failed and lost ones included, leaves exactly the first n-k migrations, k calls having committed, and migrating again restores the full state. |
| Migrations.RollbackAllOrNothing | server/db/migrate.go:130-147 | Whatever goes wrong, a rollback has changed nothing or everything, and everything when it reports success. |
| Migrations.RollbackAnswer | server/db/migrate.go:100-147 | The highest recorded version goes, by the first down file of that version, unless the script or the transaction fails; success is reported only for a clean commit. |
| Migrations.RollbackRefused | server/db/migrate.go:101-123 | Nothing recorded, or no down file of the highest version: nothing changes and failure is reported. |
| Migrations.LostReplyUndoesTwo | server/db/migrate.go:143-147 | A rollback whose reply is lost, tried again, takes back two migrations. |
| TokenCache.Notifier.AccessToken | server/internal/notification/fcm.go:90-153 | Serves the cached token or exchanges a new one, and keeps the two fields equal to those rebuilt from all earlier calls. |
| TokenCache.FirstCall | server/internal/notification/fcm.go:94-152 | The first call is answered by the endpoint alone. |
| TokenCache.GrantReusedIff | server/internal/notification/fcm.go:94-152 | After a grant the next call is served that token iff it is not empty and has more than sixty seconds left, else by the endpoint. |
| TokenCache.NothingExchanged | server/internal/notification/fcm.go:94-152 | A call served from the cache, or failing, leaves the cache to the next call. |
| TokenCache.CachedTokenHasAMinuteLeft | server/internal/notification/fcm.go:94-96 | Every token served from the cache was granted by an earlier exchange and has more than sixty seconds left by its recorded expiry. |
| TokenCache.FewExchanges | server/internal/notification/fcm.go:94-152 | If every grant is non-empty and lasts at least E > 60 seconds, any T seconds of calls make at most 1 + T/(E-60) successful exchanges. |
| TokenCache.EmptyTokenNeverCached | server/internal/notification/fcm.go:150-152 | A granted empty token is never served from the cache: the next call asks again. |

## Left out

- Overlapping transactions: the code gives no guarantee there beyond the database's own isolation level.
- HTTP handlers, routing, JSON decoding of requests and messages, logging, tracing and metrics other than the
  active-session gauge: wrappers around the modelled calls.
- JWT, passwords, the client address and the SQL, Kafka, FCM and mail clients: library behaviour.
- Administration, CSV import and college onboarding: present only as steps that add rows.
- The distance formula: an uninterpreted function of the four coordinates.
- Rounding of stored coordinates and of the percentage's floating-point quotient: coordinates keep full precision,
  the percentage is an exact quotient rounded once to two decimals.
- Overflow and sub-second remainders of times and durations: integers are unbounded, and Redis reports whole seconds.
- Raw check-in data and its pruning: one bulk update, easy; the attempt keeps only the three match flags.
- `session.started` and `session.ended` events: nothing modelled consumes them.
- Notification of a breach: the alert is recorded as sent, its delivery is not followed.
- `GetTeacherSections` and `GetSectionDashboard`: plain joins; the dashboard shows the same aggregate rows.
- Names, e-mail addresses, terms, timestamps and the ordering of list results.
- The random source and the chance that the redraw loop goes on: the draw that ends it is taken.
- A failing read of a migration file or of the version table counts as a rolled-back attempt of that file; the
  order of two files with the same version is not fixed by the sort and is one particular order here.
- The schema reset used only by the repository's own test helpers.
- SessionService.GenerateCode: says nothing about the distribution of the codes, because the draw is left open.
