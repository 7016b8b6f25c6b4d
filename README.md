# Qwiz — a verified model of the classroom quiz core

Qwiz is a live classroom quiz. A lecturer publishes multiple-choice questions to a session. Students join with a session code and a nickname, answer within a round timer, and see vote counts and a speed-weighted leaderboard when the round ends. The repository holds two clients, `qwiz-app` and `realtime-qa-generator`, and a Python backend.

This project models the following in Dafny and proves properties of the model:

- **Round engine.** `RoundEngine` holds the round and scoring bookkeeping shared by the two lecturer session pages. `QwizLecturer` and `RqaLecturer` hold the pages themselves, with 15-second and 30-second rounds. In the qwiz page only `startNextDraft` calls `publish`, and no control of the page calls `startNextDraft`. So the `QwizLecturer` publish and round-end results describe code that page never reaches: it sends selected questions to the backend instead (`handleQuestionSelect`). The realtime-qa-generator page publishes from its "Start 30s round" button.
  - Answers are recorded first-wins, for the active question only, before the deadline.
  - Votes are tallied over the declared options, with zero-fill.
  - Each correct answer scores `600 + Math.round(remaining / ROUND_MS * 400)`.
  - The deltas are merged into the previous top-ten list, which is then sorted and cut to ten.
- **Student pages.** `QwizStudentPlay` and `RqaStudentPlay` cover the message reducer, the countdown and the one-shot submit. The seconds shown come from `Countdown`.
- **Backend analytics.** `Analytics` covers the in-memory session analytics: joins and leaves, per-student score records, the leaderboard, and the end-of-session podium and struggling list.
- **Question mapping.** `McqMapping` covers `mapFirestoreQuestionToMCQ`.
- **Microphone.** `MicCapture` covers the transcript buffer of the microphone component.
- **Bus adapter.** `EventBus` covers the listener registry and fan-out of the `useBus` adapter.
- **Mock store.** `MockFirestore` is the in-memory document store used for local development.
- **Session manager.** `Services` covers the backend's connection registry and broadcast. `FirestoreValues` covers its recursive `serialize_firestore_data`, including Python's `datetime.isoformat()` text.
- **Join page.** `StudentJoin` covers the join page's trimming, upper-casing and length check. `Text` provides JavaScript's `trim` and an ASCII `toUpperCase`.
- **Shared modules.**
  - `Quiz`: the clients' event vocabulary.
  - `OrderedMaps`: JavaScript `Map` and Python `dict` as insertion-ordered association lists.
  - `Sorting`: a stable descending sort and a prefix.
  - `Wrappers`: option and outcome types.

Each page and each service is a class. Its fields are the source's state variables, and each handler is a method.

The outside world appears only as explicit values:

- **Timers and clock.** Clock readings are `now` parameters. Timer callbacks (the round-end `setTimeout`, countdown intervals, the overlay timeout, the transcript interval) are explicit method calls.
- **Outputs.** Bus emits, socket sends and broadcasts are appended to output sequences.
- **Sockets and handlers.** Sockets and listener functions are identities. What each `send_json` did is a parameter of `Broadcast`.
- **Generated ids.** UUIDs and `randomUUID()` become a `freshId` parameter.

The main results:

- The round-end computation (`ScoreRound`) equals a functional specification. The new list is sorted, has at most ten rows and holds the highest merged scores. Each listed score is the previous listed score plus the student's deltas (`TopRowIsPreviousPlusDelta`).
- Vote counts add up to the number of answers when every answer names a declared option (`CountsCoverAnswers`).
- The bonus is the exact rounding of the quotient. Within the window it is at most 400 and grows with the time remaining (`BonusAtMostMax`, `BonusMonotone`).
- Removing the disconnected sockets one by one leaves exactly the surviving sockets, in order (`RemoveDroppedIsKept`).
- Serialization removes every datetime and is idempotent (`SerializeIdempotent`). Zero padding can be read back (`ZeroPadRoundTrip`).
- The analytics service keeps one record per student and a record for every active student, across every operation (`AnalyticsService.Valid`).

A few behaviours of the code are easy to miss; the model follows the code:

- `emit` in `useBus.ts` only hands the event to the socket; it does not also call local listeners.
- Both lecturer pages hard-code the round length (15 s and 30 s); it is not read from the session's configuration.
- The merge starts from the previous top-ten list, so the total of a student who has dropped off that list restarts from 0.
- `round_results.top` carries the list from before the merge.
- The speed bonus is not capped when a response time is stamped before the question was published (`BonusUncapped`).
- With a naive session start, `end_session` reports `total_questions` as 0, because it reads the counter after deleting the session. With a timezone-aware start, which is what its endpoint passes, it raises `TypeError` before clearing or broadcasting anything.

## Model

| member | source | states |
|---|---|---|
| Quiz.PublicView | qwiz-app/frontend/src/app/lecturer/session/page.tsx:275-281 | the published question has the same id, question and options plus the deadline and round length, and no correct option |
| RoundEngine.StartRound | qwiz-app/frontend/src/app/lecturer/session/page.tsx:271-273 | a new round holds the question, no answers, is ticking, and its deadline is exactly one round length after `now` |
| RoundEngine.WithoutQuestion | qwiz-app/frontend/src/app/lecturer/session/page.tsx:267 | the drafts left are exactly the old drafts whose id differs from the published one, never more of them |
| RoundEngine.RecordAnswer | qwiz-app/frontend/src/app/lecturer/session/page.tsx:183-194 | an event that is not an answer to the active question of this session, a late answer and a repeat answer all leave the round unchanged; otherwise exactly that answer is appended; question, deadline and ticking never change |
| RoundEngine.RecordAnswerFirstWins | qwiz-app/frontend/src/app/lecturer/session/page.tsx:187-194 | recording keeps one answer per student, keeps every earlier answer in place and adds at most one |
| RoundEngine.TallyCounts | qwiz-app/frontend/src/app/lecturer/session/page.tsx:293-296 | the two Map loops and the final map give one count per declared option, in option order, each the number of answers that chose it (0 when none did) |
| RoundEngine.CountsCoverAnswers | qwiz-app/frontend/src/app/lecturer/session/page.tsx:293-296 | with distinct option ids and every answer naming a declared option, the counts add up to the number of answers |
| RoundEngine.Bonus | qwiz-app/frontend/src/app/lecturer/session/page.tsx:303-304 | the bonus is the whole number nearest to 400·remaining/ROUND_MS, halves rounded up, which is `Math.round` on that quotient |
| RoundEngine.BonusAtMostMax | qwiz-app/frontend/src/app/lecturer/session/page.tsx:303-304 | with no more than a round's time remaining the bonus is at most 400 |
| RoundEngine.BonusMonotone | qwiz-app/frontend/src/app/lecturer/session/page.tsx:303-304 | more time remaining never gives a smaller bonus |
| RoundEngine.BonusUncapped | qwiz-app/frontend/src/app/lecturer/session/page.tsx:303-304 | an answer stamped a full round before the deadline of a 15 s round earns 800, not 400; an immediate answer earns 400, half-time 200 and the deadline 0 |
| RoundEngine.Delta | qwiz-app/frontend/src/app/lecturer/session/page.tsx:300-306 | a wrong option scores 0; a correct one scores 600 plus the bonus of the time remaining floored at 0, and lies between 600 and 1000 when answered after publication |
| RoundEngine.DeltaEntries | qwiz-app/frontend/src/app/lecturer/session/page.tsx:299-307 | one (student, delta) entry per answer, in answer order |
| RoundEngine.AddIntoKeys | qwiz-app/frontend/src/app/lecturer/session/page.tsx:312-314 | adding entries into a Map gives exactly the old keys plus the entries' keys, and keeps keys distinct |
| RoundEngine.AddIntoSums | qwiz-app/frontend/src/app/lecturer/session/page.tsx:307 | after `set(k, (get(k) or 0) + v)` for every entry, each key holds its starting value plus the sum of its entries |
| RoundEngine.AnswerDelta | qwiz-app/frontend/src/app/lecturer/session/page.tsx:300-306 | the loop body computes the delta of one answer |
| RoundEngine.StudentDeltas | qwiz-app/frontend/src/app/lecturer/session/page.tsx:298-308 | the `byStudent` loop builds the Map obtained by adding every answer's delta under its student, in answer order |
| RoundEngine.StudentDeltaIsAnswerDelta | qwiz-app/frontend/src/app/lecturer/session/page.tsx:298-308 | with one answer per student, each student's entry in `byStudent` is the delta of that student's answer |
| RoundEngine.SumForNonNegative | qwiz-app/frontend/src/app/lecturer/session/page.tsx:301-307 | deltas are never negative, so no student's round total is negative |
| RoundEngine.MergeLeaderboard | qwiz-app/frontend/src/app/lecturer/session/page.tsx:310-318 | the `setTop` updater's loop and sort give the top-ten rows of the previous list merged with the deltas |
| RoundEngine.TopRowsAreHighest | qwiz-app/frontend/src/app/lecturer/session/page.tsx:315-318 | the new list is sorted by score, has min(10, students) rows, is drawn from the merged rows, and every row left out scores no more than every row kept; rows with equal scores keep their merge order, so for every score the rows kept are the first rows with that score |
| RoundEngine.MergedScoreIsSum | qwiz-app/frontend/src/app/lecturer/session/page.tsx:311-314 | each merged score is the score on the previous list (0 if unlisted) plus the student's deltas |
| RoundEngine.TopRowIsPreviousPlusDelta | qwiz-app/frontend/src/app/lecturer/session/page.tsx:311-318 | every row of the new list carries its previous listed score plus this round's deltas; a student absent from the previous top ten restarts from 0 |
| RoundEngine.ScoreRound | qwiz-app/frontend/src/app/lecturer/session/page.tsx:293-318 | finishRound's computations give the zero-filled counts and the new top-ten list of the specification |
| RoundEngine.ScoreRoundKeepsBoard | qwiz-app/frontend/src/app/lecturer/session/page.tsx:315-318 | the new list is again sorted by score and at most ten rows |
| Countdown.SecondsLeft | qwiz-app/frontend/src/app/student/play/page.tsx:97-98 | the seconds shown are the least whole number of seconds covering the remaining time floored at 0, and are 0 exactly when the deadline has passed |
| Countdown.SecondsLeftMonotone | qwiz-app/frontend/src/app/student/play/page.tsx:97-98 | a later clock never shows more seconds |
| QwizLecturer.LecturerSession.constructor | qwiz-app/frontend/src/app/lecturer/session/page.tsx:40-50 | the page starts with the sample draft, nothing published, an empty list, no results and no round |
| QwizLecturer.LecturerSession.OnBusEvent | qwiz-app/frontend/src/app/lecturer/session/page.tsx:180-204 | with a session code, the round becomes the recorded-answer round and a `round_results` of this session is stored; without one nothing changes; one answer per student and the list's order are kept |
| QwizLecturer.LecturerSession.Publish | qwiz-app/frontend/src/app/lecturer/session/page.tsx:265-286 | the question leaves the drafts and heads the published list, results are cleared, a round starts at `now`, and its public view is emitted |
| QwizLecturer.LecturerSession.FinishRound | qwiz-app/frontend/src/app/lecturer/session/page.tsx:288-333 | with no question nothing changes; otherwise the top list becomes the merged top ten, `leaderboard_update` and then `round_results` (with the counts, the correct option and the pre-merge list) are emitted, and ticking stops |
| QwizLecturer.LecturerSession.CommitRound | qwiz-app/frontend/src/app/lecturer/session/page.tsx:319-331 | the state changes of finishRound once counts and list are known: both emits, the new list, ticking false |
| QwizLecturer.LecturerSession.EndSession | qwiz-app/frontend/src/app/lecturer/session/page.tsx:335-339 | unconfirmed, nothing happens; confirmed, one `session_ended` is emitted and the page goes to /lecturer |
| QwizLecturer.LecturerSession.Tick | qwiz-app/frontend/src/app/lecturer/session/page.tsx:173-177 | the display tick refreshes the clock only while the round is ticking |
| QwizLecturer.LecturerSession.StartNextDraft | qwiz-app/frontend/src/app/lecturer/session/page.tsx:345-348 | while ticking, or with no drafts, nothing changes (drafts, published list, round, last results, clock, messages); otherwise the first draft leaves the drafts, heads the published list, starts a fresh round at `now`, clears the last results and is broadcast |
| QwizLecturer.LecturerSession.SecondsLeft | qwiz-app/frontend/src/app/lecturer/session/page.tsx:341-342 | the lecturer's countdown is 0 exactly when the clock has reached the deadline and otherwise covers the time left |
| QwizLecturer.LecturerSession.PublishShowsFullRound | qwiz-app/frontend/src/app/lecturer/session/page.tsx:341-342 | right after a publish the countdown shows the full 15 seconds |
| RqaLecturer.LecturerSession.constructor | realtime-qa-generator/frontend/src/app/lecturer/session/page.tsx:36-44 | the page starts with the sample draft, nothing published, an empty list and no round |
| RqaLecturer.LecturerSession.OnBusEvent | realtime-qa-generator/frontend/src/app/lecturer/session/page.tsx:47-61 | with a session code the round becomes the recorded-answer round; without one nothing changes |
| RqaLecturer.LecturerSession.Publish | realtime-qa-generator/frontend/src/app/lecturer/session/page.tsx:65-88 | the question moves from the drafts to the head of the published list, a 30 s round starts, and the public view with `roundMs` 30000 is emitted |
| RqaLecturer.LecturerSession.FinishRound | realtime-qa-generator/frontend/src/app/lecturer/session/page.tsx:90-140 | as in the qwiz page, with 30 s rounds: merged top ten, `leaderboard_update` then `round_results` with the pre-merge list, ticking stops; nothing without a question |
| RqaLecturer.LecturerSession.CommitRound | realtime-qa-generator/frontend/src/app/lecturer/session/page.tsx:125-138 | the state changes of finishRound once counts and list are known |
| RqaLecturer.LecturerSession.EndSession | realtime-qa-generator/frontend/src/app/lecturer/session/page.tsx:142-145 | exactly one `session_ended` for the code is emitted and the page goes to /lecturer |
| RqaLecturer.LecturerSession.SecondsLeft | realtime-qa-generator/frontend/src/app/lecturer/session/page.tsx:151-152 | the countdown is 0 exactly when `now` has reached the deadline and otherwise covers the time left |
| Analytics.Points | qwiz-app/backend/app/analytics.py:118-123 | a wrong answer earns 0; a correct one earns 100 when the time is None or 0, at most 150 with a non-negative time, and exactly 100 once the time reaches 5000 ms |
| Analytics.PointsFasterNotFewer | qwiz-app/backend/app/analytics.py:122 | a faster correct answer never earns fewer points |
| Analytics.NegativeTimeOverpays | qwiz-app/backend/app/analytics.py:122 | a negative response time is truthy and overpays: a correct answer at -1000 ms earns 160, above the intended 150 maximum |
| Analytics.Answered | qwiz-app/backend/app/analytics.py:116-125 | an answer adds one to the answers, one to the correct answers when correct, its points to the score, and a truthy time to the total time |
| Analytics.StatsAfterAnswer | qwiz-app/backend/app/analytics.py:104-112 | the session counters add one answer, one correct answer when correct, and a truthy time; the question count is untouched |
| Analytics.AnsweredKeepsRecordOk | qwiz-app/backend/app/analytics.py:115-125 | correct answers never exceed answers, and the score stays at least 100 per correct answer |
| Analytics.Rows | qwiz-app/backend/app/analytics.py:188-199 | one leaderboard row per score record, in record order |
| Analytics.PyPrefix | qwiz-app/backend/app/analytics.py:206 | Python's `s[:limit]`: the first `limit` items, or all but the last `-limit` for a negative limit |
| Analytics.LeaderboardIsTop | qwiz-app/backend/app/analytics.py:183-207 | the leaderboard is ordered by score, has min(limit, students) rows drawn from the records, and nobody left off outscores anybody on it; equal scores keep the records' order, so at the cut the students recorded first stay |
| Analytics.StrugglingMembers | qwiz-app/backend/app/analytics.py:217-222 | the struggling list holds exactly the students with answers and accuracy below one half |
| Analytics.StrugglingStudents | qwiz-app/backend/app/analytics.py:217-222 | the loop builds the struggling list in leaderboard order |
| Analytics.JoinKeepsSessionOk | qwiz-app/backend/app/analytics.py:28-40 | a join keeps every active student recorded, one record per student, and every record consistent |
| Analytics.AnswerKeepsSessionOk | qwiz-app/backend/app/analytics.py:115-125 | scoring a registered student keeps the session consistent |
| Analytics.AnalyticsService.constructor | qwiz-app/backend/app/analytics.py:15-21 | all three maps start empty |
| Analytics.AnalyticsService.SessionSummary | qwiz-app/backend/app/analytics.py:137-158 | the summary counts the session's active students and reads its question and answer counters (0 if absent) |
| Analytics.AnalyticsService.TrackStudentJoin | qwiz-app/backend/app/analytics.py:23-47 | the student becomes active; a zeroed record is added only if none exists, so rejoining keeps the score; the summary is broadcast |
| Analytics.AnalyticsService.TrackStudentLeave | qwiz-app/backend/app/analytics.py:49-62 | the student stops being active, its record stays, an unknown session changes nothing; the summary is broadcast |
| Analytics.AnalyticsService.TrackQuestionGenerated | qwiz-app/backend/app/analytics.py:64-82 | the session's question counter goes up by one, created at 0 if absent |
| Analytics.AnalyticsService.ScoreStudent | qwiz-app/backend/app/analytics.py:114-125 | only a student with a record is scored; everyone else is untouched |
| Analytics.AnalyticsService.TrackAnswerSubmitted | qwiz-app/backend/app/analytics.py:84-135 | correctness is equality of the chosen and correct options; the counters always move, the record only for a joined student; then the summary and the top ten are broadcast |
| Analytics.AnalyticsService.GetLeaderboard | qwiz-app/backend/app/analytics.py:183-207 | the loop, sort and slice give the leaderboard of the session's records |
| Analytics.AnalyticsService.EndSession | qwiz-app/backend/app/analytics.py:209-250 | for a timezone-aware start the naive `datetime.now()` subtraction raises TypeError and nothing changes or is broadcast; for a naive start the podium is the first three of the 100-row leaderboard, the struggling list is filtered from it, the session leaves all three maps, the question count reads 0, and the result is broadcast and returned |
| McqMapping.Lettered | qwiz-app/frontend/src/lib/transform-to-mcq.ts:9-13 | at most four options, the first four texts in order, lettered a, b, c, d; none when the options are missing |
| McqMapping.FindText | qwiz-app/frontend/src/lib/transform-to-mcq.ts:15 | `findIndex`: the first position with that text, or -1 when there is none |
| McqMapping.MapQuestion | qwiz-app/frontend/src/lib/transform-to-mcq.ts:3-23 | the text is copied, the id is `q.id` when non-empty, the correct id names the first option holding the correct text, and is "a" when none does |
| McqMapping.CorrectIdIsAnOption | qwiz-app/frontend/src/lib/transform-to-mcq.ts:14-16 | with at least one option the correct id is one of the option ids |
| McqMapping.CorrectIdNamesCorrectText | qwiz-app/frontend/src/lib/transform-to-mcq.ts:14-16 | when the correct text is among the kept options, the option carrying the correct id holds that text |
| QwizStudentPlay.PlaySession.constructor | qwiz-app/frontend/src/app/student/play/page.tsx:13-20 | no question, nothing picked, no results, empty list, overlay hidden |
| QwizStudentPlay.PlaySession.StartCountdown | qwiz-app/frontend/src/app/student/play/page.tsx:95-104 | the first update shows the seconds left; an interval keeps running only when time remains |
| QwizStudentPlay.PlaySession.IntervalFires | qwiz-app/frontend/src/app/student/play/page.tsx:96-100 | a firing shows the seconds left and removes its own interval once time is up |
| QwizStudentPlay.PlaySession.OnMessage | qwiz-app/frontend/src/app/student/play/page.tsx:50-84 | every message is acted on, whatever its session code: `mcq_published` sets the question, clears pick, results and overlay and starts the countdown; `round_results` stores results, clears the question, zeroes the seconds and shows the overlay; `leaderboard_update` replaces the list; `session_ended` clears question, results and overlay, so a second one changes nothing |
| QwizStudentPlay.PlaySession.HideOverlay | qwiz-app/frontend/src/app/student/play/page.tsx:68 | the overlay timer hides the overlay and changes nothing else |
| QwizStudentPlay.PlaySession.ShowOverlay | qwiz-app/frontend/src/app/student/play/page.tsx:335 | the leaderboard button shows the overlay and changes nothing else |
| QwizStudentPlay.PlaySession.Submit | qwiz-app/frontend/src/app/student/play/page.tsx:106-120 | with no question, a truthy pick or no time left nothing happens; otherwise the pick is set and exactly one answer with the current question id is sent |
| RqaStudentPlay.PlaySession.constructor | realtime-qa-generator/frontend/src/app/student/play/page.tsx:10-17 | no question, nothing picked, no results, empty list |
| RqaStudentPlay.PlaySession.StartCountdown | realtime-qa-generator/frontend/src/app/student/play/page.tsx:45-53 | the first update shows the seconds left; an interval keeps running only when time remains |
| RqaStudentPlay.PlaySession.IntervalFires | realtime-qa-generator/frontend/src/app/student/play/page.tsx:46-49 | a firing shows the seconds left and removes its own interval once time is up |
| RqaStudentPlay.PlaySession.OnBusEvent | realtime-qa-generator/frontend/src/app/student/play/page.tsx:20-42 | events of another session change nothing; `mcq_published` sets the question, clears pick and results and starts the countdown; `round_results` stores results and clears the question; `leaderboard_update` replaces the list; `session_ended` clears question and results |
| RqaStudentPlay.PlaySession.Submit | realtime-qa-generator/frontend/src/app/student/play/page.tsx:55-67 | guarded by a current question, no truthy pick and time left; then one answer with the current question id is emitted |
| MicCapture.FinalTextSkipsInterim | qwiz-app/frontend/src/components/MicCapture.tsx:118-123 | interim results contribute no text |
| MicCapture.FinalTextBlankIff | qwiz-app/frontend/src/components/MicCapture.tsx:116-126 | a batch's text is blank exactly when all its final transcripts are blank |
| MicCapture.Transcriber.constructor | qwiz-app/frontend/src/components/MicCapture.tsx:21-23 | an empty buffer and no interval |
| MicCapture.Transcriber.OnResult | qwiz-app/frontend/src/components/MicCapture.tsx:116-127 | the final transcripts from `resultIndex` on, each with a space, are appended unless they are only white space |
| MicCapture.Transcriber.StartInterval | qwiz-app/frontend/src/components/MicCapture.tsx:81-91 | the running interval is cleared first, so exactly one interval runs afterwards |
| MicCapture.Transcriber.StopInterval | qwiz-app/frontend/src/components/MicCapture.tsx:93-98 | no interval runs afterwards and the handle is null; a second call changes nothing |
| MicCapture.Transcriber.IntervalTick | qwiz-app/frontend/src/components/MicCapture.tsx:84-90 | a live interval with a non-blank buffer and a callback delivers the trimmed buffer and clears it; otherwise the buffer stays; delivered chunks are never blank |
| MicCapture.Transcriber.StopRecognition | qwiz-app/frontend/src/components/MicCapture.tsx:142-155 | the interval stops, any non-blank remainder is delivered trimmed, and the buffer is always left empty |
| EventBus.AddListener | qwiz-app/frontend/src/lib/useBus.ts:71 | `Set.add`: the listener is present afterwards, nothing else is added, and adding a present listener changes nothing |
| EventBus.RemoveListener | qwiz-app/frontend/src/lib/useBus.ts:72 | `Set.delete`: the listener is gone and every other listener stays |
| EventBus.AddListenerIdempotent | qwiz-app/frontend/src/lib/useBus.ts:41 | the registry stays duplicate-free, and subscribing twice is subscribing once |
| EventBus.UnsubscribeUndoesSubscribe | qwiz-app/frontend/src/lib/useBus.ts:70-72 | unsubscribing a freshly subscribed listener restores the registry exactly |
| EventBus.RemoveMissing | qwiz-app/frontend/src/lib/useBus.ts:72 | deleting an absent listener changes nothing |
| EventBus.RemoveKeepsDistinct | qwiz-app/frontend/src/lib/useBus.ts:72 | deleting keeps the registry duplicate-free |
| EventBus.Bus.constructor | qwiz-app/frontend/src/lib/useBus.ts:41 | the registry starts empty |
| EventBus.Bus.On | qwiz-app/frontend/src/lib/useBus.ts:70-72 | `on(fn)` adds the listener with set semantics |
| EventBus.Bus.Unsubscribe | qwiz-app/frontend/src/lib/useBus.ts:72 | the returned function deletes the listener |
| EventBus.Bus.HandleIncoming | qwiz-app/frontend/src/lib/useBus.ts:44-54 | every registered listener is called with the message, in order; a listener that throws does not stop the loop |
| EventBus.Bus.Emit | qwiz-app/frontend/src/lib/useBus.ts:62-65 | the event goes to `send` unchanged and no local listener is called |
| FirestoreValues.ZeroPad | qwiz-app/backend/app/services.py:74-75 | fixed-width decimal digits, as `isoformat` writes each date and time field |
| FirestoreValues.ZeroPadRoundTrip | qwiz-app/backend/app/services.py:74-75 | a field that fits its width can be read back from its digits |
| FirestoreValues.IsoFormat | qwiz-app/backend/app/services.py:74-75 | `YYYY-MM-DDTHH:MM:SS`, then `.ffffff` only for non-zero microseconds and `±HH:MM` only for an aware datetime, at those lengths and separator positions |
| FirestoreValues.IsoFormatYear | qwiz-app/backend/app/services.py:74-75 | the first four characters read back as the year |
| FirestoreValues.Serialize | qwiz-app/backend/app/services.py:68-77 | dictionaries keep their keys in order, lists keep their length, a datetime becomes its ISO text, other leaves stay as they are |
| FirestoreValues.SerializeRemovesDateTimes | qwiz-app/backend/app/services.py:68-77 | no datetime is left anywhere in the result, and a value without datetimes is returned unchanged |
| FirestoreValues.SerializeIdempotent | qwiz-app/backend/app/services.py:68-77 | serializing twice is serializing once |
| MockFirestore.Register | qwiz-app/backend/app/mock_firestore.py:95-99 | registering a path adds an empty collection only when absent and leaves every existing collection as it was |
| MockFirestore.DocumentIn | qwiz-app/backend/app/mock_firestore.py:71-75 | `document(id)` has exactly that id, `document(None)` a fresh one, in the same collection |
| MockFirestore.SubcollectionPathInjective | qwiz-app/backend/app/mock_firestore.py:57-62 | subcollections of one document with different names have different paths |
| MockFirestore.GetDoc | qwiz-app/backend/app/mock_firestore.py:38-43 | a document exists exactly when its id is stored in its collection |
| MockFirestore.SetThenGet | qwiz-app/backend/app/mock_firestore.py:34-43 | after `set(d)` every reference to that document reads `d` and exists; other documents are untouched |
| MockFirestore.GetMissing | qwiz-app/backend/app/mock_firestore.py:38-43 | a document never written reads as missing with an empty body |
| MockFirestore.UpdateThenGet | qwiz-app/backend/app/mock_firestore.py:45-50 | update writes the keys of `d` and keeps the others, creates a missing document with `d`, and leaves other documents alone |
| MockFirestore.DeleteThenGet | qwiz-app/backend/app/mock_firestore.py:52-55 | after delete the document is missing, deleting a missing one changes nothing, other documents are untouched |
| MockFirestore.Client.constructor | qwiz-app/backend/app/mock_firestore.py:90-93 | a client starts with its project and no collections |
| MockFirestore.Client.Collection | qwiz-app/backend/app/mock_firestore.py:95-99 | the reference has the name as its path, and the path is registered |
| MockFirestore.Client.SubCollection | qwiz-app/backend/app/mock_firestore.py:57-62 | the path is `parent/docId/name`, and it is registered |
| MockFirestore.Client.Set | qwiz-app/backend/app/mock_firestore.py:34-36 | set stores `d` under the document, which then reads `d` |
| MockFirestore.Client.Get | qwiz-app/backend/app/mock_firestore.py:38-43 | get reports whether the document exists and, if so, its stored body |
| MockFirestore.Client.Update | qwiz-app/backend/app/mock_firestore.py:45-50 | the store becomes the updated store, and the document exists afterwards |
| MockFirestore.Client.Delete | qwiz-app/backend/app/mock_firestore.py:52-55 | the document is gone afterwards |
| MockFirestore.Client.Add | qwiz-app/backend/app/mock_firestore.py:77-81 | `d` is stored under the fresh id and the returned reference names it |
| MockFirestore.Client.OnSnapshot | qwiz-app/backend/app/mock_firestore.py:83-87 | the callback is never called, and the handle returned is a plain function, never a watch with `unsubscribe` |
| Services.Kept | qwiz-app/backend/app/services.py:44-56 | the connections kept by a broadcast are never more than there were |
| Services.KeptMembers | qwiz-app/backend/app/services.py:44-56 | a connection is kept exactly when it was there and its send did not raise a disconnect |
| Services.RemoveFirst | qwiz-app/backend/app/services.py:35 | `list.remove` of a present socket shortens the list by one; an absent one leaves it unchanged |
| Services.RemoveFirstSplits | qwiz-app/backend/app/services.py:35 | `list.remove` takes the socket out at its first position and keeps the rest in order |
| Services.RemoveDroppedIsKept | qwiz-app/backend/app/services.py:53-56 | removing each disconnected socket in turn leaves exactly the kept connections, in order |
| Services.RemoveDisconnected | qwiz-app/backend/app/services.py:53-56 | the removal loop leaves the kept connections |
| Services.SessionManager.constructor | qwiz-app/backend/app/services.py:18-22 | no sessions and no listeners |
| Services.SessionManager.Connect | qwiz-app/backend/app/services.py:24-30 | the socket is appended to the session's list, created if absent |
| Services.SessionManager.RemoveListener | qwiz-app/backend/app/services.py:111-116 | an absent entry changes nothing; a watch is unsubscribed and its entry deleted; the mock's plain function raises AttributeError before deletion |
| Services.SessionManager.Disconnect | qwiz-app/backend/app/services.py:32-40 | the socket's first occurrence is removed; an emptied session is forgotten and its watch unsubscribed (recorded in `detached`) or its plain-function handle raises AttributeError; otherwise nothing is unsubscribed; an unknown session is a no-op; an absent socket raises ValueError and changes nothing |
| Services.SessionManager.Broadcast | qwiz-app/backend/app/services.py:42-56 | every connection of the session is sent the message, in order, and exactly those whose send raised a disconnect are removed; an unknown session changes nothing |
| Services.SessionManager.StartListener | qwiz-app/backend/app/services.py:58-109 | a session that has a listener keeps it; otherwise the returned handle is registered |
| Sorting.Insert | qwiz-app/frontend/src/app/lecturer/session/page.tsx:317 | inserting into a sorted list keeps it sorted and adds exactly that element |
| Sorting.SortDesc | qwiz-app/frontend/src/app/lecturer/session/page.tsx:317 | the result is sorted by descending key, is a permutation of the input, and is stable: for every key the elements with that key appear in input order |
| Sorting.Take | qwiz-app/frontend/src/app/lecturer/session/page.tsx:318 | `slice(0, n)`: the first min(n, length) elements |
| Sorting.TopIsHighest | qwiz-app/frontend/src/app/lecturer/session/page.tsx:315-318 | the first n of the sorted list are sorted, drawn from the input, and no element left out has a higher key than one kept; for every key, the elements kept with that key are the first ones of the input |
| OrderedMaps.Put | qwiz-app/frontend/src/app/lecturer/session/page.tsx:313 | `Map.set`: the key then reads the value, other keys read as before, an existing key keeps its place and a new one goes last |
| OrderedMaps.FromEntries | qwiz-app/frontend/src/app/lecturer/session/page.tsx:311 | `new Map(entries)` has distinct keys, exactly the entries' keys |
| StudentJoin.Decide | qwiz-app/frontend/src/app/student/page.tsx:12-14 | a join is accepted exactly when the trimmed code has 3 or more characters and the trimmed name 2 or more; the stored code is trimmed and upper-cased and the name trimmed |
| StudentJoin.AcceptedIsNormal | qwiz-app/frontend/src/app/student/page.tsx:12-13 | an accepted code has no lower-case letter or surrounding white space, and the name none either |
| StudentJoin.DecideIdempotent | qwiz-app/frontend/src/app/student/page.tsx:12-16 | joining again with the stored values accepts exactly the same values |
| StudentJoin.JoinPage.constructor | qwiz-app/frontend/src/app/student/page.tsx:8-9 | both fields start empty |
| StudentJoin.JoinPage.OnCodeChange | qwiz-app/frontend/src/app/student/page.tsx:35 | the code field holds the input upper-cased |
| StudentJoin.JoinPage.OnNameChange | qwiz-app/frontend/src/app/student/page.tsx:31 | the name field holds the input |
| StudentJoin.JoinPage.Join | qwiz-app/frontend/src/app/student/page.tsx:11-18 | a rejected join stores nothing and stays; an accepted one writes exactly `mvp_code` and `mvp_name` and goes to /student/play |
| Text.Trim | qwiz-app/frontend/src/app/student/page.tsx:12 | the result is a slice of the input that starts after the leading white space and begins and ends with a non-space character |
| Text.TrimEmptyIffBlank | qwiz-app/frontend/src/components/MicCapture.tsx:85-86 | trimming gives the empty string exactly when the input is all white space |
| Text.TrimIdempotent | qwiz-app/frontend/src/app/student/page.tsx:12 | trimming twice is trimming once |
| Text.ToUpper | qwiz-app/frontend/src/app/student/page.tsx:12 | same length, no lower-case ASCII letter left, every other character kept |
| Text.ToUpperIdempotent | qwiz-app/frontend/src/app/student/page.tsx:35 | upper-casing twice is upper-casing once |
| Text.TrimUpperCommute | qwiz-app/frontend/src/app/student/page.tsx:12 | trimming and upper-casing can be done in either order |

## Left out

- I/O is outside the model: browser storage reads, routing besides the target route, alerts, console output, HTTP config fetches, speech recognition, getUserMedia and the audio meter. Only their effects on modelled state appear.
- Timers are not modelled as timers: `setTimeout`, `setInterval` and `requestAnimationFrame` become explicit method calls with `now` as a parameter, so the model does not check that the round end fires 50 ms after the deadline.
- Floating-point values are left out: progress percentages, the RMS level, chart heights, and the analytics average response time and accuracy percentage.
- Concurrency is not modelled: each handler runs to completion. Other coroutines that change `active_sessions` during the awaits of `broadcast`, and React's batching of state updates, are outside the model.
- QwizLecturer.LecturerSession.FinishRound, RqaLecturer.LecturerSession.FinishRound: `round_results.top` is the list before this round's merge. In the pages it is the `top` captured by the closure that scheduled the timer, so it can be an older list. In the qwiz page `publish` is memoised on the code. In the realtime-qa-generator page the publish button stays visible during a round, so a second publish lets the first timer end the new round and the second timer report an older list.
- QwizLecturer.LecturerSession.FinishRound, RqaLecturer.LecturerSession.FinishRound: the two emits are made in the order leaderboard, then results. The pages emit `leaderboard_update` inside the `setTop` updater, which React runs when it processes that update, so the pages may emit `round_results` first.
- React's strict-mode double call of updaters, which would emit twice, is not modelled.
- The student pages' `leaveSession`, the socket's connecting and closing states, and the lecturer page's transcript, connected-student list, question selector and mic callback are not part of this model.
- Text.ToUpper: only ASCII letters are upper-cased; JavaScript's full Unicode case mapping is not modelled. Lengths are counted in Dafny characters, not UTF-16 code units.
- MockFirestore: the store has value semantics, so the copies taken by `set`, `add` and `to_dict` are implied rather than shown. The model does not capture that `update` changes the stored dictionary in place, or that the copy is shallow (nested dictionaries are shared).
- MockFirestore.Client.Add: the timestamp in the returned pair is left out.
- Services.SessionManager.StartListener: the `on_snapshot` callback body (the `new_question` broadcast with the session's answer time) is not part of this model. Neither is the registration of the `sessions/<id>/questions` path in the store; the handle the store returns is a parameter.
- Services.SessionManager.Broadcast: the message is an abstract value, and the JSON encoding is left out. The session manager's broadcasts and the analytics service's `broadcasts` log are not composed into one system.
- FirestoreValues.IsoFormat: offsets are whole minutes; Python's seconds and microseconds in a UTC offset are left out. The year is assumed to have at most four digits.
- Analytics: `_save_event`, the Firestore writes made by every tracking call, is left out; its errors are caught and printed in the source, so it does not affect the in-memory state.
- Analytics.AnalyticsService.EndSession: the session duration, computed from the wall clock, is left out. Only whether the start time is timezone-aware is modelled, because that decides whether the subtraction raises.
- Analytics.AnalyticsService.TrackAnswerSubmitted: `question_id` is only logged in the saved event; the model accepts it and does not use it.
- The realtime-qa-generator backend, the FastAPI endpoints and WebSocket loop in `sessions.py`, random session codes, and the Gemini calls that generate questions are not part of this model.
- MCQ ids from `randomUUID()` or `Date.now()`, and document ids from `uuid4()`, are a `freshId` parameter; the model does not check that they are fresh.
