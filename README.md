# TriviaTime core in Dafny

TriviaTime is a macOS app. On a timer, it fetches one multiple-choice trivia question and shows it as a notification with one button per answer. When the user picks a button, it shows a second notification saying whether the answer was right. This project models the app's polling, dedup and answer-checking state machine and proves properties of it.

- `TriviaModels.dfy`: the `TriviaQuestion` record and `AllAnswers`, and the `TriviaResponse` envelope.
- `Network.dfy`: what a finished fetch publishes to the coordinator. It is a boundary only; HTTP and JSON are not modelled.
- `AppCoordinator.dfy` (module `Coordinator`): the interval choice, the `isFetchingTrivia` guard and the 20-entry `sentQuestions` window.
  - The `Coordinator` record and its `On…` functions give the state and the transitions.
  - The class `AppCoordinator` has the source's fields. Each method's `ensures` ties its new state to those functions.
- `NotificationManager.dfy` (module `Notifications`): the `TriviaCache` class, the `isInTriviaResultState` gate, the category built by `registerCategory`, the response handler and the result content.
  - The `Manager` record specifies the `NotificationManager` class.
  - The OS notification centre is represented by two things: the registered categories, and the list of notification contents handed to it.
- `TriviaApp.dfy`: the whole app as a machine driven by events.
  - The events are: permission answered, timer tick, fetch completed, interval changed, user response, reset timer fired, and a queued question send run by the main queue.
  - `Run` folds `Step` over a trace. The invariants are proved over every trace.
  - The machine has two variants. `AsWritten` behaves as the source does. `Corrected` fixes the two faults listed under Findings. Lemmas that take the variant as a parameter hold for both.
- `Wrappers.dfy`: `Option`.

Modelling choices:
- `decodeHtmlEntities` is a deterministic function `decode: string -> string`, supplied from outside.
- `shuffled()` is an `order` argument that is a permutation of `AllAnswers`.
- A timer is represented by the interval it was armed with.
- The 2-second reset of the result flag is a count of pending resets, plus an event that runs one of them.
- The process-wide `TriviaCache.shared` is one cache object, passed to the manager.
- The sink does not send a question itself. It queues the send on the main queue, and the queued block runs later as its own event. So the result flag is tested when the block runs, not when the sink queues it.

Behaviour of the code worth knowing:
- If permission is denied, `setup` does not start polling. But `restartNotifications` arms the timer on every interval change, whether or not permission was granted. So after a denial, changing the interval starts polling (`IntervalChangeStartsPollingAfterDenial`).
- On a cache miss the flag reset is still scheduled 2 s later, as on a hit. It is not cleared at once.
- `sentQuestions` records a question even when the manager suppressed it because a result was showing.
- A click on the notification body sets the result flag and schedules no reset. The flag then stays set until some reset runs. That is either one still pending from an answer in the last 2 s (`PendingResetClearsBodyClick`), or else a later answer's. With no reset pending, nothing clears it (see Findings).
- A failed or empty fetch does not clear `isFetchingTrivia`. The flag stays set until the interval changes (`IntervalChangeUnsticksFetch`), or until a request started before an earlier interval change completes and its sink clears it (`EarlierRequestUnsticksFetch`; see Findings).
- `restartNotifications` clears `isFetchingTrivia` while a request may still be outstanding. So an interval change during a fetch lets the next tick start a second request (`IntervalChangeDuringFetchAllowsASecond`). Without interval changes, at most one request is ever outstanding (`AtMostOneFetch`).
- A question send queued while a result is showing still goes out if a reset runs before it (`LateResetLetsQueuedQuestionThrough`).

## Model

| member | source | states |
|---|---|---|
| TriviaModels.TriviaQuestion.AllAnswers | TriviaTime/TriviaModels.swift:18-20 | one more element than the incorrect answers; the incorrect answers in order as prefix; the correct answer last; exactly those answers occur |
| Network.Publish | TriviaTime/NetworkManager.swift:20-36 | a fetch publishes only for a decoded envelope with results, and then publishes the first result; errors and empty results publish nothing |
| Network.PublishCorrected | TriviaTime/NetworkManager.swift:20-36 | corrected fetch: always publishes; the same value as `Publish` when that publishes, nil otherwise |
| Coordinator.InitialInterval | TriviaTime/AppCoordinator.swift:25-28 | the start interval is positive: the saved value if it is above 0, otherwise the default of 30 minutes |
| Coordinator.Initial | TriviaTime/AppCoordinator.swift:25-28 | the start state has the interval chosen by `InitialInterval` (so positive), no fetch in progress, no timer and an empty window |
| Coordinator.Remember | TriviaTime/AppCoordinator.swift:91-96 | the new text goes last; below 20 entries nothing is dropped; at 20 only the first (oldest) entry is dropped; the bound 20 is kept; no other text enters |
| Coordinator.RememberKeepsWindow | TriviaTime/AppCoordinator.swift:80-96 | appending a text that the window does not hold keeps the window at most 20 long and free of duplicates |
| Coordinator.EvictsOnlyOldest | TriviaTime/AppCoordinator.swift:92-96 | when a 21st distinct text arrives, the oldest text is no longer a duplicate, and all the others and the new one still are |
| Coordinator.OnFetch | TriviaTime/AppCoordinator.swift:59-64 | after the guard the flag is set; if a fetch was already in progress nothing changes; interval, window and timer are untouched |
| Coordinator.OnSetup | TriviaTime/AppCoordinator.swift:30-41 | a denied permission changes nothing; a granted one runs one fetch guard and arms the timer at the current interval |
| Coordinator.OnIntervalChange | TriviaTime/AppCoordinator.swift:44-49 | an interval change stores the interval, re-arms the timer with it, empties the window and clears the fetch flag |
| Coordinator.Delivery | TriviaTime/AppCoordinator.swift:73-83 | a published value is handed on exactly when it is a question whose text is not in the window, and then it is handed on unchanged |
| Coordinator.OnReceive | TriviaTime/AppCoordinator.swift:70-99 | on every path the flag ends false; nil and repeats leave the window alone; a new question is remembered; a valid window stays valid |
| Coordinator.ReceiveIdempotent | TriviaTime/AppCoordinator.swift:68-100 | running the sink twice with the same value equals running it once, and the second run hands nothing on |
| Coordinator.IntervalChangeForgets | TriviaTime/AppCoordinator.swift:44-49 | after an interval change any question is handed on again and the next tick fetches |
| Coordinator.AppCoordinator.constructor | TriviaTime/AppCoordinator.swift:25-28 | fields start as `Initial(saved)`; a fresh manager over the shared cache is created |
| Coordinator.AppCoordinator.Setup | TriviaTime/AppCoordinator.swift:30-41 | the new state is `OnSetup`; a fetch starts exactly when permission was granted and no fetch was in progress |
| Coordinator.AppCoordinator.SetNotificationInterval | TriviaTime/AppCoordinator.swift:10-14 | assigning the interval has the effect of `OnIntervalChange` and keeps the window valid |
| Coordinator.AppCoordinator.RestartNotifications | TriviaTime/AppCoordinator.swift:44-49 | the new state is `OnIntervalChange` at the current interval |
| Coordinator.AppCoordinator.StartNotifications | TriviaTime/AppCoordinator.swift:51-57 | only the timer changes; it is armed at the current interval |
| Coordinator.AppCoordinator.FetchTriviaAndNotify | TriviaTime/AppCoordinator.swift:59-66 | a request is started exactly when no fetch was in progress; the new state is `OnFetch` |
| Coordinator.AppCoordinator.ReceiveTrivia | TriviaTime/AppCoordinator.swift:70-99 | the new coordinator state is `OnReceive`; the send queued on the main queue is exactly the question `Delivery` hands on; the window stays valid |
| Coordinator.AppCoordinator.RunQueuedSend | TriviaTime/AppCoordinator.swift:87-89 | the queued block performs `OnSend` on the manager at the time it runs |
| Notifications.Decoded | TriviaTime/NotificationManager.swift:24 | the decoded list has the same length and the i-th element is the decoded i-th input |
| Notifications.DecodedPermutation | TriviaTime/NotificationManager.swift:24 | decoding two orderings of the same answers yields two orderings of the same decoded answers |
| Notifications.ActionsFor | TriviaTime/NotificationManager.swift:27-33 | one action per answer, in order, whose identifier and title are both the answer |
| Notifications.CategoryFor | TriviaTime/NotificationManager.swift:22-43 | the category identifier is the question text; one action per shuffled answer, identifier equal to title equal to the decoded answer |
| Notifications.CategoryOffersEveryAnswer | TriviaTime/NotificationManager.swift:22-43 | for any shuffle: the action count equals `AllAnswers` count; the identifiers are, as a multiset, the decoded `AllAnswers`; the decoded correct answer is among them |
| Notifications.QuestionContent | TriviaTime/NotificationManager.swift:71-85 | the question notification has the fixed title and default sound, shows the decoded question, and has the question text as category identifier |
| Notifications.ResultContent | TriviaTime/NotificationManager.swift:102-120 | title and sound depend only on `isCorrect` ("✅ Correct!" or "❌ Incorrect"); the body shows the user's answer, and also the correct answer when the user was wrong; no category |
| Notifications.OutcomesAreDistinguishable | TriviaTime/NotificationManager.swift:105-120 | a correct and an incorrect result always differ in title and sound |
| Notifications.Lookup | TriviaTime/NotificationManager.swift:216-218 | a lookup finds a value exactly when the key is cached, and then it finds the cached value |
| Notifications.StoreThenLookup | TriviaTime/NotificationManager.swift:212-218 | after a store, a lookup by that question's text returns the stored question; other keys look up as before |
| Notifications.Verdict | TriviaTime/NotificationManager.swift:152-158 | a verdict exists exactly on a cache hit; `isCorrect` holds exactly when the action identifier equals the decoded correct answer |
| Notifications.OnSend | TriviaTime/NotificationManager.swift:63-98 | while a result is showing nothing changes; otherwise the question is cached under its text (other keys unchanged), its category is the only one registered, and its notification is appended |
| Notifications.SentQuestionIsFoundByItsCategory | TriviaTime/NotificationManager.swift:70-85 | an unsuppressed send's category identifier looks up the question it was built from |
| Notifications.OnResponse | TriviaTime/NotificationManager.swift:135-177 | every response sets the flag; the default action adds nothing and schedules no reset; otherwise one reset is scheduled, a miss shows nothing, and a hit shows the result for the action identifier against the decoded correct answer |
| Notifications.OnResponseCorrected | TriviaTime/NotificationManager.swift:137-149 | corrected handler: a body click leaves the manager as it was; any other response is handled exactly as by `OnResponse` |
| Notifications.ResponseKeepsResetPending | TriviaTime/NotificationManager.swift:137-176 | the corrected handler keeps "flag set implies a reset pending"; the source's handler breaks it on a body click while no reset is pending |
| Notifications.OnResetTimer | TriviaTime/NotificationManager.swift:174-176 | a due reset clears the flag and consumes one pending reset; nothing else changes |
| Notifications.TriviaCache.constructor | TriviaTime/NotificationManager.swift:210 | the cache starts empty |
| Notifications.TriviaCache.Store | TriviaTime/NotificationManager.swift:212-214 | the question is upserted under its text |
| Notifications.TriviaCache.Question | TriviaTime/NotificationManager.swift:216-218 | returns exactly `Lookup` of the stored map: the value under the key, or nil when the key is absent |
| Notifications.TriviaCache.Clear | TriviaTime/NotificationManager.swift:220-222 | the cache is empty afterwards |
| Notifications.NotificationManager.constructor | TriviaTime/NotificationManager.swift:6-10 | the flag starts false; no category, notification or reset yet |
| Notifications.NotificationManager.RegisterCategory | TriviaTime/NotificationManager.swift:22-43 | the registered categories become exactly `[CategoryFor(trivia, order, decode)]`; nothing else changes |
| Notifications.NotificationManager.SendTriviaNotification | TriviaTime/NotificationManager.swift:63-98 | the new state is `OnSend` of the old one |
| Notifications.NotificationManager.SendResultNotification | TriviaTime/NotificationManager.swift:102-131 | exactly one result notification with `ResultContent` is appended; nothing else changes |
| Notifications.NotificationManager.DidReceive | TriviaTime/NotificationManager.swift:135-177 | the new state is `OnResponse` of the old one |
| Notifications.NotificationManager.ResetTimerFired | TriviaTime/NotificationManager.swift:174-176 | the new state is `OnResetTimer` of the old one |
| TriviaApp.Launch | TriviaTime/AppCoordinator.swift:25-28 | the launched app has the initial interval, no timer, no fetch, no request, nothing queued, sent, cached or registered, and no result showing |
| TriviaApp.StartFetch | TriviaTime/AppCoordinator.swift:59-66 | one network request is counted exactly when the guard lets the fetch through; the manager and the queue are untouched |
| TriviaApp.Deliver | TriviaTime/AppCoordinator.swift:70-99 | the sink updates the coordinator as `OnReceive`, leaves the manager alone, and queues exactly one send, carrying the value, exactly when `Delivery` hands it on |
| TriviaApp.Step | TriviaTime/AppCoordinator.swift:30-99 | each event touches only its own part: only responses, resets and queued sends change the manager, and those leave the coordinator and the request count alone; at most one request and one queued send are added per event |
| TriviaApp.LaunchInvariant | TriviaTime/AppCoordinator.swift:19-28 | the app starts in a state that satisfies the invariant, in both variants |
| TriviaApp.DeliverKeepsInvariant | TriviaTime/AppCoordinator.swift:80-98 | the sink keeps the window valid, clears the flag, and queues only sends that carry a shuffle of their answers |
| TriviaApp.SendKeepsConsistent | TriviaTime/NotificationManager.swift:63-98 | the queued send keeps the registered category consistent with the cache |
| TriviaApp.StepKeepsInvariant | TriviaTime/AppCoordinator.swift:59-98 | in both variants every event keeps these true: the window is at most 20 with no duplicates; at most one category; the category offers the cached question's decoded answers; once corrected, the fetch flag is set only while a request is outstanding |
| TriviaApp.RunKeepsInvariant | TriviaTime/AppCoordinator.swift:59-98 | the invariant holds after any trace of events, in both variants |
| TriviaApp.WindowAlwaysBounded | TriviaTime/AppCoordinator.swift:22-23 | after any trace from launch, in the source as in the corrected app, `sentQuestions` holds at most 20 texts, no text twice, and at most one category is registered |
| TriviaApp.StepKeepsOneFetch | TriviaTime/AppCoordinator.swift:59-64 | every event except an interval change keeps at most one request outstanding, and one only while the flag is set |
| TriviaApp.RunKeepsOneFetch | TriviaTime/AppCoordinator.swift:59-64 | the at-most-one-request property holds after any trace without an interval change |
| TriviaApp.AtMostOneFetch | TriviaTime/AppCoordinator.swift:59-64 | from launch, with no interval change, at most one request is ever outstanding; once corrected, the flag is set exactly while one is |
| TriviaApp.IntervalChangeDuringFetchAllowsASecond | TriviaTime/AppCoordinator.swift:44-49 | grant, then an interval change, then a tick: two requests are outstanding, because the restart clears the flag |
| TriviaApp.CompletionClearsFetchFlag | TriviaTime/AppCoordinator.swift:73-77 | with the corrected publication every completion clears the flag, so the next tick with a timer armed starts a request |
| TriviaApp.StuckStaysStuck | TriviaTime/AppCoordinator.swift:60-64 | a flag set with no request outstanding and no send queued stays set, and nothing new is registered or cached until the interval changes |
| TriviaApp.StallsAfterFailedFetch | TriviaTime/NetworkManager.swift:20-36 | as written, a transport failure right after permission leaves the flag set with nothing outstanding, and no question is registered for any later trace without an interval change |
| TriviaApp.IntervalChangeUnsticksFetch | TriviaTime/AppCoordinator.swift:44-49 | as written, after a failed fetch has left the flag set, an interval change clears it, and the next tick starts a request |
| TriviaApp.EarlierRequestUnsticksFetch | TriviaTime/AppCoordinator.swift:44-98 | as written, when an interval change let a second request start and that one fails, the first request's sink still clears the flag, with no interval change after the failure |
| TriviaApp.TickWhileFetchingChangesNothing | TriviaTime/AppCoordinator.swift:60 | a tick while a fetch is in progress leaves the whole app state unchanged |
| TriviaApp.RepeatedSinkIsHarmless | TriviaTime/AppCoordinator.swift:68-100 | a published value heard twice (two accumulated subscriptions) has the effect of hearing it once |
| TriviaApp.NewQuestionIsSent | TriviaTime/AppCoordinator.swift:85-98 | a new question with no result showing: the completion queues its send and appends its text to the window, clearing the flag; the send then submits it, registers its category and caches it |
| TriviaApp.SuppressedQuestionIsRemembered | TriviaTime/AppCoordinator.swift:87-96 | a new question whose send runs while a result is showing is not sent (manager unchanged), yet its text entered the window |
| TriviaApp.LateResetLetsQueuedQuestionThrough | TriviaTime/AppCoordinator.swift:87-89 | the flag is tested when the queued send runs: a reset run between the sink and the send lets the question through |
| TriviaApp.AnsweringTheCurrentQuestion | TriviaTime/NotificationManager.swift:152-166 | for the registered category: its buttons include the decoded correct answer, and pressing any button shows the result for exactly that answer |
| TriviaApp.DefaultActionLeavesFlagSet | TriviaTime/NotificationManager.swift:138-149 | as written, a body click sets the flag, schedules no reset and shows nothing |
| TriviaApp.PendingResetClearsBodyClick | TriviaTime/NotificationManager.swift:138-176 | as written, a body click while a reset is pending sets the flag, and that reset then clears it |
| TriviaApp.FlagWithoutResetStaysSet | TriviaTime/NotificationManager.swift:138-149 | as written, a set flag with no reset pending keeps the manager unchanged over any trace that presses no button |
| TriviaApp.BodyClickSilencesTheApp | TriviaTime/NotificationManager.swift:137-176 | as written, a body click while no reset is pending sets the flag, and no question is submitted afterwards until a button is pressed |
| TriviaApp.RunKeepsResetPending | TriviaTime/NotificationManager.swift:137-176 | with the corrected handler, "flag set implies a reset pending" holds after any trace |
| TriviaApp.ResetAlwaysPending | TriviaTime/NotificationManager.swift:137-176 | once corrected, after any trace from launch the flag is set only while a reset that clears it is pending |
| TriviaApp.QuietStaysQuiet | TriviaTime/AppCoordinator.swift:30-41 | without a timer, a request, a queued send or a grant, no event submits any notification or caches anything |
| TriviaApp.DeniedPermissionSendsNothing | TriviaTime/AppCoordinator.swift:30-41 | after a denied permission, no notification is ever submitted unless the interval changes or permission is granted later |
| TriviaApp.IntervalChangeStartsPollingAfterDenial | TriviaTime/AppCoordinator.swift:44-57 | after a denial no timer runs, but an interval change arms one, and its tick starts a request |
| TriviaApp.ScenarioFirstDelivery | TriviaTime/AppCoordinator.swift:85-98 | grant, then fetch "Q1" (answer "A", others "B", "C", "D"), then its send: one notification, category "Q1", four buttons, window `["Q1"]` |
| TriviaApp.ScenarioRepeatIsSkipped | TriviaTime/AppCoordinator.swift:80-83 | the same question fetched on the next tick queues nothing and changes nothing in the manager |
| TriviaApp.ScenarioWrongAnswer | TriviaTime/NotificationManager.swift:152-166 | answering "B" to "Q1" whose answer is "A" shows "❌ Incorrect" with "Your answer: B" and "Correct answer: A" |

## Left out

- Networking: the URLSession request and JSON decoding are not modelled. A fetch is an event carrying its outcome (transport error, decode error, or a decoded envelope).
- Combine plumbing: `Timer.publish`, the sinks and the subscription set are replaced by events. A new `$triviaQuestion` subscription is added on every fetch, and each one runs the sink on every publication. The model runs the sink once per publication; `RepeatedSinkIsHarmless` shows that extra runs change nothing.
- Main-queue order: a send queued by `DispatchQueue.main.async` is its own event, and any event may run before it. The main queue's first-in, first-out order against timers, resets and network callbacks is not modelled. The model allows every interleaving, which includes the real ones.
- Delays: the 1 s, 0.5 s and 2 s delays are not modelled. Neither is the `notificationInterval * 60` Double arithmetic; the interval is a `real`.
- `decodeHtmlEntities` parses HTML through NSAttributedString, so it is an arbitrary deterministic function given from outside.
- `shuffled()` is an arbitrary permutation given by the caller.
- Identifiers: `UUID()` request ids and the `id` property have no behaviour and are omitted.
- The permission request is not modelled. Only its answer, an event, is.
- Persistence: the saved interval is a parameter of the constructor. A missing setting reads as 0. Writing the setting (SettingsView.swift) is not modelled.
- Logging (`print`) is not modelled.
- Foreground presentation (`willPresent` in NotificationManager.swift and NotificationDelegate.swift) is not modelled; it always lets the notification show.
- UI and bootstrap (SettingsView.swift, ContentView.swift, AppDelegate.swift) are not modelled.
- `deinit` is not modelled.
- The OS side of notification delivery is not modelled: whether the OS accepts a request, which categories it shows buttons for, and errors from `add`. The model records what was handed to the OS.
- Notifications.ResultContent: the `question` argument of `sendResultNotification` is passed but unused in the source. The pure content function omits it; the class method keeps it.
- String comparison: Swift compares `String`s by Unicode canonical equivalence. This applies to `sentQuestions.contains`, the cache's dictionary keys and `userAnswer == correctAnswer`. The model compares code points. So "é" written as U+00E9 and as "e" plus U+0301 is one text in the source, but two in the model. This affects `Coordinator.Delivery`, `Notifications.Lookup` and `Notifications.OnResponse`.
- Notifications.NotificationManager.DidReceive: the class method models the handler as written. The corrected handler exists only as `OnResponseCorrected`, used by the `Corrected` variant of the app machine.

## Findings

| source | as written | input that shows it | evidently intended | confidence | as-written member | corrected member |
|---|---|---|---|---|---|---|
| TriviaTime/NetworkManager.swift:20-36 | A failed fetch publishes nothing. So does an empty `results`. Apart from `restartNotifications` (TriviaTime/AppCoordinator.swift:46), only the sink (TriviaTime/AppCoordinator.swift:73-98) clears `isFetchingTrivia`. So the flag stays set, and every later tick returns at the guard. That lasts until the interval changes, or until a request started before an earlier interval change completes and its sink clears the flag. | Permission granted, then the first fetch fails with a transport error: no question is ever shown until the interval changes | A failed or empty fetch reaches the sink's existing nil branch, which clears the flag, so the next tick fetches again | high; not executed | TriviaApp.StallsAfterFailedFetch | TriviaApp.CompletionClearsFetchFlag |
| TriviaTime/NotificationManager.swift:137-149 | `isInTriviaResultState` is set before the guard that returns on a click of the notification body. The reset is only scheduled after that guard (:173-176). So a body click sets the flag. It is cleared by a reset still pending from an answer in the last 2 s, or else by a later answer's. With no reset pending, nothing clears it. The comments at :137 and :173 say the flag is meant to last only while a result is processed. | A question is shown, no answer is pending a reset, and the user clicks the notification body: every later question is suppressed until the user presses an answer button on a notification that is still on screen | A body click leaves the flag as it was (set it after the guard), so the flag is set only while a reset is pending | medium; not executed | TriviaApp.BodyClickSilencesTheApp | TriviaApp.ResetAlwaysPending |
