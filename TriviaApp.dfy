/**
 The running app as one event-driven state machine: the coordinator, the
 notification manager with the shared cache, the number of network
 requests still outstanding, and the question sends queued on the main
 queue. Timers, the notification centre's callbacks, fetch completions and
 queued blocks arrive as events:

 - PermissionAnswered: the completion of the permission request in `setup`;
 - TimerFired: a tick of the repeating timer;
 - FetchCompleted: a network request ends, with the answers' shuffled order;
 - IntervalChanged: the user picks an interval;
 - UserResponded: the OS reports the chosen action of a notification;
 - ResetTimerFired: a delayed reset of the result flag runs;
 - QueuedSendRan: the oldest queued question send runs.

 The machine comes in two variants. `AsWritten` is the source: a failed or
 empty fetch publishes nothing, and a click on the notification body sets
 the result flag. `Corrected` publishes nil for a failed or empty fetch
 and leaves the flag alone on a body click.
 */
module TriviaApp {

  import opened Wrappers
  import opened TriviaModels
  import opened Network
  import opened Notifications
  import opened Coordinator

  datatype Variant = AsWritten | Corrected

  /** A `sendTriviaNotification` call waiting on the main queue, with the
      order `shuffled()` gives the answers when it runs. */
  datatype QueuedSend = QueuedSend(trivia: TriviaQuestion, order: seq<string>)

  datatype App = App(coordinator: Coordinator, manager: Manager, inFlight: nat, queued: seq<QueuedSend>)

  datatype Event =
    | PermissionAnswered(granted: bool)
    | TimerFired
    | FetchCompleted(outcome: FetchOutcome, order: seq<string>)
    | IntervalChanged(minutes: real)
    | UserResponded(categoryIdentifier: string, actionIdentifier: string)
    | ResetTimerFired
    | QueuedSendRan

  /** Process start: the saved interval read, nothing cached, sent or
      queued, and nothing can happen until permission is answered. */
  function Launch(saved: real): (r: App)
    ensures Quiet(r) && r.coordinator.interval == InitialInterval(saved)
    ensures !r.manager.inResult && r.manager.pendingResets == 0
  {
    App(Initial(saved), Manager(false, map[], [], [], 0), 0, [])
  }

  /** `fetchTriviaAndNotify`: the guard, and one network request if it
      passes. */
  function StartFetch(a: App): (r: App)
    ensures r.coordinator == OnFetch(a.coordinator) && r.manager == a.manager && r.queued == a.queued
    ensures r.inFlight == a.inFlight + (if StartsFetch(a.coordinator) then 1 else 0)
  {
    if StartsFetch(a.coordinator) then a.(coordinator := OnFetch(a.coordinator), inFlight := a.inFlight + 1)
    else a
  }

  /** The sink with a published value: the coordinator's bookkeeping, and
      the send of a new question queued behind whatever the main queue
      already holds. The manager is not touched. */
  function Deliver(a: App, value: Option<TriviaQuestion>, order: seq<string>): (r: App)
    ensures r.coordinator == OnReceive(a.coordinator, value)
    ensures r.manager == a.manager && r.inFlight == a.inFlight
    ensures Delivery(a.coordinator, value).None? ==> r.queued == a.queued
    ensures Delivery(a.coordinator, value).Some? ==> r.queued == a.queued + [QueuedSend(value.value, order)]
  {
    a.(coordinator := OnReceive(a.coordinator, value),
       queued := match Delivery(a.coordinator, value)
         case Some(trivia) => a.queued + [QueuedSend(trivia, order)]
         case None => a.queued)
  }

  /** What a publication does: nothing if silent, the sink otherwise. */
  function Complete(a: App, p: Publication, order: seq<string>): App {
    match p
    case Silent => a
    case Emit(value) => Deliver(a, value, order)
  }

  function Published(v: Variant, outcome: FetchOutcome): Publication {
    match v
    case AsWritten => Publish(outcome)
    case Corrected => PublishCorrected(outcome)
  }

  function Respond(v: Variant, m: Manager, categoryIdentifier: string, actionIdentifier: string,
                   decode: string -> string): Manager {
    match v
    case AsWritten => OnResponse(m, categoryIdentifier, actionIdentifier, decode)
    case Corrected => OnResponseCorrected(m, categoryIdentifier, actionIdentifier, decode)
  }

  /** One event. Only responses, resets and queued sends touch the
      manager, and those leave the coordinator and the requests alone; at
      most one request and at most one queued send are added. */
  function Step(v: Variant, a: App, e: Event, decode: string -> string): (r: App)
    ensures !(e.UserResponded? || e.ResetTimerFired? || e.QueuedSendRan?) ==> r.manager == a.manager
    ensures (e.UserResponded? || e.ResetTimerFired? || e.QueuedSendRan?) ==>
      r.coordinator == a.coordinator && r.inFlight == a.inFlight
    ensures r.inFlight <= a.inFlight + 1 && |r.queued| <= |a.queued| + 1
  {
    match e
    case PermissionAnswered(granted) =>
      a.(coordinator := OnSetup(a.coordinator, granted),
         inFlight := a.inFlight + (if granted && StartsFetch(a.coordinator) then 1 else 0))
    case TimerFired =>
      // no timer armed, no tick
      if a.coordinator.timer.None? then a else StartFetch(a)
    case FetchCompleted(outcome, order) =>
      // no request outstanding, nothing to complete
      if a.inFlight == 0 then a
      else Complete(a.(inFlight := a.inFlight - 1), Published(v, outcome), order)
    case IntervalChanged(minutes) =>
      a.(coordinator := OnIntervalChange(a.coordinator, minutes))
    case UserResponded(categoryIdentifier, actionIdentifier) =>
      a.(manager := Respond(v, a.manager, categoryIdentifier, actionIdentifier, decode))
    case ResetTimerFired =>
      if a.manager.pendingResets == 0 then a else a.(manager := OnResetTimer(a.manager))
    case QueuedSendRan =>
      if a.queued == [] then a
      else a.(manager := OnSend(a.manager, a.queued[0].trivia, a.queued[0].order, decode),
              queued := a.queued[1..])
  }

  function Run(v: Variant, a: App, events: seq<Event>, decode: string -> string): App
    decreases |events|
  {
    if events == [] then a else Run(v, Step(v, a, events[0], decode), events[1..], decode)
  }

  /** A fetch completion whose answer order is a shuffle of the published
      question's answers, as `shuffled()` guarantees. Whatever `Publish`
      emits, `PublishCorrected` emits too. */
  predicate Shuffles(e: Event) {
    e.FetchCompleted? && PublishCorrected(e.outcome).value.Some? ==>
      IsPermutation(e.order, PublishCorrected(e.outcome).value.value.AllAnswers())
  }

  /** The registered category belongs to the cached question of that text
      and offers each of its decoded answers. */
  predicate Registered(c: Category, cache: map<string, TriviaQuestion>, decode: string -> string) {
    && c.identifier in cache
    && multiset(Identifiers(c.actions)) == multiset(Decoded(decode, cache[c.identifier].AllAnswers()))
  }

  /** The window is valid, the registered category is consistent with the
      cache, and each queued send carries a shuffle of its answers. */
  predicate Consistent(a: App, decode: string -> string) {
    && WindowOk(a.coordinator.sent)
    && |a.manager.categories| <= 1
    && (forall k :: 0 <= k < |a.manager.categories| ==> Registered(a.manager.categories[k], a.manager.cache, decode))
    && (forall k :: 0 <= k < |a.queued| ==> IsPermutation(a.queued[k].order, a.queued[k].trivia.AllAnswers()))
  }

  /** ... and, once corrected, the fetch flag is set only while a request
      is outstanding. */
  predicate Invariant(v: Variant, a: App, decode: string -> string) {
    Consistent(a, decode) && (v.Corrected? ==> (a.coordinator.fetching ==> a.inFlight > 0))
  }

  lemma LaunchInvariant(v: Variant, saved: real, decode: string -> string)
    ensures Invariant(v, Launch(saved), decode)
  {
  }

  lemma DeliverKeepsInvariant(a: App, value: Option<TriviaQuestion>, order: seq<string>, decode: string -> string)
    requires Consistent(a, decode)
    requires value.Some? ==> IsPermutation(order, value.value.AllAnswers())
    ensures Consistent(Deliver(a, value, order), decode) && !Deliver(a, value, order).coordinator.fetching
  {
    var r := Deliver(a, value, order);
    forall k | 0 <= k < |r.queued|
      ensures IsPermutation(r.queued[k].order, r.queued[k].trivia.AllAnswers())
    {
      if k < |a.queued| { assert r.queued[k] == a.queued[k]; }
    }
  }

  /** Running a queued send keeps the registered category consistent with
      the cache. */
  lemma SendKeepsConsistent(a: App, decode: string -> string)
    requires Consistent(a, decode) && a.queued != []
    ensures Consistent(a.(manager := OnSend(a.manager, a.queued[0].trivia, a.queued[0].order, decode),
                          queued := a.queued[1..]), decode)
  {
    var q := a.queued[0];
    var r := a.(manager := OnSend(a.manager, q.trivia, q.order, decode), queued := a.queued[1..]);
    if !a.manager.inResult {
      CategoryOffersEveryAnswer(q.trivia, q.order, decode);
      assert r.manager.categories == [CategoryFor(q.trivia, q.order, decode)];
      assert r.manager.cache[q.trivia.question] == q.trivia;
      assert Registered(r.manager.categories[0], r.manager.cache, decode);
    }
    forall k | 0 <= k < |r.queued|
      ensures IsPermutation(r.queued[k].order, r.queued[k].trivia.AllAnswers())
    {
      assert r.queued[k] == a.queued[k + 1];
    }
  }

  /** Every event keeps the invariant. In particular, once corrected, the
      fetch flag is never left set with no request outstanding. */
  lemma StepKeepsInvariant(v: Variant, a: App, e: Event, decode: string -> string)
    requires Invariant(v, a, decode) && Shuffles(e)
    ensures Invariant(v, Step(v, a, e, decode), decode)
  {
    match e
    case FetchCompleted(outcome, order) =>
      if a.inFlight > 0 && Published(v, outcome).Emit? {
        DeliverKeepsInvariant(a.(inFlight := a.inFlight - 1), Published(v, outcome).value, order, decode);
      }
    case QueuedSendRan =>
      if a.queued != [] { SendKeepsConsistent(a, decode); }
    case _ =>
  }

  lemma {:induction false} RunKeepsInvariant(v: Variant, a: App, events: seq<Event>, decode: string -> string)
    requires Invariant(v, a, decode)
    requires forall i :: 0 <= i < |events| ==> Shuffles(events[i])
    ensures Invariant(v, Run(v, a, events, decode), decode)
    decreases |events|
  {
    if events != [] {
      StepKeepsInvariant(v, a, events[0], decode);
      RunKeepsInvariant(v, Step(v, a, events[0], decode), events[1..], decode);
    }
  }

  /** Whatever happens after launch, in the source as in the corrected
      app, the window holds at most 20 texts, none twice, and at most one
      category is registered. */
  lemma WindowAlwaysBounded(v: Variant, saved: real, events: seq<Event>, decode: string -> string)
    requires forall i :: 0 <= i < |events| ==> Shuffles(events[i])
    ensures |Run(v, Launch(saved), events, decode).coordinator.sent| <= MaxCacheSize
    ensures Distinct(Run(v, Launch(saved), events, decode).coordinator.sent)
    ensures |Run(v, Launch(saved), events, decode).manager.categories| <= 1
  {
    RunKeepsInvariant(v, Launch(saved), events, decode);
  }

  /** The fetch guard: at most one request is outstanding, and a request
      is outstanding only while the flag is set; once corrected, the flag
      is set exactly while one is. */
  predicate OneFetch(v: Variant, a: App) {
    && a.inFlight <= 1
    && (a.inFlight == 1 ==> a.coordinator.fetching)
    && (v.Corrected? ==> (a.coordinator.fetching ==> a.inFlight == 1))
  }

  lemma StepKeepsOneFetch(v: Variant, a: App, e: Event, decode: string -> string)
    requires OneFetch(v, a) && !e.IntervalChanged?
    ensures OneFetch(v, Step(v, a, e, decode))
  {
  }

  lemma {:induction false} RunKeepsOneFetch(v: Variant, a: App, events: seq<Event>, decode: string -> string)
    requires OneFetch(v, a)
    requires forall i :: 0 <= i < |events| ==> !events[i].IntervalChanged?
    ensures OneFetch(v, Run(v, a, events, decode))
    decreases |events|
  {
    if events != [] {
      StepKeepsOneFetch(v, a, events[0], decode);
      RunKeepsOneFetch(v, Step(v, a, events[0], decode), events[1..], decode);
    }
  }

  /** As long as the interval is not changed, no two network requests are
      ever outstanding at once. */
  lemma AtMostOneFetch(v: Variant, saved: real, events: seq<Event>, decode: string -> string)
    requires forall i :: 0 <= i < |events| ==> !events[i].IntervalChanged?
    ensures Run(v, Launch(saved), events, decode).inFlight <= 1
    ensures v.Corrected? ==>
      (Run(v, Launch(saved), events, decode).coordinator.fetching <==> Run(v, Launch(saved), events, decode).inFlight == 1)
  {
    RunKeepsOneFetch(v, Launch(saved), events, decode);
  }

  /** `restartNotifications` clears the flag while a request is still
      outstanding, so an interval change during a fetch lets the next tick
      start a second one. */
  lemma IntervalChangeDuringFetchAllowsASecond(v: Variant, saved: real, minutes: real, decode: string -> string)
    ensures var started := Step(v, Launch(saved), PermissionAnswered(true), decode);
            var changed := Step(v, started, IntervalChanged(minutes), decode);
            && started.inFlight == 1
            && Step(v, changed, TimerFired, decode).inFlight == 2
  {
  }

  /** The corrected completion always clears the fetch flag, so the next
      tick fetches again. */
  lemma CompletionClearsFetchFlag(a: App, outcome: FetchOutcome, order: seq<string>, decode: string -> string)
    requires a.inFlight > 0
    ensures !Step(Corrected, a, FetchCompleted(outcome, order), decode).coordinator.fetching
    ensures Step(Corrected, Step(Corrected, a, FetchCompleted(outcome, order), decode), TimerFired, decode).inFlight
         == a.inFlight - 1 + (if a.coordinator.timer.Some? then 1 else 0)
  {
  }

  /** A flag set with no request outstanding and no send queued stays set,
      and no question is registered, until the interval changes. */
  lemma {:induction false} StuckStaysStuck(v: Variant, a: App, events: seq<Event>, decode: string -> string)
    requires a.coordinator.fetching && a.inFlight == 0 && a.queued == []
    requires forall i :: 0 <= i < |events| ==> !events[i].IntervalChanged?
    ensures var r := Run(v, a, events, decode);
            r.coordinator.fetching && r.inFlight == 0 && r.queued == []
            && r.manager.categories == a.manager.categories && r.manager.cache == a.manager.cache
    decreases |events|
  {
    if events != [] {
      var next := Step(v, a, events[0], decode);
      assert next.coordinator.fetching && next.inFlight == 0 && next.queued == [];
      assert next.manager.categories == a.manager.categories && next.manager.cache == a.manager.cache;
      StuckStaysStuck(v, next, events[1..], decode);
    }
  }

  /** As written, one failed fetch right after a granted permission stops
      all further questions until the interval is changed. */
  lemma StallsAfterFailedFetch(saved: real, events: seq<Event>, decode: string -> string)
    requires forall i :: 0 <= i < |events| ==> !events[i].IntervalChanged?
    ensures var started := Step(AsWritten, Launch(saved), PermissionAnswered(true), decode);
            var failed := Step(AsWritten, started, FetchCompleted(TransportFailed, []), decode);
            && failed.coordinator.fetching && failed.inFlight == 0
            && Run(AsWritten, failed, events, decode).coordinator.fetching
            && Run(AsWritten, failed, events, decode).manager.categories == []
  {
    var started := Step(AsWritten, Launch(saved), PermissionAnswered(true), decode);
    var failed := Step(AsWritten, started, FetchCompleted(TransportFailed, []), decode);
    StuckStaysStuck(AsWritten, failed, events, decode);
  }

  /** As written, only an interval change ends the stall: it clears the
      flag, and the next tick starts a request. */
  lemma IntervalChangeUnsticksFetch(saved: real, minutes: real, decode: string -> string)
    ensures var started := Step(AsWritten, Launch(saved), PermissionAnswered(true), decode);
            var failed := Step(AsWritten, started, FetchCompleted(TransportFailed, []), decode);
            var changed := Step(AsWritten, failed, IntervalChanged(minutes), decode);
            && failed.coordinator.fetching && !changed.coordinator.fetching
            && Step(AsWritten, changed, TimerFired, decode).inFlight == 1
  {
  }

  /** As written, a request still outstanding from before an interval
      change is the other way out: its sink clears the flag that a later
      failed request left set. */
  lemma EarlierRequestUnsticksFetch(saved: real, minutes: real, q: TriviaQuestion, order: seq<string>, decode: string -> string)
    ensures var started := Step(AsWritten, Launch(saved), PermissionAnswered(true), decode);
            var changed := Step(AsWritten, started, IntervalChanged(minutes), decode);
            var second := Step(AsWritten, changed, TimerFired, decode);
            var failed := Step(AsWritten, second, FetchCompleted(TransportFailed, []), decode);
            && failed.coordinator.fetching && failed.inFlight == 1
            && !Step(AsWritten, failed, FetchCompleted(Received(TriviaResponse(0, [q])), order), decode).coordinator.fetching
  {
  }

  /** While a fetch is in progress a tick changes nothing. */
  lemma TickWhileFetchingChangesNothing(v: Variant, a: App, decode: string -> string)
    requires a.coordinator.fetching
    ensures Step(v, a, TimerFired, decode) == a
  {
  }

  /** The sink run again with the same value changes nothing: the
      subscriptions that pile up, one per fetch, queue a question once. */
  lemma RepeatedSinkIsHarmless(a: App, value: Option<TriviaQuestion>, order: seq<string>, order': seq<string>)
    ensures Deliver(Deliver(a, value, order), value, order') == Deliver(a, value, order)
  {
    ReceiveIdempotent(a.coordinator, value);
  }

  /** A new question, fetched and sent while no result is showing: the
      completion queues the send and remembers the text; the send then
      submits the notification, registers its category as the only one
      and caches the question. */
  lemma NewQuestionIsSent(v: Variant, a: App, outcome: FetchOutcome, order: seq<string>,
                          trivia: TriviaQuestion, decode: string -> string)
    requires a.inFlight > 0 && !a.manager.inResult && a.queued == []
    requires Publish(outcome) == Emit(Some(trivia)) && trivia.question !in a.coordinator.sent
    ensures var c := Step(v, a, FetchCompleted(outcome, order), decode);
            var r := Step(v, c, QueuedSendRan, decode);
            && c.queued == [QueuedSend(trivia, order)] && c.manager == a.manager
            && r.manager.delivered == a.manager.delivered + [QuestionContent(trivia, decode)]
            && r.manager.categories == [CategoryFor(trivia, order, decode)]
            && r.manager.cache == a.manager.cache[trivia.question := trivia]
            && r.coordinator.sent == Remember(a.coordinator.sent, trivia.question)
            && !r.coordinator.fetching && r.coordinator.timer == a.coordinator.timer && r.queued == []
  {
    assert Published(v, outcome) == Emit(Some(trivia));
    assert Delivery(a.coordinator, Some(trivia)) == Some(trivia);
  }

  /** A question whose send runs while a result is showing is not sent,
      but its text entered the window, so it will be skipped later. */
  lemma SuppressedQuestionIsRemembered(v: Variant, a: App, outcome: FetchOutcome, order: seq<string>,
                                       trivia: TriviaQuestion, decode: string -> string)
    requires a.inFlight > 0 && a.manager.inResult && a.queued == []
    requires Publish(outcome) == Emit(Some(trivia)) && trivia.question !in a.coordinator.sent
    ensures var c := Step(v, a, FetchCompleted(outcome, order), decode);
            && trivia.question in c.coordinator.sent
            && Step(v, c, QueuedSendRan, decode).manager == a.manager
  {
    assert Published(v, outcome) == Emit(Some(trivia));
    var c := Step(v, a, FetchCompleted(outcome, order), decode);
    assert c.coordinator.sent == Remember(a.coordinator.sent, trivia.question);
  }

  /** The flag is tested when the queued send runs, not when the sink
      queues it: a reset that runs in between lets the question through. */
  lemma LateResetLetsQueuedQuestionThrough(v: Variant, a: App, outcome: FetchOutcome, order: seq<string>,
                                           trivia: TriviaQuestion, decode: string -> string)
    requires a.inFlight > 0 && a.manager.inResult && a.manager.pendingResets > 0 && a.queued == []
    requires Publish(outcome) == Emit(Some(trivia)) && trivia.question !in a.coordinator.sent
    ensures var c := Step(v, a, FetchCompleted(outcome, order), decode);
            var reset := Step(v, c, ResetTimerFired, decode);
            Step(v, reset, QueuedSendRan, decode).manager.delivered
              == a.manager.delivered + [QuestionContent(trivia, decode)]
  {
    assert Published(v, outcome) == Emit(Some(trivia));
    assert Delivery(a.coordinator, Some(trivia)) == Some(trivia);
  }

  /** Answering the question currently on screen with one of its buttons
      yields the result for exactly that answer, and one of the buttons is
      the decoded correct answer. */
  lemma AnsweringTheCurrentQuestion(v: Variant, a: App, k: nat, decode: string -> string)
    requires Consistent(a, decode) && |a.manager.categories| == 1
    requires k < |a.manager.categories[0].actions|
    requires a.manager.categories[0].actions[k].identifier != DefaultActionIdentifier
    ensures var c := a.manager.categories[0];
            var correct := decode(a.manager.cache[c.identifier].correctAnswer);
            var chosen := c.actions[k].identifier;
            && correct in Identifiers(c.actions)
            && Step(v, a, UserResponded(c.identifier, chosen), decode).manager.delivered
               == a.manager.delivered + [ResultContent(chosen == correct, chosen, correct)]
  {
    var c := a.manager.categories[0];
    var chosen := c.actions[k].identifier;
    assert Registered(c, a.manager.cache, decode);
    RegisteredOffersCorrect(c, a.manager.cache, decode);
    StepOnResponse(v, a, c.identifier, chosen, decode);
    RespondToButton(v, a.manager, c.identifier, chosen, decode);
  }

  lemma StepOnResponse(v: Variant, a: App, categoryIdentifier: string, actionIdentifier: string,
                       decode: string -> string)
    ensures Step(v, a, UserResponded(categoryIdentifier, actionIdentifier), decode).manager
         == Respond(v, a.manager, categoryIdentifier, actionIdentifier, decode)
  {
  }

  /** Both variants handle a press of an answer button alike. */
  lemma RespondToButton(v: Variant, m: Manager, categoryIdentifier: string, actionIdentifier: string,
                        decode: string -> string)
    requires actionIdentifier != DefaultActionIdentifier && categoryIdentifier in m.cache
    ensures var correct := decode(m.cache[categoryIdentifier].correctAnswer);
            Respond(v, m, categoryIdentifier, actionIdentifier, decode).delivered
              == m.delivered + [ResultContent(actionIdentifier == correct, actionIdentifier, correct)]
  {
  }

  /** A registered category offers its question's decoded correct answer. */
  lemma RegisteredOffersCorrect(c: Category, cache: map<string, TriviaQuestion>, decode: string -> string)
    requires Registered(c, cache, decode)
    ensures decode(cache[c.identifier].correctAnswer) in Identifiers(c.actions)
  {
    var all := cache[c.identifier].AllAnswers();
    DecodedLast(decode, all);
    assert decode(cache[c.identifier].correctAnswer) in multiset(Identifiers(c.actions));
  }

  /** As written, a response that clicks the notification body sets the
      result flag and schedules no reset. */
  lemma DefaultActionLeavesFlagSet(a: App, categoryIdentifier: string, decode: string -> string)
    ensures var r := Step(AsWritten, a, UserResponded(categoryIdentifier, DefaultActionIdentifier), decode);
            r.manager.inResult && r.manager.pendingResets == a.manager.pendingResets
            && r.manager.delivered == a.manager.delivered
  {
  }

  /** As written, a body click while a reset is still pending from an
      earlier answer sets the flag, and that reset then clears it. */
  lemma PendingResetClearsBodyClick(a: App, categoryIdentifier: string, decode: string -> string)
    requires a.manager.pendingResets > 0
    ensures var clicked := Step(AsWritten, a, UserResponded(categoryIdentifier, DefaultActionIdentifier), decode);
            && clicked.manager.inResult
            && !Step(AsWritten, clicked, ResetTimerFired, decode).manager.inResult
  {
  }

  /** As written, a flag that no pending reset will clear stays set, and
      the manager changes in no way, until a button is pressed. */
  lemma {:induction false} FlagWithoutResetStaysSet(a: App, events: seq<Event>, decode: string -> string)
    requires a.manager.inResult && a.manager.pendingResets == 0
    requires forall i :: 0 <= i < |events| ==>
      (events[i].UserResponded? ==> events[i].actionIdentifier == DefaultActionIdentifier)
    ensures Run(AsWritten, a, events, decode).manager == a.manager
    decreases |events|
  {
    if events != [] {
      var next := Step(AsWritten, a, events[0], decode);
      assert next.manager == a.manager;
      FlagWithoutResetStaysSet(next, events[1..], decode);
    }
  }

  /** As written, a click on the notification body while no reset is
      pending silences the app: no question is submitted afterwards,
      however many are fetched, until a button is pressed. */
  lemma BodyClickSilencesTheApp(a: App, categoryIdentifier: string, events: seq<Event>, decode: string -> string)
    requires a.manager.pendingResets == 0
    requires forall i :: 0 <= i < |events| ==>
      (events[i].UserResponded? ==> events[i].actionIdentifier == DefaultActionIdentifier)
    ensures var clicked := Step(AsWritten, a, UserResponded(categoryIdentifier, DefaultActionIdentifier), decode);
            && clicked.manager.inResult
            && Run(AsWritten, clicked, events, decode).manager.delivered == a.manager.delivered
  {
    var clicked := Step(AsWritten, a, UserResponded(categoryIdentifier, DefaultActionIdentifier), decode);
    FlagWithoutResetStaysSet(clicked, events, decode);
  }

  lemma {:induction false} RunKeepsResetPending(a: App, events: seq<Event>, decode: string -> string)
    requires ResetIsPending(a.manager)
    ensures ResetIsPending(Run(Corrected, a, events, decode).manager)
    decreases |events|
  {
    if events != [] {
      var e := events[0];
      if e.UserResponded? {
        ResponseKeepsResetPending(a.manager, e.categoryIdentifier, e.actionIdentifier, decode);
      }
      RunKeepsResetPending(Step(Corrected, a, e, decode), events[1..], decode);
    }
  }

  /** Once corrected, the result flag is only ever set while a reset that
      will clear it is pending, so new questions are suppressed only for
      a while. */
  lemma ResetAlwaysPending(saved: real, events: seq<Event>, decode: string -> string)
    ensures var m := Run(Corrected, Launch(saved), events, decode).manager;
            m.inResult ==> m.pendingResets > 0
  {
    RunKeepsResetPending(Launch(saved), events, decode);
  }

  /** Neither a tick, a completion, a queued send nor a response can make
      a denied app deliver anything, as long as the interval is not
      changed. */
  predicate Quiet(a: App) {
    && a.coordinator.timer.None? && !a.coordinator.fetching && a.inFlight == 0 && a.queued == []
    && a.manager.delivered == [] && a.manager.cache == map[] && a.manager.categories == []
  }

  predicate KeepsQuiet(e: Event) {
    !e.IntervalChanged? && !(e.PermissionAnswered? && e.granted)
  }

  lemma {:induction false} QuietStaysQuiet(v: Variant, a: App, events: seq<Event>, decode: string -> string)
    requires Quiet(a)
    requires forall i :: 0 <= i < |events| ==> KeepsQuiet(events[i])
    ensures Quiet(Run(v, a, events, decode))
    decreases |events|
  {
    if events != [] {
      assert Quiet(Step(v, a, events[0], decode));
      QuietStaysQuiet(v, Step(v, a, events[0], decode), events[1..], decode);
    }
  }

  lemma DeniedPermissionSendsNothing(v: Variant, saved: real, events: seq<Event>, decode: string -> string)
    requires forall i :: 0 <= i < |events| ==> KeepsQuiet(events[i])
    ensures Run(v, Launch(saved), [PermissionAnswered(false)] + events, decode).manager.delivered == []
  {
    var all := [PermissionAnswered(false)] + events;
    assert all[1..] == events;
    QuietStaysQuiet(v, Step(v, Launch(saved), PermissionAnswered(false), decode), events, decode);
  }

  /** `restartNotifications` arms the timer whether or not permission was
      granted, so after a denial an interval change starts polling. */
  lemma IntervalChangeStartsPollingAfterDenial(v: Variant, saved: real, minutes: real, decode: string -> string)
    ensures var denied := Step(v, Launch(saved), PermissionAnswered(false), decode);
            var changed := Step(v, denied, IntervalChanged(minutes), decode);
            && denied.coordinator.timer.None?
            && Step(v, changed, TimerFired, decode).inFlight == 1
  {
  }

  function Identity(s: string): string { s }

  /** The question "Q1" with answer "A" against "B", "C" and "D". */
  function Q1(): TriviaQuestion {
    TriviaQuestion("General", "multiple", "easy", "Q1", "A", ["B", "C", "D"])
  }

  function Q1Fetched(): FetchOutcome {
    Received(TriviaResponse(0, [Q1()]))
  }

  /** Permission granted, "Q1" fetched, its send run: exactly one
      notification, with category "Q1" and four buttons. */
  lemma ScenarioFirstDelivery(v: Variant, saved: real, order: seq<string>)
    requires IsPermutation(order, ["B", "C", "D", "A"])
    ensures var a1 := Step(v, Launch(saved), PermissionAnswered(true), Identity);
            var a2 := Step(v, a1, FetchCompleted(Q1Fetched(), order), Identity);
            var a := Step(v, a2, QueuedSendRan, Identity);
            && a.manager.delivered == [QuestionContent(Q1(), Identity)]
            && |a.manager.categories| == 1
            && a.manager.categories[0].identifier == "Q1"
            && |a.manager.categories[0].actions| == 4
            && a.coordinator.sent == ["Q1"] && !a.coordinator.fetching && a.coordinator.timer.Some?
  {
    assert Q1().AllAnswers() == ["B", "C", "D", "A"];
    assert Publish(Q1Fetched()) == Emit(Some(Q1()));
    var a1 := Step(v, Launch(saved), PermissionAnswered(true), Identity);
    assert a1.coordinator.fetching && a1.inFlight == 1 && a1.coordinator.timer.Some? && a1.queued == [];
    assert a1.coordinator.sent == [] && a1.manager == Manager(false, map[], [], [], 0);
    NewQuestionIsSent(v, a1, Q1Fetched(), order, Q1(), Identity);
    assert Remember([], "Q1") == ["Q1"];
    CategoryOffersEveryAnswer(Q1(), order, Identity);
  }

  /** The same question fetched again on the next tick queues and sends
      nothing. */
  lemma ScenarioRepeatIsSkipped(v: Variant, a: App, order: seq<string>)
    requires a.coordinator.sent == ["Q1"] && !a.coordinator.fetching && a.coordinator.timer.Some?
    requires a.queued == []
    ensures var r := Step(v, Step(v, a, TimerFired, Identity), FetchCompleted(Q1Fetched(), order), Identity);
            r.manager == a.manager && r.queued == []
  {
    assert Publish(Q1Fetched()) == Emit(Some(Q1()));
    assert Published(v, Q1Fetched()) == Emit(Some(Q1()));
    var a1 := Step(v, a, TimerFired, Identity);
    assert a1.inFlight > 0 && a1.coordinator.sent == ["Q1"] && a1.manager == a.manager && a1.queued == [];
    assert Delivery(a1.coordinator, Some(Q1())) == None;
  }

  /** Choosing "B" when the correct answer is "A" shows the incorrect
      result with both answers. */
  lemma ScenarioWrongAnswer(v: Variant, a: App)
    requires "Q1" in a.manager.cache && a.manager.cache["Q1"].correctAnswer == "A"
    ensures var r := Step(v, a, UserResponded("Q1", "B"), Identity);
            && r.manager.delivered == a.manager.delivered + [ResultContent(false, "B", "A")]
            && r.manager.delivered[|r.manager.delivered| - 1].title == IncorrectTitle
            && Contains(r.manager.delivered[|r.manager.delivered| - 1].body, "Your answer: B")
            && Contains(r.manager.delivered[|r.manager.delivered| - 1].body, "Correct answer: A")
  {
    assert "B" != DefaultActionIdentifier;
    assert "Your answer: " + "B" == "Your answer: B";
    assert "Correct answer: " + "A" == "Correct answer: A";
  }

}
