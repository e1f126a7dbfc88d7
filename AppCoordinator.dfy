/**
 The coordinator: it picks the polling interval, guards against
 overlapping fetches with `isFetchingTrivia`, and keeps `sentQuestions`,
 a window of the last 20 question texts handed on for delivery, so that
 a question is not sent twice in a row.

 The pure record `Coordinator` and the `On...` functions are the state
 and transitions; the class `AppCoordinator` is the object whose methods
 perform them. The repeating timer is represented by the interval it was
 armed with; its ticks are calls of `FetchTriviaAndNotify`.
 */
module Coordinator {

  import opened Wrappers
  import opened TriviaModels
  import opened Notifications

  const MaxCacheSize: nat := 20

  /** Minutes between questions when nothing usable was saved. */
  const DefaultInterval: real := 30.0

  /** The starting interval. A missing setting reads as 0, so it falls to
      the default like any other value that is not positive. */
  function InitialInterval(saved: real): (r: real)
    ensures r > 0.0
    ensures saved > 0.0 ==> r == saved
    ensures saved <= 0.0 ==> r == DefaultInterval
  {
    if saved > 0.0 then saved else DefaultInterval
  }

  predicate Distinct(s: seq<string>) {
    forall i, j :: 0 <= i < j < |s| ==> s[i] != s[j]
  }

  /** What the window must always satisfy. */
  predicate WindowOk(s: seq<string>) {
    |s| <= MaxCacheSize && Distinct(s)
  }

  /** Append a text, then drop the first entry if the window overflowed. */
  function Remember(sent: seq<string>, text: string): (r: seq<string>)
    ensures |r| > 0 && r[|r| - 1] == text
    ensures |sent| < MaxCacheSize ==> r == sent + [text]
    ensures |sent| >= MaxCacheSize ==> r == sent[1..] + [text]
    ensures |sent| <= MaxCacheSize ==> |r| <= MaxCacheSize
    ensures forall t :: t in r ==> t == text || t in sent
  {
    var grown := sent + [text];
    if |grown| > MaxCacheSize then grown[1..] else grown
  }

  /** A text not yet in a valid window can be remembered without breaking it. */
  lemma RememberKeepsWindow(sent: seq<string>, text: string)
    requires WindowOk(sent) && text !in sent
    ensures WindowOk(Remember(sent, text))
  {
    var r := Remember(sent, text);
    forall i, j | 0 <= i < j < |r| ensures r[i] != r[j] {
      if |sent| < MaxCacheSize {
        if j < |sent| { assert r[i] == sent[i] && r[j] == sent[j]; }
        else { assert r[i] == sent[i]; }
      } else {
        if j < |sent| - 1 { assert r[i] == sent[i + 1] && r[j] == sent[j + 1]; }
        else { assert r[i] == sent[i + 1]; }
      }
    }
  }

  /** When a new text arrives at a full window, exactly the oldest entry
      is forgotten and becomes eligible again. */
  lemma EvictsOnlyOldest(sent: seq<string>, text: string)
    requires |sent| == MaxCacheSize && Distinct(sent) && text !in sent
    ensures sent[0] !in Remember(sent, text)
    ensures forall k :: 1 <= k < |sent| ==> sent[k] in Remember(sent, text)
    ensures text in Remember(sent, text)
  {
    var r := Remember(sent, text);
    assert r == sent[1..] + [text];
    forall k | 0 <= k < |r| ensures r[k] != sent[0] {
      if k < |r| - 1 { assert r[k] == sent[k + 1]; }
    }
    forall k | 1 <= k < |sent| ensures sent[k] in r {
      assert r[k - 1] == sent[k];
    }
  }

  datatype Coordinator = Coordinator(
    interval: real,          // notificationInterval, in minutes
    fetching: bool,          // isFetchingTrivia
    sent: seq<string>,       // sentQuestions, oldest first
    timer: Option<real>)     // the interval the repeating timer runs at, if any

  function Initial(saved: real): (c: Coordinator)
    ensures c.interval == InitialInterval(saved) && c.interval > 0.0
    ensures !c.fetching && c.timer.None? && c.sent == [] && WindowOk(c.sent)
  {
    Coordinator(InitialInterval(saved), false, [], None)
  }

  /** Whether `fetchTriviaAndNotify` gets past its guard. */
  predicate StartsFetch(c: Coordinator) {
    !c.fetching
  }

  /** `fetchTriviaAndNotify` up to the network request: nothing at all
      happens while a fetch is in progress. */
  function OnFetch(c: Coordinator): (r: Coordinator)
    ensures r.fetching
    ensures !StartsFetch(c) ==> r == c
    ensures r.interval == c.interval && r.sent == c.sent && r.timer == c.timer
  {
    if c.fetching then c else c.(fetching := true)
  }

  /** The permission answer in `setup`: only a grant fetches once and arms
      the timer. */
  function OnSetup(c: Coordinator, granted: bool): (r: Coordinator)
    ensures !granted ==> r == c
    ensures granted ==> r == OnFetch(c).(timer := Some(c.interval))
  {
    if granted then OnFetch(c).(timer := Some(c.interval)) else c
  }

  /** `restartNotifications`, run by every assignment of the interval. */
  function OnIntervalChange(c: Coordinator, minutes: real): (r: Coordinator)
    ensures r.interval == minutes && r.timer == Some(minutes)
    ensures !r.fetching && r.sent == []
  {
    Coordinator(minutes, false, [], Some(minutes))
  }

  /** The question the sink hands on for delivery, if any: a published
      question whose text is not in the window. */
  function Delivery(c: Coordinator, value: Option<TriviaQuestion>): (r: Option<TriviaQuestion>)
    ensures r.Some? <==> value.Some? && value.value.question !in c.sent
    ensures r.Some? ==> r == value
  {
    match value
    case None => None
    case Some(trivia) => if trivia.question in c.sent then None else Some(trivia)
  }

  /** The sink for a published value: nil and repeats only clear the flag;
      a new question is also remembered. */
  function OnReceive(c: Coordinator, value: Option<TriviaQuestion>): (r: Coordinator)
    ensures !r.fetching && r.interval == c.interval && r.timer == c.timer
    ensures Delivery(c, value).None? ==> r.sent == c.sent
    ensures Delivery(c, value).Some? ==> r.sent == Remember(c.sent, value.value.question)
    ensures WindowOk(c.sent) ==> WindowOk(r.sent)
  {
    match Delivery(c, value)
    case None => c.(fetching := false)
    case Some(trivia) =>
      RememberKeepsWindowIfOk(c.sent, trivia.question);
      c.(fetching := false, sent := Remember(c.sent, trivia.question))
  }

  lemma RememberKeepsWindowIfOk(sent: seq<string>, text: string)
    requires text !in sent
    ensures WindowOk(sent) ==> WindowOk(Remember(sent, text))
  {
    if WindowOk(sent) { RememberKeepsWindow(sent, text); }
  }

  /** Running the sink twice on the same value is the same as running it
      once, and the second run delivers nothing: a question is sent once
      however many subscriptions hear it. */
  lemma ReceiveIdempotent(c: Coordinator, value: Option<TriviaQuestion>)
    ensures OnReceive(OnReceive(c, value), value) == OnReceive(c, value)
    ensures Delivery(OnReceive(c, value), value).None?
  {
    if Delivery(c, value).Some? {
      var r := OnReceive(c, value);
      assert r.sent[|r.sent| - 1] == value.value.question;
    }
  }

  /** After an interval change every question is new again. */
  lemma IntervalChangeForgets(c: Coordinator, minutes: real, trivia: TriviaQuestion)
    ensures Delivery(OnIntervalChange(c, minutes), Some(trivia)) == Some(trivia)
    ensures StartsFetch(OnIntervalChange(c, minutes))
  {
  }

  class AppCoordinator {
    var notificationInterval: real
    var isFetchingTrivia: bool
    var sentQuestions: seq<string>
    var timer: Option<real>
    const notificationManager: NotificationManager

    ghost function State(): Coordinator
      reads this
    {
      Coordinator(notificationInterval, isFetchingTrivia, sentQuestions, timer)
    }

    ghost predicate Valid()
      reads this
    {
      WindowOk(sentQuestions)
    }

    /** `savedInterval` is what the settings store returned; `cache` is
        the process-wide question cache. */
    constructor (savedInterval: real, cache: TriviaCache, decode: string -> string)
      ensures State() == Initial(savedInterval) && Valid()
      ensures fresh(notificationManager)
      ensures notificationManager.cache == cache && notificationManager.decode == decode
      ensures notificationManager.State() == Manager(false, cache.questions, [], [], 0)
    {
      notificationInterval := InitialInterval(savedInterval);
      isFetchingTrivia := false;
      sentQuestions := [];
      timer := None;
      notificationManager := new NotificationManager(cache, decode);
    }

    /** The completion of the permission request in `setup`; reports
        whether a fetch was started. */
    method Setup(granted: bool) returns (started: bool)
      modifies this
      ensures State() == OnSetup(old(State()), granted)
      ensures started == (granted && StartsFetch(old(State())))
    {
      started := false;
      if granted {
        started := FetchTriviaAndNotify();
        StartNotifications();
      }
    }

    /** Assigning the interval runs `restartNotifications`. */
    method SetNotificationInterval(minutes: real)
      modifies this
      ensures State() == OnIntervalChange(old(State()), minutes) && Valid()
    {
      notificationInterval := minutes;
      RestartNotifications();
    }

    method RestartNotifications()
      modifies this
      ensures State() == OnIntervalChange(old(State()), notificationInterval)
      ensures notificationInterval == old(notificationInterval)
    {
      timer := None;
      isFetchingTrivia := false;
      sentQuestions := [];
      StartNotifications();
    }

    method StartNotifications()
      modifies this
      ensures State() == old(State()).(timer := Some(notificationInterval))
    {
      timer := Some(notificationInterval);
    }

    /** Called once by `setup` and on every timer tick; reports whether
        a network request was started. */
    method FetchTriviaAndNotify() returns (started: bool)
      modifies this
      ensures started == StartsFetch(old(State()))
      ensures State() == OnFetch(old(State()))
    {
      if isFetchingTrivia {
        return false;
      }
      isFetchingTrivia := true;
      started := true;
    }

    /** The sink body, run with each published value. It does not send:
        it returns the question whose send it queues on the main queue
        (`DispatchQueue.main.async`), if any. */
    method ReceiveTrivia(trivia: Option<TriviaQuestion>) returns (queued: Option<TriviaQuestion>)
      requires Valid()
      modifies this
      ensures Valid()
      ensures State() == OnReceive(old(State()), trivia)
      ensures queued == Delivery(old(State()), trivia)
    {
      if trivia.None? {
        isFetchingTrivia := false;
        return None;
      }
      var q := trivia.value;
      if q.question in sentQuestions {
        isFetchingTrivia := false;
        return None;
      }
      queued := Some(q);
      RememberKeepsWindow(sentQuestions, q.question);
      sentQuestions := sentQuestions + [q.question];
      if |sentQuestions| > MaxCacheSize {
        sentQuestions := sentQuestions[1..];
      }
      isFetchingTrivia := false;
    }

    /** The queued block, run later by the main queue. `order` is what
        `shuffled()` returns for the question when the block runs. */
    method RunQueuedSend(trivia: TriviaQuestion, order: seq<string>)
      requires IsPermutation(order, trivia.AllAnswers())
      modifies notificationManager, notificationManager.cache
      ensures notificationManager.State() == OnSend(old(notificationManager.State()), trivia, order, notificationManager.decode)
    {
      notificationManager.SendTriviaNotification(trivia, order);
    }
  }

}
