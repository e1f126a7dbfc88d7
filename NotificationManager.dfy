/**
 The notification side of the app: the question cache keyed by question
 text, the interactive notification built for a question (one action per
 answer, the question text as category identifier), the result-state flag
 that suppresses new questions, and the handler for the user's answer.

 The OS notification centre is modelled by what the manager hands it: the
 list of registered categories (replaced wholesale on each registration)
 and the list of notification contents submitted for delivery. Delivery
 delays and request identifiers are not modelled. HTML-entity decoding is
 a deterministic function supplied from outside (`decode`).
 */
module Notifications {

  import opened Wrappers
  import opened TriviaModels

  /** The action identifier the OS reports when the notification body is
      clicked rather than one of its buttons. */
  const DefaultActionIdentifier: string := "com.apple.UNNotificationDefaultActionIdentifier"

  const QuestionTitle: string := "Your scheduled trivia question:"
  const CorrectTitle: string := "\U{2705} Correct!"
  const IncorrectTitle: string := "\U{274C} Incorrect"

  datatype Sound = DefaultSound | NamedSound(name: string)

  /** What a notification request carries. A result notification has no
      category, which the OS represents by the empty identifier. */
  datatype Content = Content(title: string, body: string, sound: Sound, categoryIdentifier: string)

  /** One answer button; every button brings the app to the foreground. */
  datatype Action = Action(identifier: string, title: string)

  datatype Category = Category(identifier: string, actions: seq<Action>)

  /** `part` occurs in `s` as a contiguous piece. */
  predicate Contains(s: string, part: string) {
    exists i :: 0 <= i <= |s| - |part| && OccursAt(s, part, i)
  }

  predicate OccursAt(s: string, part: string, i: nat)
    requires i + |part| <= |s|
  {
    s[i..i + |part|] == part
  }

  lemma ContainsMiddle(before: string, part: string, after: string)
    ensures Contains(before + part + after, part)
  {
    var s := before + part + after;
    assert OccursAt(s, part, |before|);
  }

  /** The result of `shuffled()`: some ordering of the same answers. */
  predicate IsPermutation(order: seq<string>, answers: seq<string>) {
    multiset(order) == multiset(answers)
  }

  /** Each text decoded, in order. */
  function Decoded(decode: string -> string, s: seq<string>): (r: seq<string>)
    ensures |r| == |s|
    ensures forall i :: 0 <= i < |s| ==> r[i] == decode(s[i])
  {
    if s == [] then [] else [decode(s[0])] + Decoded(decode, s[1..])
  }

  lemma DecodedAppend(decode: string -> string, a: seq<string>, b: seq<string>)
    ensures Decoded(decode, a + b) == Decoded(decode, a) + Decoded(decode, b)
  {
    var l, r := Decoded(decode, a + b), Decoded(decode, a) + Decoded(decode, b);
    assert |l| == |r|;
    forall i | 0 <= i < |l| ensures l[i] == r[i] {
      if i < |a| {
        assert (a + b)[i] == a[i];
      } else {
        assert (a + b)[i] == b[i - |a|];
      }
    }
  }

  /** A sequence is its part before `i`, its element at `i` and the rest. */
  lemma SplitAt(s: seq<string>, i: nat)
    requires i < |s|
    ensures s == s[..i] + [s[i]] + s[i + 1..]
  {
    assert s[i..] == [s[i]] + s[i + 1..];
    assert s == s[..i] + s[i..];
  }

  /** Removing the element at `i` removes one occurrence of it. */
  lemma RemoveAt(s: seq<string>, i: nat)
    requires i < |s|
    ensures multiset(s[..i] + s[i + 1..]) == multiset(s) - multiset{s[i]}
  {
    SplitAt(s, i);
  }

  lemma DecodedAround(decode: string -> string, before: seq<string>, x: string, after: seq<string>)
    ensures Decoded(decode, before + [x] + after) == Decoded(decode, before) + [decode(x)] + Decoded(decode, after)
  {
    DecodedAppend(decode, before + [x], after);
    DecodedAppend(decode, before, [x]);
    assert Decoded(decode, [x]) == [decode(x)];
  }

  /** Decoding commutes with removing the element at `i`. */
  lemma DecodedRemoveAt(decode: string -> string, s: seq<string>, i: nat)
    requires i < |s|
    ensures multiset(Decoded(decode, s))
         == multiset{decode(s[i])} + multiset(Decoded(decode, s[..i] + s[i + 1..]))
  {
    var before, x, after := s[..i], s[i], s[i + 1..];
    SplitAt(s, i);
    DecodedAround(decode, before, x, after);
    DecodedAppend(decode, before, after);
    var db, da := Decoded(decode, before), Decoded(decode, after);
    assert multiset(db + [decode(x)] + da) == multiset(db) + multiset{decode(x)} + multiset(da);
  }

  /** Decoding two orderings of the same answers gives two orderings of
      the same decoded answers. */
  lemma {:induction false} DecodedPermutation(decode: string -> string, a: seq<string>, b: seq<string>)
    requires multiset(a) == multiset(b)
    ensures multiset(Decoded(decode, a)) == multiset(Decoded(decode, b))
  {
    if a == [] {
      assert |b| == |multiset(b)| == 0;
    } else {
      var x := a[0];
      assert x in multiset(a);
      assert x in b;
      var i :| 0 <= i < |b| && b[i] == x;
      var rest := b[..i] + b[i + 1..];
      RemoveAt(a, 0);
      assert a[..0] + a[1..] == a[1..];
      assert multiset(a[1..]) == multiset(a) - multiset{x};
      RemoveAt(b, i);
      assert multiset(rest) == multiset(b) - multiset{x};
      DecodedPermutation(decode, a[1..], rest);
      DecodedRemoveAt(decode, a, 0);
      DecodedRemoveAt(decode, b, i);
    }
  }

  /** One button per answer, identified and labelled by the answer text. */
  function ActionsFor(answers: seq<string>): (r: seq<Action>)
    ensures |r| == |answers|
    ensures forall i :: 0 <= i < |r| ==> r[i].identifier == answers[i] && r[i].title == answers[i]
  {
    seq(|answers|, i requires 0 <= i < |answers| => Action(answers[i], answers[i]))
  }

  function Identifiers(actions: seq<Action>): (r: seq<string>)
    ensures |r| == |actions|
    ensures forall i :: 0 <= i < |r| ==> r[i] == actions[i].identifier
  {
    seq(|actions|, i requires 0 <= i < |actions| => actions[i].identifier)
  }

  /** The category `registerCategory` builds for a question whose answers
      were shuffled into `order`. */
  function CategoryFor(trivia: TriviaQuestion, order: seq<string>, decode: string -> string): (c: Category)
    ensures c.identifier == trivia.question
    ensures |c.actions| == |order|
    ensures forall i :: 0 <= i < |c.actions| ==>
      c.actions[i].identifier == decode(order[i]) && c.actions[i].title == c.actions[i].identifier
  {
    Category(trivia.question, ActionsFor(Decoded(decode, order)))
  }

  /** The registered category offers every decoded answer exactly as often
      as the question lists it, whatever the shuffle, and so in particular
      offers the decoded correct answer. */
  lemma CategoryOffersEveryAnswer(trivia: TriviaQuestion, order: seq<string>, decode: string -> string)
    requires IsPermutation(order, trivia.AllAnswers())
    ensures |CategoryFor(trivia, order, decode).actions| == |trivia.AllAnswers()|
    ensures multiset(Identifiers(CategoryFor(trivia, order, decode).actions))
         == multiset(Decoded(decode, trivia.AllAnswers()))
    ensures decode(trivia.correctAnswer) in Identifiers(CategoryFor(trivia, order, decode).actions)
  {
    var all := trivia.AllAnswers();
    var ids := Identifiers(CategoryFor(trivia, order, decode).actions);
    assert |order| == |multiset(order)| == |multiset(all)| == |all|;
    assert ids == Decoded(decode, order);
    DecodedPermutation(decode, order, all);
    DecodedLast(decode, all);
    assert decode(trivia.correctAnswer) in multiset(ids);
  }

  /** The last text, decoded, is among the decoded texts. */
  lemma DecodedLast(decode: string -> string, s: seq<string>)
    requires |s| > 0
    ensures decode(s[|s| - 1]) in multiset(Decoded(decode, s))
  {
    var d := Decoded(decode, s);
    assert d[|d| - 1] == decode(s[|s| - 1]);
  }

  /** The content of the question notification. */
  function QuestionContent(trivia: TriviaQuestion, decode: string -> string): (c: Content)
    ensures c.categoryIdentifier == trivia.question
    ensures c.title == QuestionTitle && c.sound == DefaultSound
    ensures Contains(c.body, decode(trivia.question))
  {
    ContainsMiddle("\U{2753} ", decode(trivia.question), "\n\nChoose your answer:");
    Content(QuestionTitle, "\U{2753} " + decode(trivia.question) + "\n\nChoose your answer:",
            DefaultSound, trivia.question)
  }

  /** The content of the result notification: which one depends only on
      the outcome; the user's answer is always shown, the correct answer
      too when the user was wrong. */
  function ResultContent(isCorrect: bool, userAnswer: string, correctAnswer: string): (c: Content)
    ensures c.title == (if isCorrect then CorrectTitle else IncorrectTitle)
    ensures c.sound == (if isCorrect then DefaultSound else NamedSound(""))
    ensures c.categoryIdentifier == ""
    ensures Contains(c.body, "Your answer: " + userAnswer)
    ensures !isCorrect ==> Contains(c.body, "Correct answer: " + correctAnswer)
  {
    if isCorrect then
      var yours := "Your answer: " + userAnswer;
      ContainsMiddle("You got it right!\n\n", yours, "");
      assert "You got it right!\n\n" + yours + "" == "You got it right!\n\n" + yours;
      Content(CorrectTitle, "You got it right!\n\n" + yours, DefaultSound, "")
    else
      var yours, theirs := "Your answer: " + userAnswer, "Correct answer: " + correctAnswer;
      var body := yours + "\n" + theirs;
      ContainsMiddle("", yours, "\n" + theirs);
      assert "" + yours + ("\n" + theirs) == body;
      ContainsMiddle(yours + "\n", theirs, "");
      assert yours + "\n" + theirs + "" == body;
      Content(IncorrectTitle, body, NamedSound(""), "")
  }

  /** A user can always tell the two outcomes apart by the title. */
  lemma OutcomesAreDistinguishable(u1: string, c1: string, u2: string, c2: string)
    ensures ResultContent(true, u1, c1).title != ResultContent(false, u2, c2).title
    ensures ResultContent(true, u1, c1).sound != ResultContent(false, u2, c2).sound
  {
    assert CorrectTitle[0] != IncorrectTitle[0];
  }

  function Lookup(cache: map<string, TriviaQuestion>, key: string): (r: Option<TriviaQuestion>)
    ensures r.Some? <==> key in cache
    ensures r.Some? ==> r.value == cache[key]
  {
    if key in cache then Some(cache[key]) else None
  }

  /** Storing a question makes it the answer to a lookup by its text and
      leaves every other key as it was. */
  lemma StoreThenLookup(cache: map<string, TriviaQuestion>, trivia: TriviaQuestion, key: string)
    ensures Lookup(cache[trivia.question := trivia], key)
         == if key == trivia.question then Some(trivia) else Lookup(cache, key)
  {
  }

  /** `isCorrect` for a response, or None when the category is not cached. */
  function Verdict(cache: map<string, TriviaQuestion>, categoryIdentifier: string,
                   actionIdentifier: string, decode: string -> string): (r: Option<bool>)
    ensures r.Some? <==> categoryIdentifier in cache
    ensures r.Some? ==> (r.value <==> actionIdentifier == decode(cache[categoryIdentifier].correctAnswer))
  {
    match Lookup(cache, categoryIdentifier)
    case Some(trivia) => Some(actionIdentifier == decode(trivia.correctAnswer))
    case None => None
  }

  /** The manager's state together with what it has handed to the OS. */
  datatype Manager = Manager(
    inResult: bool,                          // isInTriviaResultState
    cache: map<string, TriviaQuestion>,      // the shared TriviaCache
    categories: seq<Category>,               // categories registered with the OS
    delivered: seq<Content>,                 // notification requests submitted
    pendingResets: nat)                      // scheduled flag resets not yet run

  /** `sendTriviaNotification`: suppressed while a result is being shown;
      otherwise the question is cached, its category becomes the only one,
      and one question notification is submitted. */
  function OnSend(m: Manager, trivia: TriviaQuestion, order: seq<string>, decode: string -> string): (r: Manager)
    ensures m.inResult ==> r == m
    ensures r.inResult == m.inResult && r.pendingResets == m.pendingResets
    ensures !m.inResult ==> && Lookup(r.cache, trivia.question) == Some(trivia)
                            && (forall k :: k != trivia.question ==> Lookup(r.cache, k) == Lookup(m.cache, k))
                            && r.categories == [CategoryFor(trivia, order, decode)]
                            && r.delivered == m.delivered + [QuestionContent(trivia, decode)]
  {
    if m.inResult then m
    else m.(cache := m.cache[trivia.question := trivia],
            categories := [CategoryFor(trivia, order, decode)],
            delivered := m.delivered + [QuestionContent(trivia, decode)])
  }

  /** The notification just submitted carries a category identifier that
      looks up the very question it was built from. */
  lemma SentQuestionIsFoundByItsCategory(m: Manager, trivia: TriviaQuestion, order: seq<string>,
                                        decode: string -> string)
    requires !m.inResult
    ensures var r := OnSend(m, trivia, order, decode);
            |r.delivered| > 0 && Lookup(r.cache, r.delivered[|r.delivered| - 1].categoryIdentifier) == Some(trivia)
  {
    var r := OnSend(m, trivia, order, decode);
    assert r.delivered[|r.delivered| - 1] == QuestionContent(trivia, decode);
  }

  /** The response handler. */
  function OnResponse(m: Manager, categoryIdentifier: string, actionIdentifier: string,
                      decode: string -> string): (r: Manager)
    ensures r.inResult
    ensures r.cache == m.cache && r.categories == m.categories
    ensures actionIdentifier == DefaultActionIdentifier ==>
      r.delivered == m.delivered && r.pendingResets == m.pendingResets
    ensures actionIdentifier != DefaultActionIdentifier ==> r.pendingResets == m.pendingResets + 1
    ensures actionIdentifier != DefaultActionIdentifier && categoryIdentifier !in m.cache ==>
      r.delivered == m.delivered
    ensures actionIdentifier != DefaultActionIdentifier && categoryIdentifier in m.cache ==>
      var correct := decode(m.cache[categoryIdentifier].correctAnswer);
      r.delivered == m.delivered + [ResultContent(actionIdentifier == correct, actionIdentifier, correct)]
  {
    var flagged := m.(inResult := true);
    if actionIdentifier == DefaultActionIdentifier then flagged
    else
      var answered := match Verdict(m.cache, categoryIdentifier, actionIdentifier, decode)
        case Some(isCorrect) =>
          var correct := decode(m.cache[categoryIdentifier].correctAnswer);
          flagged.(delivered := m.delivered + [ResultContent(isCorrect, actionIdentifier, correct)])
        case None => flagged;
      answered.(pendingResets := m.pendingResets + 1)
  }

  /** The response handler with the flag set only once the response is
      known to be an answer: a click on the notification body then leaves
      the manager as it was, instead of setting a flag no reset clears. */
  function OnResponseCorrected(m: Manager, categoryIdentifier: string, actionIdentifier: string,
                               decode: string -> string): (r: Manager)
    ensures actionIdentifier == DefaultActionIdentifier ==> r == m
    ensures actionIdentifier != DefaultActionIdentifier ==>
      r == OnResponse(m, categoryIdentifier, actionIdentifier, decode)
  {
    if actionIdentifier == DefaultActionIdentifier then m
    else OnResponse(m, categoryIdentifier, actionIdentifier, decode)
  }

  /** The flag is set only while a reset is pending. */
  predicate ResetIsPending(m: Manager) {
    m.inResult ==> m.pendingResets > 0
  }

  /** With the corrected handler, every response keeps a reset pending
      while the flag is set; the source's handler does not after a click
      on the notification body. */
  lemma ResponseKeepsResetPending(m: Manager, categoryIdentifier: string, actionIdentifier: string,
                                  decode: string -> string)
    requires ResetIsPending(m)
    ensures ResetIsPending(OnResponseCorrected(m, categoryIdentifier, actionIdentifier, decode))
    ensures !m.inResult && actionIdentifier == DefaultActionIdentifier && m.pendingResets == 0 ==>
      !ResetIsPending(OnResponse(m, categoryIdentifier, actionIdentifier, decode))
  {
  }

  /** One scheduled reset runs: the flag is cleared, whatever responses
      came in since it was scheduled. */
  function OnResetTimer(m: Manager): (r: Manager)
    requires m.pendingResets > 0
    ensures !r.inResult && r.pendingResets == m.pendingResets - 1
    ensures r.cache == m.cache && r.categories == m.categories && r.delivered == m.delivered
  {
    m.(inResult := false, pendingResets := m.pendingResets - 1)
  }

  /** The process-wide question cache. */
  class TriviaCache {
    var questions: map<string, TriviaQuestion>

    constructor ()
      ensures questions == map[]
    {
      questions := map[];
    }

    /** Upsert by question text. */
    method Store(trivia: TriviaQuestion)
      modifies this
      ensures questions == old(questions)[trivia.question := trivia]
    {
      questions := questions[trivia.question := trivia];
    }

    method Question(key: string) returns (r: Option<TriviaQuestion>)
      ensures r == Lookup(questions, key)
    {
      r := Lookup(questions, key);
    }

    method Clear()
      modifies this
      ensures questions == map[]
    {
      questions := map[];
    }
  }

  class NotificationManager {
    var isInTriviaResultState: bool
    var categories: seq<Category>
    var delivered: seq<Content>
    var pendingResets: nat
    const cache: TriviaCache
    const decode: string -> string

    ghost function State(): Manager
      reads this, cache
    {
      Manager(isInTriviaResultState, cache.questions, categories, delivered, pendingResets)
    }

    constructor (cache: TriviaCache, decode: string -> string)
      ensures this.cache == cache && this.decode == decode
      ensures State() == Manager(false, cache.questions, [], [], 0)
    {
      this.cache := cache;
      this.decode := decode;
      isInTriviaResultState := false;
      categories := [];
      delivered := [];
      pendingResets := 0;
    }

    /** Replaces every registered category by the one for `trivia`. */
    method RegisterCategory(trivia: TriviaQuestion, order: seq<string>)
      modifies this
      ensures categories == [CategoryFor(trivia, order, decode)]
      ensures isInTriviaResultState == old(isInTriviaResultState)
      ensures delivered == old(delivered) && pendingResets == old(pendingResets)
    {
      categories := [CategoryFor(trivia, order, decode)];
    }

    /** `order` is what `shuffled()` returned for this call. */
    method SendTriviaNotification(trivia: TriviaQuestion, order: seq<string>)
      requires IsPermutation(order, trivia.AllAnswers())
      modifies this, cache
      ensures State() == OnSend(old(State()), trivia, order, decode)
    {
      if isInTriviaResultState {
        return;
      }
      cache.Store(trivia);
      var content := QuestionContent(trivia, decode);
      RegisterCategory(trivia, order);
      delivered := delivered + [content];
    }

    /** The question text is passed by the caller but not shown. */
    method SendResultNotification(isCorrect: bool, userAnswer: string, correctAnswer: string, question: string)
      modifies this
      ensures delivered == old(delivered) + [ResultContent(isCorrect, userAnswer, correctAnswer)]
      ensures isInTriviaResultState == old(isInTriviaResultState)
      ensures categories == old(categories) && pendingResets == old(pendingResets)
    {
      delivered := delivered + [ResultContent(isCorrect, userAnswer, correctAnswer)];
    }

    /** `didReceive`: the category identifier of the answered notification
        and the identifier of the chosen action. */
    method DidReceive(categoryIdentifier: string, actionIdentifier: string)
      modifies this
      ensures State() == OnResponse(old(State()), categoryIdentifier, actionIdentifier, decode)
    {
      isInTriviaResultState := true;
      if actionIdentifier == DefaultActionIdentifier {
        return;
      }
      var found := cache.Question(categoryIdentifier);
      if found.Some? {
        var correctAnswer := decode(found.value.correctAnswer);
        var isCorrect := actionIdentifier == correctAnswer;
        SendResultNotification(isCorrect, actionIdentifier, correctAnswer, decode(found.value.question));
      }
      pendingResets := pendingResets + 1;
    }

    /** The delayed closure that clears the result flag. */
    method ResetTimerFired()
      requires pendingResets > 0
      modifies this
      ensures State() == OnResetTimer(old(State()))
    {
      isInTriviaResultState := false;
      pendingResets := pendingResets - 1;
    }
  }

}
