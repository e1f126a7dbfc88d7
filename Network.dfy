/**
 The boundary to the network fetch. The HTTP request and the JSON decoding
 are not modelled; what the coordinator sees of a fetch is whether, and
 with which value, the published `triviaQuestion` property changes.
 */
module Network {

  import opened Wrappers
  import opened TriviaModels

  /** How one fetch ends. */
  datatype FetchOutcome =
    | TransportFailed                  // the data task failed
    | DecodeFailed                     // the body was not a TriviaResponse
    | Received(response: TriviaResponse)

  /** What the published property does when a fetch ends: nothing, or a
      new value (which is optional, as the property is). */
  datatype Publication = Silent | Emit(value: Option<TriviaQuestion>)

  /** The fetch as written: only a decoded envelope with at least one
      result publishes, and it publishes the first result; every other
      outcome leaves the property untouched. */
  function Publish(outcome: FetchOutcome): (p: Publication)
    ensures p.Emit? <==> outcome.Received? && |outcome.response.results| > 0
    ensures p.Emit? ==> p.value == Some(outcome.response.results[0])
  {
    match outcome
    case Received(response) =>
      if |response.results| > 0 then Emit(Some(response.results[0])) else Silent
    case _ => Silent
  }

  /** The fetch as evidently intended: every outcome publishes, a failed
      or empty one publishes nil, so that a subscriber always hears back. */
  function PublishCorrected(outcome: FetchOutcome): (p: Publication)
    ensures p.Emit?
    ensures Publish(outcome).Emit? ==> p == Publish(outcome)
    ensures Publish(outcome).Silent? ==> p.value.None?
  {
    match Publish(outcome)
    case Emit(v) => Emit(v)
    case Silent => Emit(None)
  }

}
