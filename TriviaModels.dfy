/**
 The records decoded from the trivia service: one question with its
 answers, and the envelope that carries a list of them.
 */
module TriviaModels {

  /** One multiple-choice question as the service sends it. The source's
      field `type` is called `kind` here, since `type` is a Dafny keyword.
      The per-read `UUID` id is not modelled. */
  datatype TriviaQuestion = TriviaQuestion(
    category: string,
    kind: string,
    difficulty: string,
    question: string,
    correctAnswer: string,
    incorrectAnswers: seq<string>)
  {
    /** The wrong answers in their original order, then the right one. */
    function AllAnswers(): (r: seq<string>)
      ensures |r| == |incorrectAnswers| + 1
      ensures r[..|incorrectAnswers|] == incorrectAnswers
      ensures r[|r| - 1] == correctAnswer
      ensures correctAnswer in r
      ensures forall a :: a in r <==> a == correctAnswer || a in incorrectAnswers
    {
      incorrectAnswers + [correctAnswer]
    }
  }

  /** The JSON envelope: a result code and the list of questions. */
  datatype TriviaResponse = TriviaResponse(responseCode: int, results: seq<TriviaQuestion>)

}
