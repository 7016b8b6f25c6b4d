/**
 * The shared event vocabulary of the quiz clients: questions as the lecturer holds them,
 * the public view sent to students, answers, round results, leaderboard rows and the
 * tagged union of bus events.
 */
module Quiz {

  datatype OptionItem = OptionItem(id: string, text: string)

  /** A question as the lecturer holds it, with its correct option. */
  datatype MCQ = MCQ(mcqId: string, question: string, options: seq<OptionItem>, correctOptionId: string)

  /** The question as published to students: no correct option, plus the round's timing. */
  datatype PublicMCQ = PublicMCQ(mcqId: string, question: string, options: seq<OptionItem>, deadlineMs: int, roundMs: int)

  datatype LeaderboardRow = LeaderboardRow(name: string, score: int)

  datatype OptionCount = OptionCount(optionId: string, count: int)

  datatype RoundResults = RoundResults(mcqId: string, counts: seq<OptionCount>, correctOptionId: string, top: seq<LeaderboardRow>)

  datatype Answer = Answer(student: string, optionId: string, respondedAtMs: int)

  /** Bus and socket messages, discriminated by their `type`; kinds the clients do not interpret are `OtherEvent`. */
  datatype BusEvent =
    | McqPublished(code: string, mcq: PublicMCQ)
    | AnswerSubmitted(code: string, student: string, mcqId: string, optionId: string, respondedAtMs: int)
    | LeaderboardUpdate(code: string, top: seq<LeaderboardRow>)
    | RoundResultsReady(code: string, results: RoundResults)
    | SessionEnded(code: string)
    | OtherEvent(kind: string, code: string)

  /** The sort key of a leaderboard row. */
  function Score(r: LeaderboardRow): int {
    r.score
  }

  /** The public view of a question: the same id, question and options, no correct option. */
  function PublicView(mcq: MCQ, deadlineMs: int, roundMs: int): (p: PublicMCQ)
    ensures p.mcqId == mcq.mcqId && p.question == mcq.question && p.options == mcq.options
    ensures p.deadlineMs == deadlineMs && p.roundMs == roundMs
  {
    PublicMCQ(mcq.mcqId, mcq.question, mcq.options, deadlineMs, roundMs)
  }
}
