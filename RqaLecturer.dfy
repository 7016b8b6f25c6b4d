/**
 * The lecturer session page of the realtime-qa-generator app (30-second rounds). It shares
 * the round engine with the qwiz page but keeps no last results and no display clock, and
 * ends the session without asking for confirmation.
 */
module RqaLecturer {
  import opened Wrappers
  import opened Quiz
  import opened Sorting
  import opened RoundEngine
  import Countdown

  const ROUND_MS := 30000

  /** The one built-in draft question. */
  const SAMPLE_DRAFTS: seq<MCQ> := [
    MCQ("m1", "Which GCP service runs containers without servers?",
        [OptionItem("a", "Cloud Run"), OptionItem("b", "Compute Engine"),
         OptionItem("c", "Bare metal"), OptionItem("d", "Filestore")], "a")
  ]

  class LecturerSession {
    const code: string
    var drafts: seq<MCQ>
    var published: seq<MCQ>
    var top: seq<LeaderboardRow>
    var round: Round
    /** Events emitted on the bus, oldest first. */
    var sent: seq<BusEvent>
    /** Where the page navigated, if anywhere. */
    var route: Option<string>

    /** One answer per student, and the top list is ordered and at most ten rows. */
    ghost predicate Valid()
      reads this
    {
      UniqueStudents(round.answers) && SortedDesc(top, Score) && |top| <= TOP_SIZE
    }

    constructor(code: string)
      ensures Valid()
      ensures this.code == code && drafts == SAMPLE_DRAFTS && published == [] && top == []
      ensures round == NoRound && sent == [] && route == None
    {
      this.code := code;
      drafts := SAMPLE_DRAFTS;
      published := [];
      top := [];
      round := NoRound;
      sent := [];
      route := None;
    }

    /** The answer listener, subscribed only while the code is non-empty. */
    method OnBusEvent(e: BusEvent, now: int)
      requires Valid()
      modifies this
      ensures Valid()
      ensures code == "" ==> round == old(round)
      ensures code != "" ==> round == RecordAnswer(old(round), code, e, now)
      ensures drafts == old(drafts) && published == old(published) && top == old(top)
      ensures sent == old(sent) && route == old(route)
    {
      if code == "" {
        return;
      }
      RecordAnswerFirstWins(round, code, e, now);
      round := RecordAnswer(round, code, e, now);
    }

    /** Starts a round on `mcq` at time `now` and announces it without its correct option. */
    method Publish(mcq: MCQ, now: int)
      requires Valid()
      modifies this
      ensures Valid()
      ensures drafts == WithoutQuestion(old(drafts), mcq.mcqId)
      ensures published == [mcq] + old(published)
      ensures round == StartRound(mcq, now, ROUND_MS)
      ensures sent == old(sent) + [McqPublished(code, PublicView(mcq, now + ROUND_MS, ROUND_MS))]
      ensures top == old(top) && route == old(route)
    {
      drafts := WithoutQuestion(drafts, mcq.mcqId);
      published := [mcq] + published;
      var deadlineMs := now + ROUND_MS;
      round := Round(Some(mcq), deadlineMs, [], true);
      var publicMcq := PublicMCQ(mcq.mcqId, mcq.question, mcq.options, deadlineMs, ROUND_MS);
      sent := sent + [McqPublished(code, publicMcq)];
    }

    /**
     * The round-end timer: tallies the votes, merges the deltas into the top list and
     * announces both. Nothing stops it from scoring the same round again.
     */
    method FinishRound()
      requires Valid()
      modifies this
      ensures Valid()
      ensures old(round).mcq.None? ==> round == old(round) && top == old(top) && sent == old(sent)
      ensures old(round).mcq.Some? ==>
        var mcq := old(round).mcq.value;
        && round == old(round).(ticking := false)
        && top == TopRows(MergedScores(old(top), RoundDeltas(old(round), ROUND_MS)))
        && sent == old(sent) + [LeaderboardUpdate(code, top),
                                RoundResultsReady(code, RoundResults(mcq.mcqId, Counts(mcq.options, old(round).answers),
                                                                     mcq.correctOptionId, old(top)))]
      ensures drafts == old(drafts) && published == old(published) && route == old(route)
    {
      if round.mcq.None? {
        return;
      }
      var counts, sorted := ScoreRound(round, top, ROUND_MS);
      ScoreRoundKeepsBoard(round, top, ROUND_MS);
      CommitRound(counts, sorted);
    }

    /** The state changes of finishRound once the counts and the new list are computed. */
    method CommitRound(counts: seq<OptionCount>, sorted: seq<LeaderboardRow>)
      requires Valid() && round.mcq.Some? && SortedDesc(sorted, Score) && |sorted| <= TOP_SIZE
      modifies this
      ensures Valid()
      ensures round == old(round).(ticking := false) && top == sorted
      ensures sent == old(sent) + [LeaderboardUpdate(code, sorted),
                                   RoundResultsReady(code, RoundResults(old(round).mcq.value.mcqId, counts,
                                                                        old(round).mcq.value.correctOptionId, old(top)))]
      ensures drafts == old(drafts) && published == old(published) && route == old(route)
    {
      var mcq := round.mcq.value;
      var results := RoundResults(mcq.mcqId, counts, mcq.correctOptionId, top);
      sent := sent + [LeaderboardUpdate(code, sorted), RoundResultsReady(code, results)];
      top := sorted;
      round := round.(ticking := false);
    }

    /** Ends the session for everyone: exactly one `session_ended`, then back to the start page. */
    method EndSession()
      modifies this
      ensures sent == old(sent) + [SessionEnded(code)] && route == Some("/lecturer")
      ensures drafts == old(drafts) && published == old(published) && top == old(top) && round == old(round)
    {
      sent := sent + [SessionEnded(code)];
      route := Some("/lecturer");
    }

    /** The seconds the countdown shows when the page renders at time `now`. */
    function SecondsLeft(now: int): (s: nat)
      reads this
      ensures s == 0 <==> now >= round.deadlineMs
      ensures round.deadlineMs - now <= s * 1000 < round.deadlineMs - now + 1000 || s == 0
    {
      Countdown.SecondsLeft(round.deadlineMs, now)
    }
  }
}
