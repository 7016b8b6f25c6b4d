/**
 * The lecturer session page of the qwiz app (15-second rounds): its state fields and the
 * handlers that change them. Bus emits are appended to `sent`; the round timer and the
 * one-second display tick are explicit method calls with the clock value as a parameter.
 */
module QwizLecturer {
  import opened Wrappers
  import opened Quiz
  import opened Sorting
  import opened RoundEngine
  import Countdown

  const ROUND_MS := 15000

  /** The one built-in draft question. */
  const SAMPLE_DRAFTS: seq<MCQ> := [
    MCQ("m1", "Which GCP service runs containers without servers?",
        [OptionItem("a", "Cloud Run"), OptionItem("b", "Compute Engine"),
         OptionItem("c", "Bare metal"), OptionItem("d", "Filestore")], "a")
  ]

  class LecturerSession {
    const code: string
    var drafts: seq<MCQ>
    var published: seq<MCQ>
    var top: seq<LeaderboardRow>
    var lastResults: Option<RoundResults>
    var round: Round
    /** The round record's `now`, refreshed by the display tick. */
    var clock: int
    /** Events emitted on the bus, oldest first. */
    var sent: seq<BusEvent>
    /** Where the page navigated, if anywhere. */
    var route: Option<string>

    /** One answer per student, and the top list is ordered and at most ten rows. */
    ghost predicate Valid()
      reads this
    {
      UniqueStudents(round.answers) && SortedDesc(top, Score) && |top| <= TOP_SIZE
    }

    constructor(code: string, now: int)
      ensures Valid()
      ensures this.code == code && drafts == SAMPLE_DRAFTS && published == [] && top == []
      ensures lastResults == None && round == NoRound && clock == now && sent == [] && route == None
    {
      this.code := code;
      drafts := SAMPLE_DRAFTS;
      published := [];
      top := [];
      lastResults := None;
      round := NoRound;
      clock := now;
      sent := [];
      route := None;
    }

    /** The bus listener, subscribed only while the code is non-empty. */
    method OnBusEvent(e: BusEvent, now: int)
      requires Valid()
      modifies this
      ensures Valid()
      ensures code == "" ==> round == old(round) && lastResults == old(lastResults)
      ensures code != "" ==> round == RecordAnswer(old(round), code, e, now)
      ensures code != "" && e.RoundResultsReady? && e.code == code ==> lastResults == Some(e.results)
      ensures !(e.RoundResultsReady? && e.code == code) ==> lastResults == old(lastResults)
      ensures drafts == old(drafts) && published == old(published) && top == old(top)
      ensures clock == old(clock) && sent == old(sent) && route == old(route)
    {
      if code == "" {
        return;
      }
      RecordAnswerFirstWins(round, code, e, now);
      round := RecordAnswer(round, code, e, now);
      if e.RoundResultsReady? && e.code == code {
        lastResults := Some(e.results);
      }
    }

    /** Starts a round on `mcq` at time `now` and announces it without its correct option. */
    method Publish(mcq: MCQ, now: int)
      requires Valid()
      modifies this
      ensures Valid()
      ensures drafts == WithoutQuestion(old(drafts), mcq.mcqId)
      ensures published == [mcq] + old(published)
      ensures lastResults == None
      ensures round == StartRound(mcq, now, ROUND_MS) && clock == now
      ensures sent == old(sent) + [McqPublished(code, PublicView(mcq, now + ROUND_MS, ROUND_MS))]
      ensures top == old(top) && route == old(route)
    {
      drafts := WithoutQuestion(drafts, mcq.mcqId);
      published := [mcq] + published;
      lastResults := None;
      var deadlineMs := now + ROUND_MS;
      round := Round(Some(mcq), deadlineMs, [], true);
      clock := now;
      var publicMcq := PublicMCQ(mcq.mcqId, mcq.question, mcq.options, deadlineMs, ROUND_MS);
      sent := sent + [McqPublished(code, publicMcq)];
    }

    /**
     * The round-end timer: tallies the votes, merges the deltas into the top list and
     * announces both. Nothing stops it from scoring the same round again.
     */
    method FinishRound()
      requires Valid()
      modifies this
      ensures Valid()
      ensures old(round).mcq.None? ==> round == old(round) && top == old(top) && sent == old(sent)
      ensures old(round).mcq.Some? ==>
        var mcq := old(round).mcq.value;
        && round == old(round).(ticking := false)
        && top == TopRows(MergedScores(old(top), RoundDeltas(old(round), ROUND_MS)))
        && sent == old(sent) + [LeaderboardUpdate(code, top),
                                RoundResultsReady(code, RoundResults(mcq.mcqId, Counts(mcq.options, old(round).answers),
                                                                     mcq.correctOptionId, old(top)))]
      ensures drafts == old(drafts) && published == old(published) && lastResults == old(lastResults)
      ensures clock == old(clock) && route == old(route)
    {
      if round.mcq.None? {
        return;
      }
      var counts, sorted := ScoreRound(round, top, ROUND_MS);
      ScoreRoundKeepsBoard(round, top, ROUND_MS);
      CommitRound(counts, sorted);
    }

    /** The state changes of finishRound once the counts and the new list are computed. */
    method CommitRound(counts: seq<OptionCount>, sorted: seq<LeaderboardRow>)
      requires Valid() && round.mcq.Some? && SortedDesc(sorted, Score) && |sorted| <= TOP_SIZE
      modifies this
      ensures Valid()
      ensures round == old(round).(ticking := false) && top == sorted
      ensures sent == old(sent) + [LeaderboardUpdate(code, sorted),
                                   RoundResultsReady(code, RoundResults(old(round).mcq.value.mcqId, counts,
                                                                        old(round).mcq.value.correctOptionId, old(top)))]
      ensures drafts == old(drafts) && published == old(published) && route == old(route) && lastResults == old(lastResults)
        && clock == old(clock)
    {
      var mcq := round.mcq.value;
      var results := RoundResults(mcq.mcqId, counts, mcq.correctOptionId, top);
      sent := sent + [LeaderboardUpdate(code, sorted), RoundResultsReady(code, results)];
      top := sorted;
      round := round.(ticking := false);
    }

    /** Ends the session for everyone, if the lecturer confirms. */
    method EndSession(confirmed: bool)
      modifies this
      ensures !confirmed ==> sent == old(sent) && route == old(route)
      ensures confirmed ==> sent == old(sent) + [SessionEnded(code)] && route == Some("/lecturer")
      ensures drafts == old(drafts) && published == old(published) && top == old(top)
      ensures lastResults == old(lastResults) && round == old(round) && clock == old(clock)
    {
      if !confirmed {
        return;
      }
      sent := sent + [SessionEnded(code)];
      route := Some("/lecturer");
    }

    /** The one-second display tick; the interval exists only while the round is ticking. */
    method Tick(now: int)
      modifies this
      ensures clock == if old(round).ticking then now else old(clock)
      ensures drafts == old(drafts) && published == old(published) && top == old(top)
      ensures lastResults == old(lastResults) && round == old(round) && sent == old(sent) && route == old(route)
    {
      if round.ticking {
        clock := now;
      }
    }

    /** Publishes the first draft, unless a round is ticking or no draft is left. */
    method StartNextDraft(now: int)
      requires Valid()
      modifies this
      ensures Valid()
      ensures old(round).ticking || old(drafts) == [] ==>
        && drafts == old(drafts) && published == old(published) && round == old(round) && sent == old(sent)
        && lastResults == old(lastResults) && clock == old(clock)
      ensures !old(round).ticking && old(drafts) != [] ==>
        var mcq := old(drafts)[0];
        && drafts == WithoutQuestion(old(drafts), mcq.mcqId)
        && published == [mcq] + old(published)
        && round == StartRound(mcq, now, ROUND_MS)
        && sent == old(sent) + [McqPublished(code, PublicView(mcq, now + ROUND_MS, ROUND_MS))]
        && lastResults == None && clock == now
      ensures top == old(top) && route == old(route)
    {
      if round.ticking {
        return;
      }
      if |drafts| > 0 {
        Publish(drafts[0], now);
      }
    }

    /** The seconds the countdown shows. */
    function SecondsLeft(): (s: nat)
      reads this
      ensures s == 0 <==> clock >= round.deadlineMs
      ensures round.deadlineMs - clock <= s * 1000 < round.deadlineMs - clock + 1000 || s == 0
    {
      Countdown.SecondsLeft(round.deadlineMs, clock)
    }

    /** Right after a publish the countdown shows the whole round. */
    lemma PublishShowsFullRound()
      requires round.deadlineMs == clock + ROUND_MS
      ensures SecondsLeft() == ROUND_MS / 1000
    {
    }
  }
}
