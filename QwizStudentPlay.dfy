/**
 * The student play page of the qwiz app: the socket message handler, the countdown
 * intervals it starts, and the one-shot answer submission. The socket is open while the
 * stored session code is non-empty; what the page sends is appended to `sent`.
 */
module QwizStudentPlay {
  import opened Wrappers
  import opened Quiz
  import Countdown

  const OVERLAY_MS := 3500

  /** JavaScript truthiness of `picked`: a chosen, non-empty option id. */
  predicate Truthy(picked: Option<string>) {
    picked.Some? && picked.value != ""
  }

  class PlaySession {
    const code: string
    const name: string
    var current: Option<PublicMCQ>
    var picked: Option<string>
    var secondsLeft: nat
    var results: Option<RoundResults>
    var top: seq<LeaderboardRow>
    var showFullLB: bool
    /** The deadlines of the countdown intervals still running, in start order. */
    var countdowns: seq<int>
    /** Messages sent on the socket, oldest first. */
    var sent: seq<BusEvent>

    constructor(code: string, name: string)
      ensures this.code == code && this.name == name
      ensures current == None && picked == None && secondsLeft == 0 && results == None
      ensures top == [] && !showFullLB && countdowns == [] && sent == []
    {
      this.code := code;
      this.name := name;
      current := None;
      picked := None;
      secondsLeft := 0;
      results := None;
      top := [];
      showFullLB := false;
      countdowns := [];
      sent := [];
    }

    /**
     * `tickCountdown`'s first `update()`: shows the seconds left and keeps an interval only
     * while time remains. With no time left the first update reaches `clearInterval(id)`
     * before `id` is bound; the error ends the call before any interval is created.
     */
    method StartCountdown(deadlineMs: int, now: int)
      modifies this
      ensures secondsLeft == Countdown.SecondsLeft(deadlineMs, now)
      ensures countdowns == if now < deadlineMs then old(countdowns) + [deadlineMs] else old(countdowns)
      ensures current == old(current) && picked == old(picked) && results == old(results)
      ensures top == old(top) && showFullLB == old(showFullLB) && sent == old(sent)
    {
      var remaining := Countdown.Remaining(deadlineMs, now);
      secondsLeft := Countdown.SecondsLeft(deadlineMs, now);
      if remaining > 0 {
        countdowns := countdowns + [deadlineMs];
      }
    }

    /** One firing of the `k`-th running countdown interval at time `now`; it stops itself once time is up. */
    method IntervalFires(k: nat, now: int)
      modifies this
      ensures k >= |old(countdowns)| ==> secondsLeft == old(secondsLeft) && countdowns == old(countdowns)
      ensures k < |old(countdowns)| ==>
        && secondsLeft == Countdown.SecondsLeft(old(countdowns)[k], now)
        && countdowns == if now < old(countdowns)[k] then old(countdowns)
                         else old(countdowns)[..k] + old(countdowns)[k + 1..]
      ensures current == old(current) && picked == old(picked) && results == old(results)
      ensures top == old(top) && showFullLB == old(showFullLB) && sent == old(sent)
    {
      if k >= |countdowns| {
        return;
      }
      var deadlineMs := countdowns[k];
      var remaining := Countdown.Remaining(deadlineMs, now);
      secondsLeft := Countdown.SecondsLeft(deadlineMs, now);
      if remaining <= 0 {
        countdowns := countdowns[..k] + countdowns[k + 1..];
      }
    }

    /** `ws.onmessage`; this page acts on every message of the four kinds, whatever its code. */
    method OnMessage(e: BusEvent, now: int)
      modifies this
      ensures code == "" || e.OtherEvent? || e.AnswerSubmitted? ==>
        current == old(current) && picked == old(picked) && results == old(results) && top == old(top)
        && showFullLB == old(showFullLB) && secondsLeft == old(secondsLeft) && countdowns == old(countdowns)
      ensures code != "" && e.McqPublished? ==>
        && current == Some(e.mcq) && picked == None && results == None && !showFullLB
        && secondsLeft == Countdown.SecondsLeft(e.mcq.deadlineMs, now)
        && countdowns == (if now < e.mcq.deadlineMs then old(countdowns) + [e.mcq.deadlineMs] else old(countdowns))
        && top == old(top)
      ensures code != "" && e.RoundResultsReady? ==>
        && results == Some(e.results) && current == None && secondsLeft == 0 && showFullLB
        && picked == old(picked) && top == old(top) && countdowns == old(countdowns)
      ensures code != "" && e.LeaderboardUpdate? ==>
        && top == e.top
        && current == old(current) && picked == old(picked) && results == old(results)
        && showFullLB == old(showFullLB) && secondsLeft == old(secondsLeft) && countdowns == old(countdowns)
      ensures code != "" && e.SessionEnded? ==>
        && current == None && results == None && !showFullLB
        && picked == old(picked) && top == old(top) && secondsLeft == old(secondsLeft) && countdowns == old(countdowns)
      ensures sent == old(sent)
    {
      if code == "" {
        return;
      }
      match e
      case McqPublished(_, mcq) =>
        current := Some(mcq);
        picked := None;
        results := None;
        showFullLB := false;
        StartCountdown(mcq.deadlineMs, now);
      case RoundResultsReady(_, res) =>
        results := Some(res);
        current := None;
        secondsLeft := 0;
        showFullLB := true;
      case LeaderboardUpdate(_, rows) =>
        top := rows;
      case SessionEnded(_) =>
        current := None;
        results := None;
        showFullLB := false;
      case _ =>
    }

    /** The overlay timer, the overlay's close buttons and its backdrop. */
    method HideOverlay()
      modifies this
      ensures !showFullLB
      ensures current == old(current) && picked == old(picked) && results == old(results) && top == old(top)
      ensures secondsLeft == old(secondsLeft) && countdowns == old(countdowns) && sent == old(sent)
    {
      showFullLB := false;
    }

    /** The button that opens the full leaderboard overlay. */
    method ShowOverlay()
      modifies this
      ensures showFullLB
      ensures current == old(current) && picked == old(picked) && results == old(results) && top == old(top)
      ensures secondsLeft == old(secondsLeft) && countdowns == old(countdowns) && sent == old(sent)
    {
      showFullLB := true;
    }

    /** Answers the current question with `optionId` at time `now`, at most once per question. */
    method Submit(optionId: string, now: int)
      modifies this
      ensures old(current).None? || Truthy(old(picked)) || old(secondsLeft) == 0 ==>
        picked == old(picked) && sent == old(sent)
      ensures old(current).Some? && !Truthy(old(picked)) && old(secondsLeft) > 0 ==>
        && picked == Some(optionId)
        && sent == if code == "" then old(sent)
                   else old(sent) + [AnswerSubmitted(code, name, old(current).value.mcqId, optionId, now)]
      ensures current == old(current) && results == old(results) && top == old(top) && showFullLB == old(showFullLB)
      ensures secondsLeft == old(secondsLeft) && countdowns == old(countdowns)
    {
      if current.None? || Truthy(picked) || secondsLeft <= 0 {
        return;
      }
      picked := Some(optionId);
      // The socket exists only once a session code was loaded.
      if code != "" {
        sent := sent + [AnswerSubmitted(code, name, current.value.mcqId, optionId, now)];
      }
    }
  }
}
