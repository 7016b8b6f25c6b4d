/**
 * The student play page of the realtime-qa-generator app: a bus listener filtered on the
 * stored session code, the countdown intervals, and the one-shot answer submission.
 * Emitted events are appended to `sent`.
 */
module RqaStudentPlay {
  import opened Wrappers
  import opened Quiz
  import Countdown

  /** JavaScript truthiness of `picked`: a chosen, non-empty option id. */
  predicate Truthy(picked: Option<string>) {
    picked.Some? && picked.value != ""
  }

  class PlaySession {
    const code: string
    const name: string
    var current: Option<PublicMCQ>
    var picked: Option<string>
    var secondsLeft: nat
    var results: Option<RoundResults>
    var top: seq<LeaderboardRow>
    /** The deadlines of the countdown intervals still running, in start order. */
    var countdowns: seq<int>
    /** Events emitted on the bus, oldest first. */
    var sent: seq<BusEvent>

    constructor(code: string, name: string)
      ensures this.code == code && this.name == name
      ensures current == None && picked == None && secondsLeft == 0 && results == None
      ensures top == [] && countdowns == [] && sent == []
    {
      this.code := code;
      this.name := name;
      current := None;
      picked := None;
      secondsLeft := 0;
      results := None;
      top := [];
      countdowns := [];
      sent := [];
    }

    /**
     * `tickCountdown`'s first `update()`; as on the qwiz page, with no time left the call
     * fails at `clearInterval(id)` before an interval exists.
     */
    method StartCountdown(deadlineMs: int, now: int)
      modifies this
      ensures secondsLeft == Countdown.SecondsLeft(deadlineMs, now)
      ensures countdowns == if now < deadlineMs then old(countdowns) + [deadlineMs] else old(countdowns)
      ensures current == old(current) && picked == old(picked) && results == old(results)
      ensures top == old(top) && sent == old(sent)
    {
      var ms := Countdown.Remaining(deadlineMs, now);
      secondsLeft := Countdown.SecondsLeft(deadlineMs, now);
      if ms > 0 {
        countdowns := countdowns + [deadlineMs];
      }
    }

    /** One firing of the `k`-th running countdown interval at time `now`. */
    method IntervalFires(k: nat, now: int)
      modifies this
      ensures k >= |old(countdowns)| ==> secondsLeft == old(secondsLeft) && countdowns == old(countdowns)
      ensures k < |old(countdowns)| ==>
        && secondsLeft == Countdown.SecondsLeft(old(countdowns)[k], now)
        && countdowns == if now < old(countdowns)[k] then old(countdowns)
                         else old(countdowns)[..k] + old(countdowns)[k + 1..]
      ensures current == old(current) && picked == old(picked) && results == old(results)
      ensures top == old(top) && sent == old(sent)
    {
      if k >= |countdowns| {
        return;
      }
      var deadlineMs := countdowns[k];
      var ms := Countdown.Remaining(deadlineMs, now);
      secondsLeft := Countdown.SecondsLeft(deadlineMs, now);
      if ms <= 0 {
        countdowns := countdowns[..k] + countdowns[k + 1..];
      }
    }

    /** The bus listener, subscribed only while the code is non-empty; other sessions' events change nothing. */
    method OnBusEvent(e: BusEvent, now: int)
      modifies this
      ensures code == "" || e.code != code || e.OtherEvent? || e.AnswerSubmitted? ==>
        current == old(current) && picked == old(picked) && results == old(results) && top == old(top)
        && secondsLeft == old(secondsLeft) && countdowns == old(countdowns)
      ensures code != "" && e.McqPublished? && e.code == code ==>
        && current == Some(e.mcq) && picked == None && results == None
        && secondsLeft == Countdown.SecondsLeft(e.mcq.deadlineMs, now)
        && countdowns == (if now < e.mcq.deadlineMs then old(countdowns) + [e.mcq.deadlineMs] else old(countdowns))
        && top == old(top)
      ensures code != "" && e.RoundResultsReady? && e.code == code ==>
        && results == Some(e.results) && current == None
        && picked == old(picked) && top == old(top) && secondsLeft == old(secondsLeft) && countdowns == old(countdowns)
      ensures code != "" && e.LeaderboardUpdate? && e.code == code ==>
        && top == e.top
        && current == old(current) && picked == old(picked) && results == old(results)
        && secondsLeft == old(secondsLeft) && countdowns == old(countdowns)
      ensures code != "" && e.SessionEnded? && e.code == code ==>
        && current == None && results == None
        && picked == old(picked) && top == old(top) && secondsLeft == old(secondsLeft) && countdowns == old(countdowns)
      ensures sent == old(sent)
    {
      if code == "" || e.code != code {
        return;
      }
      match e
      case McqPublished(_, mcq) =>
        current := Some(mcq);
        picked := None;
        results := None;
        StartCountdown(mcq.deadlineMs, now);
      case RoundResultsReady(_, res) =>
        results := Some(res);
        current := None;
      case LeaderboardUpdate(_, rows) =>
        top := rows;
      case SessionEnded(_) =>
        current := None;
        results := None;
      case _ =>
    }

    /** Answers the current question with `optionId` at time `now`, at most once per question. */
    method Submit(optionId: string, now: int)
      modifies this
      ensures old(current).None? || Truthy(old(picked)) || old(secondsLeft) == 0 ==>
        picked == old(picked) && sent == old(sent)
      ensures old(current).Some? && !Truthy(old(picked)) && old(secondsLeft) > 0 ==>
        && picked == Some(optionId)
        && sent == old(sent) + [AnswerSubmitted(code, name, old(current).value.mcqId, optionId, now)]
      ensures current == old(current) && results == old(results) && top == old(top)
      ensures secondsLeft == old(secondsLeft) && countdowns == old(countdowns)
    {
      if current.None? || Truthy(picked) || secondsLeft <= 0 {
        return;
      }
      picked := Some(optionId);
      sent := sent + [AnswerSubmitted(code, name, current.value.mcqId, optionId, now)];
    }
  }
}
