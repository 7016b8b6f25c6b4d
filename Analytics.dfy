/**
 * The backend's in-memory session analytics: who is active in each session, per-session
 * counters, and a score record per student, kept in insertion order because the leaderboard's
 * stable sort keeps equal scores in that order. Messages the service broadcasts are appended
 * to `broadcasts`; their floating-point averages and percentages are left out.
 */
module Analytics {
  import opened Wrappers
  import opened OrderedMaps
  import opened Sorting
  import FirestoreValues

  const BASE_POINTS := 100
  const SPEED_BONUS_MAX := 50
  const DEFAULT_LIMIT := 10
  const FINAL_LIMIT := 100
  const PODIUM_SIZE := 3

  /** A student's running totals. */
  datatype ScoreRecord = ScoreRecord(score: int, correctAnswers: int, totalAnswers: int, totalResponseTime: int)

  const ZERO_RECORD := ScoreRecord(0, 0, 0, 0)

  /** A session's counters; a key Python has not created yet reads as 0. */
  datatype SessionStats = SessionStats(questions: int, answers: int, totalResponseTime: int, correctAnswers: int)

  const ZERO_STATS := SessionStats(0, 0, 0, 0)

  /** One leaderboard row (its average response time is left out). */
  datatype StudentScore = StudentScore(studentId: string, score: int, correctAnswers: int, totalAnswers: int)

  /** The integer part of the analytics summary. */
  datatype Summary = Summary(sessionId: string, activeStudents: nat, totalQuestions: int, totalAnswers: int)

  /** The end-of-session results (the duration is left out). */
  datatype SessionEnd = SessionEnd(sessionId: string, topThree: seq<StudentScore>, totalParticipants: nat,
                                   totalQuestions: int, strugglingStudents: seq<StudentScore>)

  datatype Message =
    | AnalyticsUpdate(analytics: Summary)
    | LeaderboardUpdate(sessionId: string, students: seq<StudentScore>)
    | SessionEnded(results: SessionEnd)

  // ----- scoring one answer -----

  /** `response_time_ms` is truthy: present and non-zero. */
  predicate HasTime(rt: Option<int>) {
    rt.Some? && rt.value != 0
  }

  /** `100 + max(0, 50 - rt // 100)` when the time is truthy, 100 otherwise, and nothing for a wrong answer. */
  function Points(isCorrect: bool, rt: Option<int>): (p: int)
    ensures !isCorrect ==> p == 0
    ensures isCorrect ==> p >= BASE_POINTS
    ensures isCorrect && !HasTime(rt) ==> p == BASE_POINTS
    ensures isCorrect && HasTime(rt) && rt.value >= 0 ==> p <= BASE_POINTS + SPEED_BONUS_MAX
    ensures isCorrect && HasTime(rt) && rt.value >= 100 * SPEED_BONUS_MAX ==> p == BASE_POINTS
  {
    if !isCorrect then 0
    else if HasTime(rt) then
      var late := SPEED_BONUS_MAX - rt.value / 100;
      BASE_POINTS + (if late > 0 then late else 0)
    else BASE_POINTS
  }

  /** A faster correct answer never earns fewer points. */
  lemma PointsFasterNotFewer(a: int, b: int)
    requires 0 < a <= b
    ensures Points(true, Some(a)) >= Points(true, Some(b))
  {
    assert a / 100 <= b / 100 by {
      DivMonotone(a, b);
    }
  }

  lemma DivMonotone(a: int, b: int)
    requires 0 <= a <= b
    ensures a / 100 <= b / 100
  {
  }

  /** A negative time is truthy and makes the bonus exceed its nominal maximum. */
  lemma NegativeTimeOverpays()
    ensures Points(true, Some(-1000)) == BASE_POINTS + SPEED_BONUS_MAX + 10
  {
  }

  /** The student's record after one answer. */
  function Answered(r: ScoreRecord, isCorrect: bool, rt: Option<int>): (r': ScoreRecord)
    ensures r'.totalAnswers == r.totalAnswers + 1
    ensures r'.correctAnswers == r.correctAnswers + (if isCorrect then 1 else 0)
    ensures r'.score == r.score + Points(isCorrect, rt)
    ensures r'.totalResponseTime == r.totalResponseTime + (if HasTime(rt) then rt.value else 0)
  {
    var r1 := r.(totalAnswers := r.totalAnswers + 1);
    var r2 := if isCorrect then r1.(correctAnswers := r1.correctAnswers + 1, score := r1.score + Points(true, rt)) else r1;
    if HasTime(rt) then r2.(totalResponseTime := r2.totalResponseTime + rt.value) else r2
  }

  /** A session's counters after one answer. */
  function StatsAfterAnswer(st: SessionStats, isCorrect: bool, rt: Option<int>): (st': SessionStats)
    ensures st'.questions == st.questions
    ensures st'.answers == st.answers + 1
    ensures st'.correctAnswers == st.correctAnswers + (if isCorrect then 1 else 0)
    ensures st'.totalResponseTime == st.totalResponseTime + (if HasTime(rt) then rt.value else 0)
  {
    var st1 := st.(answers := st.answers + 1);
    var st2 := if isCorrect then st1.(correctAnswers := st1.correctAnswers + 1) else st1;
    if HasTime(rt) then st2.(totalResponseTime := st2.totalResponseTime + rt.value) else st2
  }

  /** Correct answers never exceed answers, and every correct answer is worth at least the base points. */
  predicate RecordOk(r: ScoreRecord) {
    0 <= r.correctAnswers <= r.totalAnswers && r.score >= BASE_POINTS * r.correctAnswers
  }

  lemma AnsweredKeepsRecordOk(r: ScoreRecord, isCorrect: bool, rt: Option<int>)
    requires RecordOk(r)
    ensures RecordOk(Answered(r, isCorrect, rt))
  {
  }

  // ----- the leaderboard -----

  function Row(e: (string, ScoreRecord)): StudentScore {
    StudentScore(e.0, e.1.score, e.1.correctAnswers, e.1.totalAnswers)
  }

  function Rows(recs: seq<(string, ScoreRecord)>): (r: seq<StudentScore>)
    ensures |r| == |recs| && forall i :: 0 <= i < |recs| ==> r[i] == Row(recs[i])
  {
    seq(|recs|, i requires 0 <= i < |recs| => Row(recs[i]))
  }

  function ScoreOf(s: StudentScore): int {
    s.score
  }

  /** Python's `s[:limit]`: a negative limit drops that many from the end. */
  function PyPrefix<T>(s: seq<T>, limit: int): (r: seq<T>)
    ensures |r| <= |s| && r == s[..|r|]
    ensures limit >= 0 ==> |r| == if |s| < limit then |s| else limit
    ensures limit < 0 ==> |r| == if |s| + limit < 0 then 0 else |s| + limit
  {
    if limit >= 0 then Take(s, limit)
    else if |s| + limit < 0 then []
    else s[..|s| + limit]
  }

  /** `get_leaderboard` over a session's records. */
  function Leaderboard(recs: seq<(string, ScoreRecord)>, limit: int): seq<StudentScore> {
    PyPrefix(SortDesc(Rows(recs), ScoreOf), limit)
  }

  /**
   * The leaderboard is ordered by score, highest first, holds at most `limit` rows (all of
   * them when there are fewer), each a student's row, and every student left off scores no
   * higher than every student on it. Equal scores keep the records' order, so a tie at the
   * cut keeps the students recorded first.
   */
  lemma LeaderboardIsTop(recs: seq<(string, ScoreRecord)>, limit: nat)
    ensures SortedDesc(Leaderboard(recs, limit), ScoreOf)
    ensures |Leaderboard(recs, limit)| == if |recs| < limit then |recs| else limit
    ensures multiset(Leaderboard(recs, limit)) <= multiset(Rows(recs))
    ensures forall y :: y in multiset(Rows(recs)) - multiset(Leaderboard(recs, limit)) ==>
              forall x :: x in Leaderboard(recs, limit) ==> x.score >= y.score
    ensures forall k :: WithKey(Leaderboard(recs, limit), ScoreOf, k) <= WithKey(Rows(recs), ScoreOf, k)
  {
    TopIsHighest(Rows(recs), ScoreOf, limit);
    assert Leaderboard(recs, limit) == Take(SortDesc(Rows(recs), ScoreOf), limit);
  }

  // ----- the struggling list -----

  /** `correct / total < 0.5` with a positive total, in integers. */
  predicate IsStruggling(s: StudentScore) {
    s.totalAnswers > 0 && 2 * s.correctAnswers < s.totalAnswers
  }

  function Struggling(s: seq<StudentScore>): seq<StudentScore> {
    if s == [] then []
    else Struggling(s[..|s| - 1]) + (if IsStruggling(s[|s| - 1]) then [s[|s| - 1]] else [])
  }

  /** The struggling list holds exactly the struggling students, in their leaderboard order. */
  lemma {:induction false} StrugglingMembers(s: seq<StudentScore>, x: StudentScore)
    ensures x in Struggling(s) <==> x in s && IsStruggling(x)
  {
    if s != [] {
      StrugglingMembers(s[..|s| - 1], x);
      assert s == s[..|s| - 1] + [s[|s| - 1]];
    }
  }

  /** The loop of `end_session` that collects the struggling students. */
  method StrugglingStudents(students: seq<StudentScore>) returns (r: seq<StudentScore>)
    ensures r == Struggling(students)
  {
    r := [];
    var i := 0;
    while i < |students|
      invariant 0 <= i <= |students|
      invariant r == Struggling(students[..i])
    {
      assert students[..i + 1][..i] == students[..i];
      if IsStruggling(students[i]) {
        r := r + [students[i]];
      }
      i := i + 1;
    }
    assert students[..i] == students;
  }

  // ----- the service -----

  /**
   * Every active student has a record, each student has one record, and no record claims
   * more correct answers than answers.
   */
  ghost predicate SessionOk(active: set<string>, recs: seq<(string, ScoreRecord)>) {
    && active <= KeySet(recs)
    && DistinctKeys(recs)
    && forall i :: 0 <= i < |recs| ==> RecordOk(recs[i].1)
  }

  lemma JoinKeepsSessionOk(active: set<string>, recs: seq<(string, ScoreRecord)>, id: string)
    requires SessionOk(active, recs)
    ensures SessionOk(active + {id}, if id in KeySet(recs) then recs else recs + [(id, ZERO_RECORD)])
  {
    if id !in KeySet(recs) {
      PutKeepsOthers(recs, id, ZERO_RECORD);
    }
  }

  lemma AnswerKeepsSessionOk(active: set<string>, recs: seq<(string, ScoreRecord)>, id: string,
                             isCorrect: bool, rt: Option<int>)
    requires SessionOk(active, recs) && id in KeySet(recs)
    ensures Get(recs, id).Some?
    ensures SessionOk(active, Put(recs, id, Answered(Get(recs, id).value, isCorrect, rt)))
  {
    var r := Get(recs, id).value;
    RecordAt(recs, id);
    AnsweredKeepsRecordOk(r, isCorrect, rt);
    PutKeepsOthers(recs, id, Answered(r, isCorrect, rt));
    PutAt(recs, id, Answered(r, isCorrect, rt));
  }

  /** A session is tracked in both maps or in neither, and each tracked session is consistent. */
  ghost predicate AllSessionsOk(active: map<string, set<string>>, scores: map<string, seq<(string, ScoreRecord)>>) {
    && active.Keys == scores.Keys
    && forall s :: s in scores ==> SessionOk(active[s], scores[s])
  }

  /** Replacing one session by a consistent one keeps every session consistent. */
  lemma AllSessionsOkUpdate(active: map<string, set<string>>, scores: map<string, seq<(string, ScoreRecord)>>,
                            s: string, a: set<string>, r: seq<(string, ScoreRecord)>)
    requires AllSessionsOk(active, scores) && SessionOk(a, r)
    ensures AllSessionsOk(active[s := a], scores[s := r])
  {
    var active', scores' := active[s := a], scores[s := r];
    forall t | t in scores' ensures SessionOk(active'[t], scores'[t]) {
      if t != s {
        assert t in scores;
      }
    }
  }

  function ActiveIn(m: map<string, set<string>>, s: string): set<string> {
    if s in m then m[s] else {}
  }

  function RecordsIn(m: map<string, seq<(string, ScoreRecord)>>, s: string): seq<(string, ScoreRecord)> {
    if s in m then m[s] else []
  }

  function StatsIn(m: map<string, SessionStats>, s: string): SessionStats {
    if s in m then m[s] else ZERO_STATS
  }

  class AnalyticsService {
    var activeStudents: map<string, set<string>>
    var sessionStats: map<string, SessionStats>
    var studentScores: map<string, seq<(string, ScoreRecord)>>
    /** Messages broadcast, each with its session id, oldest first. */
    var broadcasts: seq<(string, Message)>

    /** A session is tracked in both maps or in neither, and each tracked session is consistent. */
    ghost predicate Valid()
      reads this
    {
      AllSessionsOk(activeStudents, studentScores)
    }

    constructor()
      ensures Valid()
      ensures activeStudents == map[] && sessionStats == map[] && studentScores == map[] && broadcasts == []
    {
      activeStudents := map[];
      sessionStats := map[];
      studentScores := map[];
      broadcasts := [];
    }

    /** `get_session_analytics` without its averages. */
    function SessionSummary(s: string): (r: Summary)
      reads this
      ensures r.activeStudents == |ActiveIn(activeStudents, s)|
      ensures r.totalQuestions == StatsIn(sessionStats, s).questions
      ensures r.totalAnswers == StatsIn(sessionStats, s).answers
    {
      var stats := StatsIn(sessionStats, s);
      Summary(s, |ActiveIn(activeStudents, s)|, stats.questions, stats.answers)
    }

    /**
     * `track_student_join`: the student becomes active, and gets a zeroed record only if it
     * has none, so rejoining keeps the score.
     */
    method TrackStudentJoin(s: string, id: string)
      requires Valid()
      modifies this
      ensures Valid()
      ensures activeStudents == old(activeStudents)[s := ActiveIn(old(activeStudents), s) + {id}]
      ensures var recs := RecordsIn(old(studentScores), s);
        studentScores == old(studentScores)[s := if id in KeySet(recs) then recs else recs + [(id, ZERO_RECORD)]]
      ensures Get(studentScores[s], id) ==
        if id in KeySet(RecordsIn(old(studentScores), s)) then Get(RecordsIn(old(studentScores), s), id) else Some(ZERO_RECORD)
      ensures sessionStats == old(sessionStats)
      ensures broadcasts == old(broadcasts) + [(s, AnalyticsUpdate(SessionSummary(s)))]
    {
      var active, recs := ActiveIn(activeStudents, s), RecordsIn(studentScores, s);
      JoinKeepsSessionOk(active, recs, id);
      var recs' := recs;
      if id !in KeySet(recs) {
        recs' := recs + [(id, ZERO_RECORD)];
        assert recs' == Put(recs, id, ZERO_RECORD);
      }
      SetSession(s, active + {id}, recs');
      broadcasts := broadcasts + [(s, AnalyticsUpdate(SessionSummary(s)))];
    }

    /** Replaces one session's active set and records by consistent ones. */
    method SetSession(s: string, active: set<string>, recs: seq<(string, ScoreRecord)>)
      requires Valid() && SessionOk(active, recs)
      modifies this
      ensures Valid()
      ensures activeStudents == old(activeStudents)[s := active] && studentScores == old(studentScores)[s := recs]
      ensures sessionStats == old(sessionStats) && broadcasts == old(broadcasts)
    {
      AllSessionsOkUpdate(activeStudents, studentScores, s, active, recs);
      activeStudents := activeStudents[s := active];
      studentScores := studentScores[s := recs];
    }

    /** `track_student_leave`: the student stops being active, and keeps its record. */
    method TrackStudentLeave(s: string, id: string)
      requires Valid()
      modifies this
      ensures Valid()
      ensures s in old(activeStudents) ==> activeStudents == old(activeStudents)[s := old(activeStudents)[s] - {id}]
      ensures s !in old(activeStudents) ==> activeStudents == old(activeStudents)
      ensures studentScores == old(studentScores) && sessionStats == old(sessionStats)
      ensures broadcasts == old(broadcasts) + [(s, AnalyticsUpdate(SessionSummary(s)))]
    {
      if s in activeStudents {
        activeStudents := activeStudents[s := activeStudents[s] - {id}];
      }
      broadcasts := broadcasts + [(s, AnalyticsUpdate(SessionSummary(s)))];
    }

    /** `track_question_generated`: the session's question counter goes up by one. */
    method TrackQuestionGenerated(s: string, questionId: string)
      requires Valid()
      modifies this
      ensures Valid()
      ensures var st := StatsIn(old(sessionStats), s);
        sessionStats == old(sessionStats)[s := st.(questions := st.questions + 1)]
      ensures activeStudents == old(activeStudents) && studentScores == old(studentScores)
      ensures broadcasts == old(broadcasts) + [(s, AnalyticsUpdate(SessionSummary(s)))]
    {
      var st := StatsIn(sessionStats, s);
      sessionStats := sessionStats[s := st.(questions := st.questions + 1)];
      broadcasts := broadcasts + [(s, AnalyticsUpdate(SessionSummary(s)))];
    }

    /** The record half of `track_answer_submitted`: only a student who joined is scored. */
    method ScoreStudent(s: string, id: string, isCorrect: bool, rt: Option<int>)
      requires Valid()
      modifies this
      ensures Valid()
      ensures s in old(studentScores) && id in KeySet(old(studentScores)[s]) ==>
        var recs := old(studentScores)[s];
        studentScores == old(studentScores)[s := Put(recs, id, Answered(Get(recs, id).value, isCorrect, rt))]
      ensures !(s in old(studentScores) && id in KeySet(old(studentScores)[s])) ==> studentScores == old(studentScores)
      ensures activeStudents == old(activeStudents) && sessionStats == old(sessionStats) && broadcasts == old(broadcasts)
    {
      if s in studentScores && id in KeySet(studentScores[s]) {
        var recs := studentScores[s];
        AnswerKeepsSessionOk(activeStudents[s], recs, id, isCorrect, rt);
        studentScores := studentScores[s := Put(recs, id, Answered(Get(recs, id).value, isCorrect, rt))];
      }
    }

    /**
     * `track_answer_submitted`: the session counters always move; the student's record moves
     * only if the student joined; then the summary and the top ten are broadcast.
     */
    method TrackAnswerSubmitted(s: string, id: string, questionId: string, selected: string,
                                correct: string, rt: Option<int>)
      requires Valid()
      modifies this
      ensures Valid()
      ensures sessionStats == old(sessionStats)[s := StatsAfterAnswer(StatsIn(old(sessionStats), s), selected == correct, rt)]
      ensures s in old(studentScores) && id in KeySet(old(studentScores)[s]) ==>
        var recs := old(studentScores)[s];
        studentScores == old(studentScores)[s := Put(recs, id, Answered(Get(recs, id).value, selected == correct, rt))]
      ensures !(s in old(studentScores) && id in KeySet(old(studentScores)[s])) ==> studentScores == old(studentScores)
      ensures activeStudents == old(activeStudents)
      ensures broadcasts == old(broadcasts) + [(s, AnalyticsUpdate(SessionSummary(s))),
                                               (s, LeaderboardUpdate(s, Leaderboard(RecordsIn(studentScores, s), DEFAULT_LIMIT)))]
    {
      var isCorrect := selected == correct;
      sessionStats := sessionStats[s := StatsAfterAnswer(StatsIn(sessionStats, s), isCorrect, rt)];
      ScoreStudent(s, id, isCorrect, rt);
      var summary := SessionSummary(s);
      var top := GetLeaderboard(s, DEFAULT_LIMIT);
      broadcasts := broadcasts + [(s, AnalyticsUpdate(summary)), (s, LeaderboardUpdate(s, top))];
    }

    /** `get_leaderboard`: the loop over the session's records, then the sort and the slice. */
    method GetLeaderboard(s: string, limit: int) returns (students: seq<StudentScore>)
      ensures students == Leaderboard(RecordsIn(studentScores, s), limit)
    {
      var recs := RecordsIn(studentScores, s);
      var rows: seq<StudentScore> := [];
      var i := 0;
      while i < |recs|
        invariant 0 <= i <= |recs|
        invariant |rows| == i && forall k :: 0 <= k < i ==> rows[k] == Row(recs[k])
      {
        rows := rows + [Row(recs[i])];
        i := i + 1;
      }
      assert rows == Rows(recs);
      students := PyPrefix(SortDesc(rows, ScoreOf), limit);
    }

    /**
     * `end_session`: the podium is the first three of the leaderboard taken with limit 100,
     * the struggling list is filtered from that same leaderboard, and the session leaves
     * all three maps; the question count is read after the deletion and so is always 0.
     * The duration subtracts `sessionStart` from the naive `datetime.now()`, which raises
     * `TypeError` for a timezone-aware start before anything is cleared or broadcast.
     */
    method EndSession(s: string, sessionStart: FirestoreValues.DateTime) returns (outcome: Outcome, result: Option<SessionEnd>)
      requires Valid()
      modifies this
      ensures Valid()
      ensures sessionStart.utcOffsetMinutes.Some? ==>
        && outcome == Raised("TypeError") && result == None
        && activeStudents == old(activeStudents) && sessionStats == old(sessionStats)
        && studentScores == old(studentScores) && broadcasts == old(broadcasts)
      ensures sessionStart.utcOffsetMinutes.None? ==>
        var board := Leaderboard(RecordsIn(old(studentScores), s), FINAL_LIMIT);
        var summary := SessionEnd(s, PyPrefix(board, PODIUM_SIZE), |board|, 0, Struggling(board));
        && outcome == Ok && result == Some(summary)
        && activeStudents == old(activeStudents) - {s}
        && sessionStats == old(sessionStats) - {s}
        && studentScores == old(studentScores) - {s}
        && broadcasts == old(broadcasts) + [(s, SessionEnded(summary))]
    {
      var board := GetLeaderboard(s, FINAL_LIMIT);
      var topThree := PyPrefix(board, PODIUM_SIZE);
      var struggling := StrugglingStudents(board);
      if sessionStart.utcOffsetMinutes.Some? {
        // naive `datetime.now()` minus an aware datetime
        return Raised("TypeError"), None;
      }
      activeStudents := activeStudents - {s};
      sessionStats := sessionStats - {s};
      studentScores := studentScores - {s};
      var summary := SessionEnd(s, topThree, |board|, StatsIn(sessionStats, s).questions, struggling);
      broadcasts := broadcasts + [(s, SessionEnded(summary))];
      return Ok, Some(summary);
    }
  }

  /** The record of a present student sits at some position of the session's records. */
  lemma RecordAt(recs: seq<(string, ScoreRecord)>, id: string)
    requires DistinctKeys(recs) && id in KeySet(recs)
    ensures exists i :: 0 <= i < |recs| && recs[i].0 == id && Get(recs, id) == Some(recs[i].1)
  {
    var i := KeySetWitness(recs, id);
    GetDistinct(recs, i);
  }

  /** Every entry of `Put(recs, id, v)` is an old entry or the new one. */
  lemma {:induction false} PutAt(recs: seq<(string, ScoreRecord)>, id: string, v: ScoreRecord)
    ensures forall i :: 0 <= i < |Put(recs, id, v)| ==> Put(recs, id, v)[i] == (id, v) || Put(recs, id, v)[i] in recs
  {
    if recs != [] && recs[0].0 != id {
      PutAt(recs[1..], id, v);
      var t := Put(recs[1..], id, v);
      assert Put(recs, id, v) == [recs[0]] + t;
      forall i | 0 <= i < |t| ensures t[i] == (id, v) || t[i] in recs {
        if t[i] != (id, v) {
          assert t[i] in recs[1..];
        }
      }
    }
  }
}
