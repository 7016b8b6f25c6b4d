/**
 * The round and scoring bookkeeping that both lecturer session pages share: recording
 * answers, tallying votes per declared option, the per-student score deltas, and the
 * merge of those deltas into the top-ten leaderboard. The pages differ only in the
 * round length, which is a parameter here.
 */
module RoundEngine {
  import opened Wrappers
  import opened Quiz
  import opened OrderedMaps
  import opened Sorting
  import Countdown

  const BASE_SCORE := 600
  const SPEED_BONUS_MAX := 400
  const TOP_SIZE := 10

  /** The lecturer's round record: the active question, its deadline, the answers so far. */
  datatype Round = Round(mcq: Option<MCQ>, deadlineMs: int, answers: seq<Answer>, ticking: bool)

  const NoRound := Round(None, 0, [], false)

  /** The round a publish starts: no answers, deadline one round length away. */
  function StartRound(mcq: MCQ, now: int, roundMs: int): (r: Round)
    ensures r.mcq == Some(mcq) && r.answers == [] && r.ticking
    ensures r.deadlineMs - now == roundMs
  {
    Round(Some(mcq), now + roundMs, [], true)
  }

  /** The drafts left after publishing question `id`: every other draft, in order. */
  function WithoutQuestion(drafts: seq<MCQ>, id: string): (r: seq<MCQ>)
    ensures forall x :: x in r <==> x in drafts && x.mcqId != id
    ensures |r| <= |drafts|
  {
    if drafts == [] then []
    else if drafts[0].mcqId == id then WithoutQuestion(drafts[1..], id)
    else [drafts[0]] + WithoutQuestion(drafts[1..], id)
  }

  /** Some answer in `answers` is by `student`. */
  predicate Answered(answers: seq<Answer>, student: string) {
    exists i :: 0 <= i < |answers| && answers[i].student == student
  }

  /** No student has two answers. */
  ghost predicate UniqueStudents(answers: seq<Answer>) {
    forall i, j :: 0 <= i < j < |answers| ==> answers[i].student != answers[j].student
  }

  /** The event is an answer for this session's active question. */
  predicate ForActiveQuestion(r: Round, code: string, e: BusEvent) {
    e.AnswerSubmitted? && e.code == code && r.mcq.Some? && e.mcqId == r.mcq.value.mcqId
  }

  /** The answer updater of the bus subscription, run at time `now`. */
  function RecordAnswer(r: Round, code: string, e: BusEvent, now: int): (r': Round)
    ensures r'.mcq == r.mcq && r'.deadlineMs == r.deadlineMs && r'.ticking == r.ticking
    ensures !ForActiveQuestion(r, code, e) ==> r' == r
    ensures now > r.deadlineMs ==> r' == r
    ensures e.AnswerSubmitted? && Answered(r.answers, e.student) ==> r' == r
    ensures ForActiveQuestion(r, code, e) && now <= r.deadlineMs && !Answered(r.answers, e.student) ==>
      r'.answers == r.answers + [Answer(e.student, e.optionId, e.respondedAtMs)]
  {
    if !ForActiveQuestion(r, code, e) then r
    else if now > r.deadlineMs then r
    else if Answered(r.answers, e.student) then r
    else r.(answers := r.answers + [Answer(e.student, e.optionId, e.respondedAtMs)])
  }

  /** Recording answers never gives a student a second answer, and an answer once recorded stays. */
  lemma RecordAnswerFirstWins(r: Round, code: string, e: BusEvent, now: int)
    requires UniqueStudents(r.answers)
    ensures UniqueStudents(RecordAnswer(r, code, e, now).answers)
    ensures r.answers <= RecordAnswer(r, code, e, now).answers
    ensures |RecordAnswer(r, code, e, now).answers| <= |r.answers| + 1
  {
    var r' := RecordAnswer(r, code, e, now);
    if r' != r {
      var a := r'.answers[|r.answers|];
      forall i | 0 <= i < |r.answers| ensures r.answers[i].student != a.student {
        assert !Answered(r.answers, e.student);
      }
    }
  }

  // ----- vote counts -----

  /** How many answers chose option `id`. */
  function Votes(answers: seq<Answer>, id: string): nat {
    if answers == [] then 0
    else Votes(answers[..|answers| - 1], id) + (if answers[|answers| - 1].optionId == id then 1 else 0)
  }

  /** The counts finishRound reports: one per declared option, in option order, zero-filled. */
  function Counts(options: seq<OptionItem>, answers: seq<Answer>): seq<OptionCount> {
    seq(|options|, i requires 0 <= i < |options| => OptionCount(options[i].id, Votes(answers, options[i].id)))
  }

  /** The two tally loops of finishRound and the mapping over the declared options. */
  method TallyCounts(options: seq<OptionItem>, answers: seq<Answer>) returns (counts: seq<OptionCount>)
    ensures |counts| == |options|
    ensures forall i :: 0 <= i < |options| ==> counts[i] == OptionCount(options[i].id, Votes(answers, options[i].id))
    ensures counts == Counts(options, answers)
  {
    var countsMap: seq<(string, int)> := [];
    for i := 0 to |options|
      invariant forall k :: GetOrZero(countsMap, k) == 0
    {
      ghost var before := countsMap;
      countsMap := Put(countsMap, options[i].id, 0);
      forall k ensures GetOrZero(countsMap, k) == 0 {
        if k != options[i].id {
          assert Get(countsMap, k) == Get(before, k);
          assert GetOrZero(before, k) == 0;
        }
      }
    }
    for i := 0 to |answers|
      invariant forall k :: GetOrZero(countsMap, k) == Votes(answers[..i], k)
    {
      var id := answers[i].optionId;
      assert answers[..i + 1][..i] == answers[..i];
      ghost var before := countsMap;
      countsMap := Put(countsMap, id, GetOrZero(countsMap, id) + 1);
      forall k ensures GetOrZero(countsMap, k) == Votes(answers[..i + 1], k) {
        if k != id {
          assert Get(countsMap, k) == Get(before, k);
        }
      }
    }
    assert answers[..|answers|] == answers;
    counts := [];
    for i := 0 to |options|
      invariant |counts| == i
      invariant forall j :: 0 <= j < i ==> counts[j] == OptionCount(options[j].id, Votes(answers, options[j].id))
    {
      counts := counts + [OptionCount(options[i].id, GetOrZero(countsMap, options[i].id))];
    }
  }

  /** The sum of the counts. */
  function TotalCount(counts: seq<OptionCount>): int {
    if counts == [] then 0 else TotalCount(counts[..|counts| - 1]) + counts[|counts| - 1].count
  }

  /** The option ids, in order. */
  function OptionIds(options: seq<OptionItem>): (ids: seq<string>)
    ensures |ids| == |options| && forall i :: 0 <= i < |options| ==> ids[i] == options[i].id
  {
    seq(|options|, i requires 0 <= i < |options| => options[i].id)
  }

  /** The votes of each option in `ids`, summed. */
  function VotesOver(ids: seq<string>, answers: seq<Answer>): int {
    if ids == [] then 0 else VotesOver(ids[..|ids| - 1], answers) + Votes(answers, ids[|ids| - 1])
  }

  /** How often `x` occurs in `ids`. */
  function Occurrences(ids: seq<string>, x: string): nat {
    if ids == [] then 0 else Occurrences(ids[..|ids| - 1], x) + (if ids[|ids| - 1] == x then 1 else 0)
  }

  lemma {:induction false} OccursOnce(ids: seq<string>, x: string)
    requires forall i, j :: 0 <= i < j < |ids| ==> ids[i] != ids[j]
    requires x in ids
    ensures Occurrences(ids, x) == 1
  {
    var init := ids[..|ids| - 1];
    if ids[|ids| - 1] == x {
      OccursNot(init, x);
    } else {
      assert x in init by {
        var k :| 0 <= k < |ids| && ids[k] == x;
        assert init[k] == x;
      }
      OccursOnce(init, x);
    }
  }

  lemma {:induction false} OccursNot(ids: seq<string>, x: string)
    requires x !in ids
    ensures Occurrences(ids, x) == 0
  {
    if ids != [] {
      assert x !in ids[..|ids| - 1];
      OccursNot(ids[..|ids| - 1], x);
    }
  }

  /** One more answer adds one vote to every occurrence of its option among `ids`. */
  lemma {:induction false} VotesOverSnoc(ids: seq<string>, answers: seq<Answer>, a: Answer)
    ensures VotesOver(ids, answers + [a]) == VotesOver(ids, answers) + Occurrences(ids, a.optionId)
  {
    assert (answers + [a])[..|answers|] == answers;
    if ids != [] {
      VotesOverSnoc(ids[..|ids| - 1], answers, a);
    }
  }

  lemma {:induction false} VotesOverAll(ids: seq<string>, answers: seq<Answer>)
    requires forall i, j :: 0 <= i < j < |ids| ==> ids[i] != ids[j]
    requires forall k :: 0 <= k < |answers| ==> answers[k].optionId in ids
    ensures VotesOver(ids, answers) == |answers|
  {
    if answers == [] {
      VotesOverNone(ids);
    } else {
      var init, last := answers[..|answers| - 1], answers[|answers| - 1];
      VotesOverAll(ids, init);
      assert init + [last] == answers;
      VotesOverSnoc(ids, init, last);
      OccursOnce(ids, last.optionId);
    }
  }

  lemma {:induction false} VotesOverNone(ids: seq<string>)
    ensures VotesOver(ids, []) == 0
  {
    if ids != [] {
      VotesOverNone(ids[..|ids| - 1]);
    }
  }

  lemma {:induction false} TotalIsVotesOver(options: seq<OptionItem>, answers: seq<Answer>, counts: seq<OptionCount>)
    requires |counts| == |options|
    requires forall i :: 0 <= i < |options| ==> counts[i] == OptionCount(options[i].id, Votes(answers, options[i].id))
    ensures TotalCount(counts) == VotesOver(OptionIds(options), answers)
  {
    if options != [] {
      var n := |options| - 1;
      assert OptionIds(options)[..n] == OptionIds(options[..n]);
      TotalIsVotesOver(options[..n], answers, counts[..n]);
    }
  }

  /**
   * When the option ids are distinct and every answer picks a declared option, the counts
   * add up to the number of answers: each answer is counted exactly once.
   */
  lemma CountsCoverAnswers(options: seq<OptionItem>, answers: seq<Answer>, counts: seq<OptionCount>)
    requires |counts| == |options|
    requires forall i :: 0 <= i < |options| ==> counts[i] == OptionCount(options[i].id, Votes(answers, options[i].id))
    requires forall i, j :: 0 <= i < j < |options| ==> options[i].id != options[j].id
    requires forall k :: 0 <= k < |answers| ==> exists i :: 0 <= i < |options| && answers[k].optionId == options[i].id
    ensures TotalCount(counts) == |answers|
  {
    var ids := OptionIds(options);
    TotalIsVotesOver(options, answers, counts);
    forall k | 0 <= k < |answers| ensures answers[k].optionId in ids {
      var i :| 0 <= i < |options| && answers[k].optionId == options[i].id;
      assert ids[i] == answers[k].optionId;
    }
    VotesOverAll(ids, answers);
  }

  // ----- scoring -----

  /**
   * `Math.round(remaining / roundMs * SPEED_BONUS_MAX)`, computed exactly: the whole number
   * nearest to the exact quotient, halves rounded up.
   */
  function Bonus(remaining: nat, roundMs: int): (b: nat)
    requires roundMs > 0
    ensures (2 * b - 1) * roundMs <= 2 * SPEED_BONUS_MAX * remaining < (2 * b + 1) * roundMs
  {
    var q := (2 * SPEED_BONUS_MAX * remaining + roundMs) / (2 * roundMs);
    assert 2 * roundMs * q <= 2 * SPEED_BONUS_MAX * remaining + roundMs < 2 * roundMs * q + 2 * roundMs;
    assert (2 * q - 1) * roundMs == 2 * roundMs * q - roundMs;
    assert (2 * q + 1) * roundMs == 2 * roundMs * q + roundMs;
    q
  }

  /** Within the round window the bonus never exceeds its maximum. */
  lemma BonusAtMostMax(remaining: nat, roundMs: int)
    requires roundMs > 0 && remaining <= roundMs
    ensures Bonus(remaining, roundMs) <= SPEED_BONUS_MAX
  {
    var b := Bonus(remaining, roundMs);
    var x := 2 * b - 1 - 2 * SPEED_BONUS_MAX;
    assert 2 * SPEED_BONUS_MAX * remaining <= 2 * SPEED_BONUS_MAX * roundMs;
    assert x * roundMs == (2 * b - 1) * roundMs - 2 * SPEED_BONUS_MAX * roundMs;
    NonPositiveFactor(x, roundMs);
  }

  lemma NonPositiveFactor(x: int, y: int)
    requires y > 0 && x * y <= 0
    ensures x <= 0
  {
  }

  /** More time remaining never gives a smaller bonus. */
  lemma BonusMonotone(r1: nat, r2: nat, roundMs: int)
    requires roundMs > 0 && r1 <= r2
    ensures Bonus(r1, roundMs) <= Bonus(r2, roundMs)
  {
    var b1, b2 := Bonus(r1, roundMs), Bonus(r2, roundMs);
    assert (2 * b1 - 1) * roundMs < (2 * b2 + 1) * roundMs;
    var x := 2 * b1 - 2 * b2 - 2;
    assert x * roundMs == (2 * b1 - 1) * roundMs - (2 * b2 + 1) * roundMs;
    NegativeFactor(x, roundMs);
  }

  lemma NegativeFactor(x: int, y: int)
    requires y > 0 && x * y < 0
    ensures x < 0
  {
  }

  /** The bonus is not capped: a response time stamped before publication earns more than the maximum. */
  lemma BonusUncapped()
    ensures Bonus(30000, 15000) == 2 * SPEED_BONUS_MAX
    ensures Bonus(7500, 15000) == 200 && Bonus(15000, 15000) == SPEED_BONUS_MAX && Bonus(0, 15000) == 0
  {
  }

  /** The score delta of one answer: base score plus speed bonus when correct, else 0. */
  function Delta(a: Answer, correct: string, deadlineMs: int, roundMs: int): (d: nat)
    requires roundMs > 0
    ensures a.optionId != correct ==> d == 0
    ensures a.optionId == correct ==> d == BASE_SCORE + Bonus(Countdown.Remaining(deadlineMs, a.respondedAtMs), roundMs)
    ensures a.optionId == correct && a.respondedAtMs >= deadlineMs - roundMs ==>
      BASE_SCORE <= d <= BASE_SCORE + SPEED_BONUS_MAX
  {
    if a.optionId == correct then
      var remaining := Countdown.Remaining(deadlineMs, a.respondedAtMs);
      if a.respondedAtMs >= deadlineMs - roundMs then BonusAtMostMax(remaining, roundMs); BASE_SCORE + Bonus(remaining, roundMs)
      else BASE_SCORE + Bonus(remaining, roundMs)
    else 0
  }

  /** The (student, delta) pairs, one per answer, in answer order. */
  function DeltaEntries(answers: seq<Answer>, correct: string, deadlineMs: int, roundMs: int): (es: seq<(string, int)>)
    requires roundMs > 0
    ensures |es| == |answers|
    ensures forall i :: 0 <= i < |answers| ==> es[i] == (answers[i].student, Delta(answers[i], correct, deadlineMs, roundMs))
  {
    seq(|answers|, i requires 0 <= i < |answers| => (answers[i].student, Delta(answers[i], correct, deadlineMs, roundMs)))
  }

  /** The values of the entries for key `k`, summed. */
  function SumFor(es: seq<(string, int)>, k: string): int {
    if es == [] then 0
    else SumFor(es[..|es| - 1], k) + (if es[|es| - 1].0 == k then es[|es| - 1].1 else 0)
  }

  /** `acc.set(k, (acc.get(k) || 0) + v)` for each entry of `es` in order. */
  function AddInto(acc: seq<(string, int)>, es: seq<(string, int)>): seq<(string, int)> {
    if es == [] then acc
    else
      var t := AddInto(acc, es[..|es| - 1]);
      Put(t, es[|es| - 1].0, GetOrZero(t, es[|es| - 1].0) + es[|es| - 1].1)
  }

  /** Adding entries keeps the keys distinct and adds exactly the entries' keys. */
  lemma AddIntoKeys(acc: seq<(string, int)>, es: seq<(string, int)>)
    ensures KeySet(AddInto(acc, es)) == KeySet(acc) + KeySet(es)
    ensures DistinctKeys(acc) ==> DistinctKeys(AddInto(acc, es))
  {
    AddIntoKeySet(acc, es);
    if DistinctKeys(acc) {
      AddIntoDistinct(acc, es);
    }
  }

  lemma {:induction false} AddIntoKeySet(acc: seq<(string, int)>, es: seq<(string, int)>)
    ensures KeySet(AddInto(acc, es)) == KeySet(acc) + KeySet(es)
  {
    if es != [] {
      var init, last := es[..|es| - 1], es[|es| - 1];
      AddIntoSnoc(acc, es);
      AddIntoKeySet(acc, init);
      KeySetAppend(init, [last]);
      assert init + [last] == es;
      assert KeySet([last]) == {last.0};
    }
  }

  lemma {:induction false} AddIntoDistinct(acc: seq<(string, int)>, es: seq<(string, int)>)
    requires DistinctKeys(acc)
    ensures DistinctKeys(AddInto(acc, es))
  {
    if es != [] {
      var init, last := es[..|es| - 1], es[|es| - 1];
      var t := AddInto(acc, init);
      AddIntoDistinct(acc, init);
      PutDistinct(t, last.0, GetOrZero(t, last.0) + last.1);
    }
  }

  lemma AddIntoSnoc(acc: seq<(string, int)>, es: seq<(string, int)>)
    requires es != []
    ensures AddInto(acc, es) == Put(AddInto(acc, es[..|es| - 1]), es[|es| - 1].0,
      GetOrZero(AddInto(acc, es[..|es| - 1]), es[|es| - 1].0) + es[|es| - 1].1)
  {
  }

  /** Each key ends up with its starting value plus all of its entries' values. */
  lemma {:induction false} AddIntoSums(acc: seq<(string, int)>, es: seq<(string, int)>, k: string)
    ensures GetOrZero(AddInto(acc, es), k) == GetOrZero(acc, k) + SumFor(es, k)
  {
    if es != [] {
      AddIntoSums(acc, es[..|es| - 1], k);
    }
  }

  /** The body of the `byStudent` loop: an answer's score delta. */
  method AnswerDelta(a: Answer, correct: string, deadlineMs: int, roundMs: int) returns (delta: nat)
    requires roundMs > 0
    ensures delta == Delta(a, correct, deadlineMs, roundMs)
  {
    delta := 0;
    if a.optionId == correct {
      var remaining := Countdown.Remaining(deadlineMs, a.respondedAtMs);
      var bonus := Bonus(remaining, roundMs);
      delta := BASE_SCORE + bonus;
    }
  }

  /** The `byStudent` map of finishRound. */
  method StudentDeltas(answers: seq<Answer>, correct: string, deadlineMs: int, roundMs: int)
    returns (byStudent: seq<(string, int)>)
    requires roundMs > 0
    ensures byStudent == AddInto([], DeltaEntries(answers, correct, deadlineMs, roundMs))
  {
    ghost var es := DeltaEntries(answers, correct, deadlineMs, roundMs);
    byStudent := [];
    for i := 0 to |answers|
      invariant byStudent == AddInto([], es[..i])
    {
      var a := answers[i];
      var delta := AnswerDelta(a, correct, deadlineMs, roundMs);
      assert es[i] == (a.student, delta);
      byStudent := AddEntry(byStudent, a.student, delta, [], es, i);
    }
    assert es[..|answers|] == es;
  }

  /** `m.set(k, (m.get(k) || 0) + v)`, where (k, v) is the next of the entries `es` added onto `base`. */
  method AddEntry(acc: seq<(string, int)>, k: string, v: int,
                  ghost base: seq<(string, int)>, ghost es: seq<(string, int)>, ghost i: nat)
    returns (r: seq<(string, int)>)
    requires i < |es| && acc == AddInto(base, es[..i]) && es[i] == (k, v)
    ensures r == AddInto(base, es[..i + 1])
  {
    AddIntoPrefix(base, es, i, acc, k, v);
    r := Put(acc, k, GetOrZero(acc, k) + v);
  }

  /** Adding one more entry of `es` to the running map. */
  lemma AddIntoPrefix(base: seq<(string, int)>, es: seq<(string, int)>, i: nat, acc: seq<(string, int)>, k: string, v: int)
    requires i < |es| && acc == AddInto(base, es[..i]) && es[i] == (k, v)
    ensures AddInto(base, es[..i + 1]) == Put(acc, k, GetOrZero(acc, k) + v)
  {
    assert es[..i + 1][..i] == es[..i];
    AddIntoSnoc(base, es[..i + 1]);
  }

  /** With one answer per student, each student's delta is the delta of their answer. */
  lemma {:induction false} StudentDeltaIsAnswerDelta(answers: seq<Answer>, correct: string, deadlineMs: int, roundMs: int, i: nat)
    requires roundMs > 0 && UniqueStudents(answers) && i < |answers|
    ensures GetOrZero(AddInto([], DeltaEntries(answers, correct, deadlineMs, roundMs)), answers[i].student)
      == Delta(answers[i], correct, deadlineMs, roundMs)
  {
    var es := DeltaEntries(answers, correct, deadlineMs, roundMs);
    AddIntoSums([], es, answers[i].student);
    SumForUnique(es, i);
  }

  lemma {:induction false} SumForUnique(es: seq<(string, int)>, i: nat)
    requires DistinctKeys(es) && i < |es|
    ensures SumFor(es, es[i].0) == es[i].1
  {
    var n := |es| - 1;
    assert DistinctKeys(es[..n]);
    if i == n {
      SumForAbsent(es[..n], es[i].0);
    } else {
      SumForUnique(es[..n], i);
    }
  }

  lemma {:induction false} SumForAbsent(es: seq<(string, int)>, k: string)
    requires forall j :: 0 <= j < |es| ==> es[j].0 != k
    ensures SumFor(es, k) == 0
  {
    if es != [] {
      SumForAbsent(es[..|es| - 1], k);
    }
  }

  /** No delta is negative, so a round never lowers a score. */
  lemma {:induction false} SumForNonNegative(es: seq<(string, int)>, k: string)
    requires forall j :: 0 <= j < |es| ==> es[j].1 >= 0
    ensures SumFor(es, k) >= 0
  {
    if es != [] {
      SumForNonNegative(es[..|es| - 1], k);
    }
  }

  // ----- leaderboard -----

  function ToPairs(rows: seq<LeaderboardRow>): (ps: seq<(string, int)>)
    ensures |ps| == |rows| && forall i :: 0 <= i < |rows| ==> ps[i] == (rows[i].name, rows[i].score)
  {
    seq(|rows|, i requires 0 <= i < |rows| => (rows[i].name, rows[i].score))
  }

  function ToRows(ps: seq<(string, int)>): (rows: seq<LeaderboardRow>)
    ensures |rows| == |ps| && forall i :: 0 <= i < |ps| ==> rows[i] == LeaderboardRow(ps[i].0, ps[i].1)
  {
    seq(|ps|, i requires 0 <= i < |ps| => LeaderboardRow(ps[i].0, ps[i].1))
  }

  /** The scores after the merge: the previous list as a map, plus every student's delta. */
  function MergedScores(prev: seq<LeaderboardRow>, byStudent: seq<(string, int)>): seq<(string, int)> {
    AddInto(FromEntries(ToPairs(prev)), byStudent)
  }

  /** The published list: the merged scores, highest first (stable), at most ten rows. */
  function TopRows(scores: seq<(string, int)>): seq<LeaderboardRow> {
    Take(SortDesc(ToRows(scores), Score), TOP_SIZE)
  }

  /** The `setTop` updater of finishRound. */
  method MergeLeaderboard(prev: seq<LeaderboardRow>, byStudent: seq<(string, int)>) returns (sorted: seq<LeaderboardRow>)
    ensures sorted == TopRows(MergedScores(prev, byStudent))
  {
    var next := FromEntries(ToPairs(prev));
    for i := 0 to |byStudent|
      invariant next == AddInto(FromEntries(ToPairs(prev)), byStudent[..i])
    {
      var (name, delta) := byStudent[i];
      next := AddEntry(next, name, delta, FromEntries(ToPairs(prev)), byStudent, i);
    }
    assert byStudent[..|byStudent|] == byStudent;
    sorted := Take(SortDesc(ToRows(next), Score), TOP_SIZE);
  }

  /**
   * The published list is ordered by score, has min(10, number of students) rows, and
   * holds the highest scores: every row left out scores no more than every row kept. Rows
   * with equal scores keep their merge order, so a tie at the cut keeps the earlier rows.
   */
  lemma TopRowsAreHighest(scores: seq<(string, int)>)
    ensures SortedDesc(TopRows(scores), Score)
    ensures |TopRows(scores)| == if |scores| < TOP_SIZE then |scores| else TOP_SIZE
    ensures multiset(TopRows(scores)) <= multiset(ToRows(scores))
    ensures forall y :: y in multiset(ToRows(scores)) - multiset(TopRows(scores)) ==>
      forall x :: x in TopRows(scores) ==> x.score >= y.score
    ensures forall k :: WithKey(TopRows(scores), Score, k) <= WithKey(ToRows(scores), Score, k)
  {
    TopIsHighest(ToRows(scores), Score, TOP_SIZE);
  }

  /** Every merged score is the previous listed score (0 if unlisted) plus the student's deltas. */
  lemma MergedScoreIsSum(prev: seq<LeaderboardRow>, byStudent: seq<(string, int)>, name: string)
    ensures GetOrZero(MergedScores(prev, byStudent), name)
      == GetOrZero(FromEntries(ToPairs(prev)), name) + SumFor(byStudent, name)
    ensures DistinctKeys(ToPairs(prev)) ==> GetOrZero(FromEntries(ToPairs(prev)), name) == GetOrZero(ToPairs(prev), name)
  {
    AddIntoSums(FromEntries(ToPairs(prev)), byStudent, name);
    if DistinctKeys(ToPairs(prev)) {
      FromDistinctEntries(ToPairs(prev));
    }
  }

  /**
   * Every row of the new list carries the student's previous listed score plus this round's
   * delta; in particular a student no longer on the previous top-ten list restarts from 0.
   */
  lemma {:induction false} TopRowIsPreviousPlusDelta(prev: seq<LeaderboardRow>, byStudent: seq<(string, int)>, x: LeaderboardRow)
    requires x in TopRows(MergedScores(prev, byStudent))
    ensures x.score == GetOrZero(FromEntries(ToPairs(prev)), x.name) + SumFor(byStudent, x.name)
    ensures x.name !in KeySet(ToPairs(prev)) ==> x.score == SumFor(byStudent, x.name)
  {
    var scores := MergedScores(prev, byStudent);
    TopRowsAreHighest(scores);
    assert x in multiset(ToRows(scores));
    var i :| 0 <= i < |ToRows(scores)| && ToRows(scores)[i] == x;
    AddIntoKeys(FromEntries(ToPairs(prev)), byStudent);
    GetDistinct(scores, i);
    MergedScoreIsSum(prev, byStudent, x.name);
  }

  // ----- the whole round end -----

  /** Every student's total delta for the round `r`, in first-answer order. */
  function RoundDeltas(r: Round, roundMs: int): seq<(string, int)>
    requires r.mcq.Some? && roundMs > 0
  {
    AddInto([], DeltaEntries(r.answers, r.mcq.value.correctOptionId, r.deadlineMs, roundMs))
  }

  /** The computations of finishRound: the zero-filled counts and the new top-ten list. */
  method ScoreRound(r: Round, prev: seq<LeaderboardRow>, roundMs: int)
    returns (counts: seq<OptionCount>, sorted: seq<LeaderboardRow>)
    requires r.mcq.Some? && roundMs > 0
    ensures counts == Counts(r.mcq.value.options, r.answers)
    ensures sorted == TopRows(MergedScores(prev, RoundDeltas(r, roundMs)))
  {
    var mcq := r.mcq.value;
    counts := TallyCounts(mcq.options, r.answers);
    var byStudent := StudentDeltas(r.answers, mcq.correctOptionId, r.deadlineMs, roundMs);
    sorted := MergeLeaderboard(prev, byStudent);
  }

  /** The new list is again a valid leaderboard: ordered by score and at most ten rows. */
  lemma ScoreRoundKeepsBoard(r: Round, prev: seq<LeaderboardRow>, roundMs: int)
    requires r.mcq.Some? && roundMs > 0
    ensures SortedDesc(TopRows(MergedScores(prev, RoundDeltas(r, roundMs))), Score)
    ensures |TopRows(MergedScores(prev, RoundDeltas(r, roundMs)))| <= TOP_SIZE
  {
    TopRowsAreHighest(MergedScores(prev, RoundDeltas(r, roundMs)));
  }
}
