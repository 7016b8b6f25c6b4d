/**
 * `mapFirestoreQuestionToMCQ`: a stored question with plain-text options becomes a quiz
 * question with lettered options and a resolved correct-option id.
 */
module McqMapping {
  import opened Wrappers
  import opened Quiz

  /** A question document as stored: an optional id, the text, the option texts, the correct answer's text. */
  datatype StoredQuestion = StoredQuestion(id: Option<string>, questionText: string, options: Option<seq<string>>, correctAnswer: string)

  const LETTERS: seq<string> := ["a", "b", "c", "d"]

  /** The first four option texts (none when the options are missing), lettered in order. */
  function Lettered(q: StoredQuestion): (opts: seq<OptionItem>)
    ensures |opts| <= 4
    ensures q.options.None? ==> opts == []
    ensures q.options.Some? ==> |opts| == if |q.options.value| < 4 then |q.options.value| else 4
    ensures forall i :: 0 <= i < |opts| ==> opts[i] == OptionItem(LETTERS[i], q.options.value[i])
  {
    var texts := q.options.GetOr([]);
    var kept := if |texts| < 4 then texts else texts[..4];
    seq(|kept|, i requires 0 <= i < |kept| => OptionItem(LETTERS[i], kept[i]))
  }

  /** `findIndex` on the option texts: the first position holding `text`, or -1. */
  function FindText(opts: seq<OptionItem>, text: string): (idx: int)
    ensures -1 <= idx < |opts|
    ensures idx >= 0 ==> opts[idx].text == text && forall j :: 0 <= j < idx ==> opts[j].text != text
    ensures idx == -1 ==> forall j :: 0 <= j < |opts| ==> opts[j].text != text
  {
    if opts == [] then -1
    else if opts[0].text == text then 0
    else
      var k := FindText(opts[1..], text);
      if k == -1 then -1 else k + 1
  }

  /** The mapped question; `freshId` stands for the generated id used when the document has none. */
  function MapQuestion(q: StoredQuestion, freshId: string): (m: MCQ)
    ensures m.question == q.questionText
    ensures m.options == Lettered(q)
    ensures q.id.Some? && q.id.value != "" ==> m.mcqId == q.id.value
    ensures q.id.None? || q.id.value == "" ==> m.mcqId == freshId
    ensures forall i :: (0 <= i < |m.options| && m.options[i].text == q.correctAnswer
      && forall j :: 0 <= j < i ==> m.options[j].text != q.correctAnswer) ==> m.correctOptionId == m.options[i].id
    ensures (forall j :: 0 <= j < |m.options| ==> m.options[j].text != q.correctAnswer) ==> m.correctOptionId == "a"
  {
    var opts := Lettered(q);
    var initial := if opts != [] && opts[0].id != "" then opts[0].id else "a";
    var idx := FindText(opts, q.correctAnswer);
    var correctId := if idx >= 0 then opts[idx].id else initial;
    var mcqId := if q.id.Some? && q.id.value != "" then q.id.value else freshId;
    MCQ(mcqId, q.questionText, opts, correctId)
  }

  /** With at least one option the correct id is always one of the option ids. */
  lemma CorrectIdIsAnOption(q: StoredQuestion, freshId: string)
    requires Lettered(q) != []
    ensures exists i :: 0 <= i < |MapQuestion(q, freshId).options| && MapQuestion(q, freshId).options[i].id == MapQuestion(q, freshId).correctOptionId
  {
    var m := MapQuestion(q, freshId);
    var idx := FindText(m.options, q.correctAnswer);
    if idx >= 0 {
      assert m.options[idx].id == m.correctOptionId;
    } else {
      assert m.options[0].id == "a" == m.correctOptionId;
    }
  }

  /**
   * When the correct answer is among the kept options, the option carrying the correct id
   * holds the correct answer's text: the ids are distinct letters.
   */
  lemma CorrectIdNamesCorrectText(q: StoredQuestion, freshId: string, k: nat)
    requires k < |Lettered(q)| && Lettered(q)[k].text == q.correctAnswer
    ensures forall i :: (0 <= i < |MapQuestion(q, freshId).options| &&
      MapQuestion(q, freshId).options[i].id == MapQuestion(q, freshId).correctOptionId) ==>
      MapQuestion(q, freshId).options[i].text == q.correctAnswer
  {
    var m := MapQuestion(q, freshId);
    var idx := FindText(m.options, q.correctAnswer);
    assert idx >= 0;
    forall i | 0 <= i < |m.options| && m.options[i].id == m.correctOptionId
      ensures m.options[i].text == q.correctAnswer
    {
      assert LETTERS[i] == LETTERS[idx];
    }
  }
}
