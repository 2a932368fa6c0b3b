/**
  The records the application passes around (the interfaces of types.ts and
  the flashcard record its views use), the status enumeration, and the
  composite key `${topicIndex}-${questionIndex}` under which quiz answers are
  stored.
 */
module Types {
  import opened Wrappers
  import opened Strings

  datatype Question = Question(
    text: string,
    options: seq<string>,
    correctAnswerIndex: int,   // an arbitrary number: nothing checks it against the options
    explanation: string)

  datatype QuizTopic = QuizTopic(topic: string, questions: seq<Question>)

  datatype AnalysisResult = AnalysisResult(summary: string, quizzes: seq<QuizTopic>)

  /**
    The browser's File object as far as the application reads it: its name,
    declared MIME type and size in bytes, and the data URL that
    FileReader.readAsDataURL produces for it.
   */
  datatype BrowserFile = BrowserFile(name: string, mimeType: string, size: nat, dataUrl: string)

  datatype UploadedFile = UploadedFile(
    id: string,
    file: BrowserFile,
    previewUrl: Option<string>,
    base64: Option<string>,
    mimeType: string)

  datatype AppStatus = Idle | Processing | GeneratingAudio | Completed | Error

  datatype Flashcard = Flashcard(front: string, back: string)

  /** Quiz answers: selected option index per answer key. */
  type Answers = map<string, int>

  /** The key `${topicIndex}-${questionIndex}`. */
  function AnswerKey(topicIndex: nat, questionIndex: nat): (key: string) {
    NatToString(topicIndex) + "-" + NatToString(questionIndex)
  }

  /** Two positions share a key only if they are the same position, so answers never collide. */
  lemma AnswerKeyInjective(t1: nat, q1: nat, t2: nat, q2: nat)
    requires AnswerKey(t1, q1) == AnswerKey(t2, q2)
    ensures t1 == t2 && q1 == q2
  {
    var a1, a2 := NatToString(t1), NatToString(t2);
    var k := AnswerKey(t1, q1);
    // The first '-' of the key sits right after the topic digits.
    assert |a1| == |a2| by {
      assert k[|a1|] == '-' && (AnswerKey(t2, q2))[|a2|] == '-';
    }
    assert a1 == k[..|a1|] == a2;
    NatToStringInjective(t1, t2);
    assert NatToString(q1) == k[|a1| + 1..] == NatToString(q2);
    NatToStringInjective(q1, q2);
  }

  /** `answers[key]`, None where JavaScript reads `undefined`. */
  function Lookup(answers: Answers, key: string): (answer: Option<int>) {
    if key in answers then Some(answers[key]) else None
  }

  /** The option recorded for question `questionIndex` of topic `topicIndex`. */
  function SelectedAnswer(answers: Answers, topicIndex: nat, questionIndex: nat): (selected: Option<int>) {
    Lookup(answers, AnswerKey(topicIndex, questionIndex))
  }
}
