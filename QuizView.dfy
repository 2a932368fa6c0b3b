/**
  The quiz screen of components/QuizView.tsx: the topic shown, the option
  buttons of its questions, the explanation boxes, and the score. The
  answers and the results flag live in the session (App.AppState); the view
  only keeps the index of the active topic.
 */
module QuizView {
  import opened Wrappers
  import opened Strings
  import opened Types
  import opened Scoring
  import opened App

  /** How an option button is drawn. */
  datatype OptionState =
    | MarkedCorrect   // green, check icon
    | MarkedWrong     // red, cross icon
    | Faded           // dimmed
    | Highlighted     // the current pick, before results
    | Plain

  /** The class chosen for option `optionIndex` of a question whose recorded answer is `selected`. */
  function OptionStateOf(showResults: bool, optionIndex: nat, selected: Option<int>, correctAnswerIndex: int): (state: OptionState) {
    if showResults then
      if optionIndex == correctAnswerIndex then MarkedCorrect
      else if selected == Some(optionIndex) then MarkedWrong
      else Faded
    else if selected == Some(optionIndex) then Highlighted
    else Plain
  }

  /** The explanation box: its text, green when the question was answered correctly. */
  datatype ExplanationBox = ExplanationBox(text: string, answeredCorrectly: bool)

  /** What one question shows. */
  datatype QuestionPanel = QuestionPanel(
    number: nat,
    text: string,
    options: seq<OptionState>,
    explanation: Option<ExplanationBox>)

  function Panel(showResults: bool, topicIndex: nat, questionIndex: nat, q: Question, answers: Answers): (p: QuestionPanel)
    ensures |p.options| == |q.options|
  {
    var selected := SelectedAnswer(answers, topicIndex, questionIndex);
    QuestionPanel(
      questionIndex + 1,
      q.text,
      seq(|q.options|, k requires 0 <= k < |q.options| => OptionStateOf(showResults, k, selected, q.correctAnswerIndex)),
      if showResults then Some(ExplanationBox(q.explanation, selected == Some(q.correctAnswerIndex))) else None)
  }

  /**
    With results shown, every option is drawn as the shared classification
    says (correct whatever was picked, a wrong pick in red, the rest dimmed),
    and the explanation box is shown, green exactly when the question counts
    as correct.
   */
  lemma RevealedPanel(topicIndex: nat, questionIndex: nat, q: Question, answers: Answers)
    ensures var p := Panel(true, topicIndex, questionIndex, q, answers);
      var selected := SelectedAnswer(answers, topicIndex, questionIndex);
      (forall k :: 0 <= k < |q.options| ==>
        (p.options[k] == MarkedCorrect <==> Classify(k, selected, q.correctAnswerIndex) == CorrectOption)
        && (p.options[k] == MarkedWrong <==> Classify(k, selected, q.correctAnswerIndex) == WrongSelection)
        && (p.options[k] == Faded <==> Classify(k, selected, q.correctAnswerIndex) == Neutral))
      && p.explanation == Some(ExplanationBox(q.explanation, AnsweredCorrectly(answers, topicIndex, questionIndex, q)))
  {
  }

  /**
    Before the results, only the pick is highlighted, and nothing about the
    right answer or its explanation shows: the panel is the same whatever
    `correctAnswerIndex` and `explanation` are.
   */
  lemma HiddenPanel(topicIndex: nat, questionIndex: nat, q: Question, answers: Answers,
                    otherIndex: int, otherExplanation: string)
    ensures var p := Panel(false, topicIndex, questionIndex, q, answers);
      var selected := SelectedAnswer(answers, topicIndex, questionIndex);
      (forall k :: 0 <= k < |q.options| ==>
        (p.options[k] == Highlighted <==> selected == Some(k))
        && (p.options[k] == Plain <==> selected != Some(k)))
      && p.explanation == None
      && p == Panel(false, topicIndex, questionIndex,
                    q.(correctAnswerIndex := otherIndex, explanation := otherExplanation), answers)
  {
    var q' := q.(correctAnswerIndex := otherIndex, explanation := otherExplanation);
    var p := Panel(false, topicIndex, questionIndex, q, answers);
    var p' := Panel(false, topicIndex, questionIndex, q', answers);
    assert p.options == p'.options;
  }

  /** The score line: `${percentage}% (${correct}/${total})`. */
  method Score(quizzes: seq<QuizTopic>, answers: Answers)
    returns (correct: nat, total: nat, percentage: nat, line: string)
    ensures correct == CorrectCount(answers, quizzes) && total == TotalCount(quizzes)
    ensures percentage == Percentage(correct, total)
    ensures correct <= total && percentage <= 100
    ensures total == 0 ==> percentage == 0
    ensures line == NatToString(percentage) + "% (" + NatToString(correct) + "/" + NatToString(total) + ")"
  {
    correct, total := CalculateScore(quizzes, answers);
    percentage := Percentage(correct, total);
    PercentageRange(correct, total);
    line := NatToString(percentage) + "% (" + NatToString(correct) + "/" + NatToString(total) + ")";
  }

  class QuizViewState {
    var activeTopicIndex: nat

    /** `useState(0)`. */
    constructor ()
      ensures activeTopicIndex == 0
    {
      activeTopicIndex := 0;
    }

    /** A topic tab was clicked. */
    method SelectTopic(topicIndex: nat)
      modifies this
      ensures activeTopicIndex == topicIndex
    {
      activeTopicIndex := topicIndex;
    }

    /**
      `handleAnswerSelect`: ignored once the results are shown, otherwise the
      option is recorded under the key of the active topic and the question.
     */
    method AnswerSelect(app: AppState, questionIndex: nat, optionIndex: nat)
      requires app.Valid()
      modifies app
      ensures app.Valid()
      ensures old(app.quizShowResults) ==> app.quizAnswers == old(app.quizAnswers)
      ensures !old(app.quizShowResults) ==>
        app.quizAnswers == old(app.quizAnswers)[AnswerKey(activeTopicIndex, questionIndex) := optionIndex]
      ensures app.files == old(app.files) && app.status == old(app.status) && app.result == old(app.result)
      ensures app.quizShowResults == old(app.quizShowResults)
    {
      if app.quizShowResults {
        return;
      }
      var key := AnswerKey(activeTopicIndex, questionIndex);
      app.QuizAnswer(key, optionIndex);
    }

    /** `handleReset`: back to the first topic, and the session's quiz reset. */
    method Reset(app: AppState)
      requires app.Valid()
      modifies this, app
      ensures app.Valid()
      ensures activeTopicIndex == 0
      ensures app.quizAnswers == map[] && !app.quizShowResults
      ensures app.files == old(app.files) && app.status == old(app.status) && app.result == old(app.result)
    {
      activeTopicIndex := 0;
      app.QuizReset();
    }
  }
}
