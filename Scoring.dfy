/**
  The quiz score. The quiz view (components/QuizView.tsx), the PDF export of
  App.tsx and the PDF report of services/pdfService.ts all count it the same
  way: every question of every topic adds one to the total, and one to the
  number correct when the answer recorded under its key equals its
  `correctAnswerIndex`; the percentage is `Math.round(correct / total * 100) || 0`.
  All three sites are modelled by the one method `CalculateScore` and the one
  function `Percentage`.
 */
module Scoring {
  import opened Wrappers
  import opened Types

  /** The answer recorded for question `q` (number `questionIndex` of topic `topicIndex`) is its correct option. */
  predicate AnsweredCorrectly(answers: Answers, topicIndex: nat, questionIndex: nat, q: Question) {
    SelectedAnswer(answers, topicIndex, questionIndex) == Some(q.correctAnswerIndex)
  }

  /** Number of questions among `qs` (the first |qs| of topic `topicIndex`) answered correctly. */
  function CorrectInTopic(answers: Answers, topicIndex: nat, qs: seq<Question>): (correct: nat)
    decreases |qs|
  {
    if |qs| == 0 then 0
    else
      CorrectInTopic(answers, topicIndex, qs[..|qs| - 1])
      + (if AnsweredCorrectly(answers, topicIndex, |qs| - 1, qs[|qs| - 1]) then 1 else 0)
  }

  /** Number of questions answered correctly in the topics `topics` (the first |topics| of the quiz). */
  function CorrectCount(answers: Answers, topics: seq<QuizTopic>): (correct: nat)
    decreases |topics|
  {
    if |topics| == 0 then 0
    else
      CorrectCount(answers, topics[..|topics| - 1])
      + CorrectInTopic(answers, |topics| - 1, topics[|topics| - 1].questions)
  }

  /** Number of questions over all topics. */
  function TotalCount(topics: seq<QuizTopic>): (total: nat)
    decreases |topics|
  {
    if |topics| == 0 then 0
    else TotalCount(topics[..|topics| - 1]) + |topics[|topics| - 1].questions|
  }

  lemma {:induction false} CorrectInTopicBound(answers: Answers, topicIndex: nat, qs: seq<Question>)
    ensures CorrectInTopic(answers, topicIndex, qs) <= |qs|
    decreases |qs|
  {
    if |qs| > 0 {
      CorrectInTopicBound(answers, topicIndex, qs[..|qs| - 1]);
    }
  }

  /** Never more correct answers than questions. */
  lemma {:induction false} CorrectAtMostTotal(answers: Answers, topics: seq<QuizTopic>)
    ensures CorrectCount(answers, topics) <= TotalCount(topics)
    decreases |topics|
  {
    if |topics| > 0 {
      CorrectAtMostTotal(answers, topics[..|topics| - 1]);
      CorrectInTopicBound(answers, |topics| - 1, topics[|topics| - 1].questions);
    }
  }

  /** With no answers recorded, nothing is correct. */
  lemma {:induction false} NoAnswersNoneCorrect(topics: seq<QuizTopic>)
    ensures CorrectCount(map[], topics) == 0
    decreases |topics|
  {
    if |topics| > 0 {
      NoAnswersNoneCorrectInTopic(|topics| - 1, topics[|topics| - 1].questions);
      NoAnswersNoneCorrect(topics[..|topics| - 1]);
    }
  }

  lemma {:induction false} NoAnswersNoneCorrectInTopic(topicIndex: nat, qs: seq<Question>)
    ensures CorrectInTopic(map[], topicIndex, qs) == 0
    decreases |qs|
  {
    if |qs| > 0 {
      NoAnswersNoneCorrectInTopic(topicIndex, qs[..|qs| - 1]);
    }
  }

  /** `calculateScore`: the two counters of the nested `forEach` loops. */
  method CalculateScore(quizzes: seq<QuizTopic>, answers: Answers) returns (correct: nat, total: nat)
    ensures correct == CorrectCount(answers, quizzes)
    ensures total == TotalCount(quizzes)
    ensures correct <= total
  {
    correct, total := 0, 0;
    var t := 0;
    while t < |quizzes|
      invariant 0 <= t <= |quizzes|
      invariant correct == CorrectCount(answers, quizzes[..t])
      invariant total == TotalCount(quizzes[..t])
    {
      var questions := quizzes[t].questions;
      var q := 0;
      while q < |questions|
        invariant 0 <= q <= |questions|
        invariant correct == CorrectCount(answers, quizzes[..t]) + CorrectInTopic(answers, t, questions[..q])
        invariant total == TotalCount(quizzes[..t]) + q
      {
        total := total + 1;
        if SelectedAnswer(answers, t, q) == Some(questions[q].correctAnswerIndex) {
          correct := correct + 1;
        }
        assert questions[..q + 1][..q] == questions[..q];
        q := q + 1;
      }
      assert questions[..q] == questions;
      assert quizzes[..t + 1][..t] == quizzes[..t];
      t := t + 1;
    }
    assert quizzes[..t] == quizzes;
    CorrectAtMostTotal(answers, quizzes);
  }

  // ---------------------------------------------------------------------------
  // Percentage
  // ---------------------------------------------------------------------------

  /** The rounded percentage in exact integer arithmetic: ⌊100·c/t + 1/2⌋, and 0 without questions. */
  function Percentage(correct: nat, total: nat): (p: nat) {
    if total == 0 then 0 else (200 * correct + total) / (2 * total)
  }

  /**
    `Math.round((correct / total) * 100) || 0` read with exact real numbers:
    Math.round(x) is ⌊x + 1/2⌋, and with no questions 0/0 is NaN, which `|| 0` turns into 0.
    (Every caller has correct <= total; with total = 0 and correct > 0 JavaScript would give Infinity.)
   */
  function JsRoundedPercentage(correct: nat, total: nat): (p: int)
    requires correct <= total
  {
    if total == 0 then 0 else ((correct as real / total as real) * 100.0 + 0.5).Floor
  }

  lemma FloorOfQuotient(a: nat, b: nat)
    requires b > 0
    ensures (a as real / b as real).Floor == a / b
  {
    var q, r := a / b, a % b;
    assert a as real == q as real * b as real + r as real;
    var x := a as real / b as real;
    assert x == q as real + r as real / b as real;
    assert 0.0 <= r as real / b as real < 1.0;
  }

  /** The integer formula is exactly what the three sites compute. */
  lemma PercentageIsJsRounding(correct: nat, total: nat)
    requires correct <= total
    ensures Percentage(correct, total) == JsRoundedPercentage(correct, total)
  {
    if total > 0 {
      var c, t := correct as real, total as real;
      var scaled := (c / t) * 100.0 + 0.5;
      var exact := (200 * correct + total) as real / (2 * total) as real;
      assert (c / t) * t == c;
      assert scaled * (2.0 * t) == 200.0 * c + t;
      assert exact * (2.0 * t) == 200.0 * c + t;
      assert scaled == exact;
      FloorOfQuotient(200 * correct + total, 2 * total);
    }
  }

  /** The percentage lies in [0, 100]; it is 0 when nothing is correct and 100 when everything is. */
  lemma PercentageRange(correct: nat, total: nat)
    requires correct <= total
    ensures 0 <= Percentage(correct, total) <= 100
    ensures correct == 0 ==> Percentage(correct, total) == 0
    ensures total > 0 && correct == total ==> Percentage(correct, total) == 100
  {
    if total > 0 {
      var a, d := 200 * correct + total, 2 * total;
      if correct == 0 {
        QuotientBetween(a, d, 0);
      } else if correct == total {
        QuotientBetween(a, d, 100);
      } else {
        assert a < d * 101;
        QuotientBelow(a, d, 101);
      }
    }
  }

  lemma QuotientBetween(a: nat, d: nat, k: nat)
    requires d > 0 && d * k <= a < d * (k + 1)
    ensures a / d == k
  {
    QuotientAtLeast(a, d, k);
    QuotientBelow(a, d, k + 1);
  }

  lemma QuotientAtLeast(a: nat, d: nat, k: nat)
    requires d > 0 && d * k <= a
    ensures k <= a / d
  {
    var q, r := a / d, a % d;
    assert a == d * q + r && r < d;
    assert d * k < d * (q + 1);
  }

  lemma QuotientBelow(a: nat, d: nat, k: nat)
    requires d > 0 && a < d * k
    ensures a / d < k
  {
    assert d * (a / d) <= a;
  }

  /** Round half up: the percentage is the integer nearest to 100·c/t, halves going up. */
  lemma PercentageNearest(correct: nat, total: nat)
    requires total > 0
    ensures var p := Percentage(correct, total);
      2 * total * p - total <= 200 * correct < 2 * total * p + total
  {
  }

  /** More correct answers never lower the percentage. */
  lemma PercentageMonotone(c1: nat, c2: nat, total: nat)
    requires c1 <= c2
    ensures Percentage(c1, total) <= Percentage(c2, total)
  {
    if total > 0 {
      DivMonotone(200 * c1 + total, 200 * c2 + total, 2 * total);
    }
  }

  lemma DivMonotone(a: nat, b: nat, d: nat)
    requires a <= b && d > 0
    ensures a / d <= b / d
  {
    assert b == d * (b / d) + b % d;
    QuotientBelow(a, d, b / d + 1);
  }

  // ---------------------------------------------------------------------------
  // Option classification
  // ---------------------------------------------------------------------------

  /** How an option of an answered quiz stands: the right answer, the wrong option picked, or neither. */
  datatype OptionMark = CorrectOption | WrongSelection | Neutral

  /**
    The rule the quiz view, the PDF report and the PDF export share: the
    option at `correctAnswerIndex` is marked correct whatever was picked; a
    picked option that is not the correct one is marked wrong; any other is
    neutral.
   */
  function Classify(optionIndex: nat, selected: Option<int>, correctAnswerIndex: int): (m: OptionMark)
    ensures m == CorrectOption <==> optionIndex == correctAnswerIndex
    ensures m == WrongSelection <==> selected == Some(optionIndex) && optionIndex != correctAnswerIndex
  {
    if optionIndex == correctAnswerIndex then CorrectOption
    else if selected == Some(optionIndex) then WrongSelection
    else Neutral
  }

  /** At most one option of a question is marked wrong. */
  lemma AtMostOneWrong(o1: nat, o2: nat, selected: Option<int>, correctAnswerIndex: int)
    requires Classify(o1, selected, correctAnswerIndex) == WrongSelection
    requires Classify(o2, selected, correctAnswerIndex) == WrongSelection
    ensures o1 == o2
  {
  }

  /**
    Some option of the question is marked wrong exactly when an option inside
    the list was picked and the question is not answered correctly.
   */
  lemma WrongMarkIffMissed(answers: Answers, topicIndex: nat, questionIndex: nat, q: Question)
    ensures var selected := SelectedAnswer(answers, topicIndex, questionIndex);
      (exists k :: 0 <= k < |q.options| && Classify(k, selected, q.correctAnswerIndex) == WrongSelection)
      <==> (selected.Some? && 0 <= selected.value < |q.options|
            && !AnsweredCorrectly(answers, topicIndex, questionIndex, q))
  {
    var selected := SelectedAnswer(answers, topicIndex, questionIndex);
    if selected.Some? && 0 <= selected.value < |q.options| && selected.value != q.correctAnswerIndex {
      var k: nat := selected.value;
      assert Classify(k, selected, q.correctAnswerIndex) == WrongSelection;
    }
  }

  /**
    Some option is marked correct exactly when `correctAnswerIndex` points
    into the option list; nothing checks that it does, and when it does not,
    no option is shown as correct.
   */
  lemma CorrectMarkIffInRange(selected: Option<int>, q: Question)
    ensures (exists k :: 0 <= k < |q.options| && Classify(k, selected, q.correctAnswerIndex) == CorrectOption)
      <==> 0 <= q.correctAnswerIndex < |q.options|
  {
    if 0 <= q.correctAnswerIndex < |q.options| {
      var k: nat := q.correctAnswerIndex;
      assert Classify(k, selected, q.correctAnswerIndex) == CorrectOption;
    }
  }
}
