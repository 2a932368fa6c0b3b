/**
  The session held by App.tsx: the uploaded files, the analysis status and
  result, and the quiz answers with the flag that reveals the results. The
  handlers replace these fields; the text report is built by appending to a
  string inside nested loops; the PDF export shares the score rule and marks
  options with its own if-chain.
 */
module App {
  import opened Wrappers
  import opened Strings
  import opened Types
  import opened Scoring
  import opened GeminiService
  import PdfService

  // ---------------------------------------------------------------------------
  // Filtering
  // ---------------------------------------------------------------------------

  /** `Array.prototype.filter`: the elements that pass, in their original order. */
  function Filter<T>(s: seq<T>, keep: T -> bool): (r: seq<T>)
    ensures |r| <= |s|
    ensures forall k :: 0 <= k < |r| ==> r[k] in s && keep(r[k])
    ensures forall k :: 0 <= k < |s| && keep(s[k]) ==> s[k] in r
    decreases |s|
  {
    if |s| == 0 then []
    else (if keep(s[0]) then [s[0]] else []) + Filter(s[1..], keep)
  }

  /** Filtering a concatenation filters each part: nothing is reordered. */
  lemma {:induction false} FilterConcat<T>(a: seq<T>, b: seq<T>, keep: T -> bool)
    ensures Filter(a + b, keep) == Filter(a, keep) + Filter(b, keep)
    decreases |a|
  {
    if |a| > 0 {
      var head := if keep(a[0]) then [a[0]] else [];
      assert (a + b)[0] == a[0] && (a + b)[1..] == a[1..] + b;
      FilterConcat(a[1..], b, keep);
      calc {
        Filter(a + b, keep);
        head + Filter(a[1..] + b, keep);
        head + (Filter(a[1..], keep) + Filter(b, keep));
        (head + Filter(a[1..], keep)) + Filter(b, keep);
        Filter(a, keep) + Filter(b, keep);
      }
    } else {
      assert a + b == b;
    }
  }

  /** Filtering keeps the length exactly when every element passes. */
  lemma {:induction false} FilterKeepsAll<T>(s: seq<T>, keep: T -> bool)
    ensures |Filter(s, keep)| == |s| <==> forall k :: 0 <= k < |s| ==> keep(s[k])
    decreases |s|
  {
    if |s| > 0 {
      FilterKeepsAll(s[1..], keep);
      if keep(s[0]) {
        forall k | 1 <= k < |s| ensures keep(s[k]) <==> keep(s[1..][k - 1]) { }
      }
    }
  }

  // ---------------------------------------------------------------------------
  // Upload validation
  // ---------------------------------------------------------------------------

  const ValidTypes: seq<string> := ["application/pdf", "image/jpeg", "image/png", "image/jpg"]

  /** 10 MiB. */
  const MaxSize: nat := 10 * 1024 * 1024

  predicate Acceptable(f: BrowserFile) {
    f.mimeType in ValidTypes && f.size <= MaxSize
  }

  function AcceptedFiles(newFiles: seq<BrowserFile>): (accepted: seq<BrowserFile>) {
    Filter(newFiles, Acceptable)
  }

  /**
    A file is kept exactly when its type is one of the four accepted and it
    is at most 10 MiB; the alert is shown exactly when some file is dropped.
   */
  lemma AcceptedFilesSpec(newFiles: seq<BrowserFile>)
    ensures forall f :: f in AcceptedFiles(newFiles) <==>
      f in newFiles && f.mimeType in ["application/pdf", "image/jpeg", "image/png", "image/jpg"]
      && f.size <= 10485760
    ensures |AcceptedFiles(newFiles)| != |newFiles| <==> exists k :: 0 <= k < |newFiles| && !Acceptable(newFiles[k])
  {
    FilterKeepsAll(newFiles, Acceptable);
  }

  /** The upload entry of an accepted file: a generated id, the file, its type and its stripped payload. */
  function Processed(valid: seq<BrowserFile>, ids: seq<string>): (entries: seq<UploadedFile>)
    requires |ids| == |valid|
    ensures |entries| == |valid|
  {
    seq(|valid|, k requires 0 <= k < |valid| =>
      UploadedFile(ids[k], valid[k], None, StripDataUrlPrefix(valid[k].dataUrl), valid[k].mimeType))
  }

  function WithoutId(files: seq<UploadedFile>, id: string): (kept: seq<UploadedFile>) {
    Filter(files, (f: UploadedFile) => f.id != id)
  }

  /** Removing by id drops every entry with that id and keeps every other one, in order. */
  lemma WithoutIdSpec(files: seq<UploadedFile>, id: string, rest: seq<UploadedFile>)
    ensures forall f :: f in WithoutId(files, id) <==> f in files && f.id != id
    ensures WithoutId(files + rest, id) == WithoutId(files, id) + WithoutId(rest, id)
  {
    FilterConcat(files, rest, (f: UploadedFile) => f.id != id);
  }

  // ---------------------------------------------------------------------------
  // Quiz answers
  // ---------------------------------------------------------------------------

  /**
    Recording an option for one question reads back as that option and
    leaves what every other question reads unchanged, since distinct
    positions have distinct keys.
   */
  lemma RecordAnswerIsolated(answers: Answers, t: nat, q: nat, option: int, t2: nat, q2: nat)
    ensures SelectedAnswer(answers[AnswerKey(t, q) := option], t, q) == Some(option)
    ensures (t2, q2) != (t, q) ==>
      SelectedAnswer(answers[AnswerKey(t, q) := option], t2, q2) == SelectedAnswer(answers, t2, q2)
  {
    if (t2, q2) != (t, q) && AnswerKey(t2, q2) == AnswerKey(t, q) {
      AnswerKeyInjective(t2, q2, t, q);
    }
  }

  // ---------------------------------------------------------------------------
  // The plain-text report
  // ---------------------------------------------------------------------------

  const Rule: string := "================================================="
  const Dashes: string := "-------------------------------------------------"

  /** `[ ]`, or `[X]` for the picked option, followed by ` (CORRECTA)` on the correct one. */
  function OptionMark(optionIndex: nat, selected: Option<int>, correctAnswerIndex: int): (mark: string) {
    (if selected == Some(optionIndex) then "[X]" else "[ ]")
    + (if optionIndex == correctAnswerIndex then " (CORRECTA)" else "")
  }

  /** The mark shows the pick and the right answer independently, and agrees with the shared classification. */
  lemma OptionMarkSpec(optionIndex: nat, selected: Option<int>, correctAnswerIndex: int)
    ensures var m := OptionMark(optionIndex, selected, correctAnswerIndex);
      (m[..3] == "[X]" <==> selected == Some(optionIndex))
      && (m[..3] == "[ ]" <==> selected != Some(optionIndex))
      && (m[3..] == " (CORRECTA)" <==> Classify(optionIndex, selected, correctAnswerIndex) == CorrectOption)
      && (m == "[X]" <==> Classify(optionIndex, selected, correctAnswerIndex) == WrongSelection)
  {
    var m := OptionMark(optionIndex, selected, correctAnswerIndex);
    if optionIndex == correctAnswerIndex {
      assert |m| == 14;
    } else {
      assert |m| == 3;
    }
  }

  function OptionLine(optionIndex: nat, option: string, selected: Option<int>, correctAnswerIndex: int): (line: string) {
    "   " + OptionMark(optionIndex, selected, correctAnswerIndex) + " " + option + "\n"
  }

  /** The first `n` option lines of a question. */
  function OptionLines(q: Question, selected: Option<int>, n: nat): (lines: string)
    requires n <= |q.options|
    decreases n
  {
    if n == 0 then ""
    else OptionLines(q, selected, n - 1) + OptionLine(n - 1, q.options[n - 1], selected, q.correctAnswerIndex)
  }

  /** The verdict line, written only when an answer was recorded. */
  function VerdictLine(selected: Option<int>, correctAnswerIndex: int): (line: string) {
    if selected.None? then ""
    else "   > Tu respuesta fue: " + (if selected == Some(correctAnswerIndex) then "Correcta" else "Incorrecta") + "\n"
  }

  /** No answer, no verdict; otherwise the verdict reads `Correcta` exactly when the question counts as correct. */
  lemma VerdictSpec(answers: Answers, topicIndex: nat, questionIndex: nat, q: Question)
    ensures var v := VerdictLine(SelectedAnswer(answers, topicIndex, questionIndex), q.correctAnswerIndex);
      (v == "" <==> SelectedAnswer(answers, topicIndex, questionIndex).None?)
      && (v == "   > Tu respuesta fue: Correcta\n" <==> AnsweredCorrectly(answers, topicIndex, questionIndex, q))
  {
    var v := VerdictLine(SelectedAnswer(answers, topicIndex, questionIndex), q.correctAnswerIndex);
    if v != "" && !AnsweredCorrectly(answers, topicIndex, questionIndex, q) {
      assert v[23..] == "Incorrecta\n";
    }
  }

  function QuestionHead(questionIndex: nat, q: Question): (head: string) {
    "\n" + NatToString(questionIndex + 1) + ". " + q.text + "\n"
  }

  function ExplanationLine(q: Question): (line: string) {
    "   > Explicación: " + q.explanation + "\n"
  }

  /** A question: its text, every option, the verdict if answered, and always the explanation. */
  function QuestionBlock(topicIndex: nat, questionIndex: nat, q: Question, answers: Answers): (block: string) {
    var selected := SelectedAnswer(answers, topicIndex, questionIndex);
    QuestionHead(questionIndex, q) + OptionLines(q, selected, |q.options|)
    + VerdictLine(selected, q.correctAnswerIndex) + ExplanationLine(q)
  }

  function TopicHead(topicIndex: nat, quiz: QuizTopic): (head: string) {
    "\nTEMA " + NatToString(topicIndex + 1) + ": " + ToUpperCase(quiz.topic) + "\n" + Dashes + "\n"
  }

  /** A topic's heading followed by its first `n` questions. */
  function TopicBlock(topicIndex: nat, quiz: QuizTopic, answers: Answers, n: nat): (block: string)
    requires n <= |quiz.questions|
    decreases n
  {
    if n == 0 then TopicHead(topicIndex, quiz)
    else TopicBlock(topicIndex, quiz, answers, n - 1) + QuestionBlock(topicIndex, n - 1, quiz.questions[n - 1], answers)
  }

  function ReportHead(result: AnalysisResult, date: string): (head: string) {
    "A+ ESTUDIA MEJOR - REPORTE DE ANÁLISIS\n"
    + "Generado el: " + date + "\n"
    + Rule + "\n\n"
    + "RESUMEN\n"
    + Rule + "\n"
    + result.summary + "\n\n"
    + "EVALUACIÓN (QUIZ)\n"
    + Rule + "\n"
  }

  /** The report with its first `n` topics. */
  function Report(result: AnalysisResult, answers: Answers, date: string, n: nat): (content: string)
    requires n <= |result.quizzes|
    decreases n
  {
    if n == 0 then ReportHead(result, date)
    else Report(result, answers, date, n - 1)
         + TopicBlock(n - 1, result.quizzes[n - 1], answers, |result.quizzes[n - 1].questions|)
  }

  /** The lines of one question, appended in turn to `content`. */
  method AppendQuestion(content: string, topicIndex: nat, questionIndex: nat, q: Question, answers: Answers)
    returns (r: string)
    ensures r == content + QuestionBlock(topicIndex, questionIndex, q, answers)
  {
    var selected := SelectedAnswer(answers, topicIndex, questionIndex);
    var isCorrect := selected == Some(q.correctAnswerIndex);
    var head := content + QuestionHead(questionIndex, q);
    r := head;
    var k := 0;
    while k < |q.options|
      invariant 0 <= k <= |q.options|
      invariant r == head + OptionLines(q, selected, k)
    {
      var mark := "[ ]";
      if selected == Some(k) {
        mark := "[X]";
      }
      if k == q.correctAnswerIndex {
        mark := mark + " (CORRECTA)";
      }
      assert mark == OptionMark(k, selected, q.correctAnswerIndex);
      var line := "   " + mark + " " + q.options[k] + "\n";
      assert head + OptionLines(q, selected, k + 1) == (head + OptionLines(q, selected, k)) + line;
      r := r + line;
      k := k + 1;
    }
    var verdict := "";
    if selected.Some? {
      verdict := "   > Tu respuesta fue: " + (if isCorrect then "Correcta" else "Incorrecta") + "\n";
    }
    assert verdict == VerdictLine(selected, q.correctAnswerIndex);
    r := r + verdict;
    r := r + ExplanationLine(q);
    AppendAssociates(content, QuestionHead(questionIndex, q), OptionLines(q, selected, |q.options|),
                     verdict, ExplanationLine(q));
  }

  lemma AppendAssociates3(a: string, b: string, c: string)
    ensures (a + b) + c == a + (b + c)
  {
  }

  lemma AppendAssociates(a: string, b: string, c: string, d: string, e: string)
    ensures (((a + b) + c) + d) + e == a + (((b + c) + d) + e)
  {
  }

  lemma TopicBlockStep(content: string, topicIndex: nat, quiz: QuizTopic, answers: Answers, j: nat)
    requires j < |quiz.questions|
    ensures content + TopicBlock(topicIndex, quiz, answers, j + 1)
         == (content + TopicBlock(topicIndex, quiz, answers, j)) + QuestionBlock(topicIndex, j, quiz.questions[j], answers)
  {
    AppendAssociates3(content, TopicBlock(topicIndex, quiz, answers, j), QuestionBlock(topicIndex, j, quiz.questions[j], answers));
  }

  /** The heading of one topic and its questions, appended in turn to `content`. */
  method AppendTopic(content: string, topicIndex: nat, quiz: QuizTopic, answers: Answers) returns (r: string)
    ensures r == content + TopicBlock(topicIndex, quiz, answers, |quiz.questions|)
  {
    r := content + TopicHead(topicIndex, quiz);
    var j := 0;
    while j < |quiz.questions|
      invariant 0 <= j <= |quiz.questions|
      invariant r == content + TopicBlock(topicIndex, quiz, answers, j)
    {
      r := AppendQuestion(r, topicIndex, j, quiz.questions[j], answers);
      TopicBlockStep(content, topicIndex, quiz, answers, j);
      j := j + 1;
    }
  }

  /** The fixed opening of the report: title, date, summary, and the quiz heading. */
  method StartReport(result: AnalysisResult, date: string) returns (content: string)
    ensures content == ReportHead(result, date)
  {
    content := "A+ ESTUDIA MEJOR - REPORTE DE ANÁLISIS\n";
    content := content + "Generado el: " + date + "\n";
    content := content + Rule + "\n\n";
    content := content + "RESUMEN\n";
    content := content + Rule + "\n";
    content := content + result.summary + "\n\n";
    content := content + "EVALUACIÓN (QUIZ)\n";
    content := content + Rule + "\n";
  }

  lemma ReportStep(result: AnalysisResult, answers: Answers, date: string, i: nat)
    requires i < |result.quizzes|
    ensures Report(result, answers, date, i + 1)
         == Report(result, answers, date, i) + TopicBlock(i, result.quizzes[i], answers, |result.quizzes[i].questions|)
  {
  }

  /**
    The content of `handleDownloadTxt`, built as the source builds it: the
    opening, then for every topic and question the lines appended in turn.
   */
  method BuildTxtReport(result: AnalysisResult, answers: Answers, date: string) returns (content: string)
    ensures content == Report(result, answers, date, |result.quizzes|)
  {
    content := StartReport(result, date);
    var i := 0;
    while i < |result.quizzes|
      invariant 0 <= i <= |result.quizzes|
      invariant content == Report(result, answers, date, i)
    {
      content := AppendTopic(content, i, result.quizzes[i], answers);
      ReportStep(result, answers, date, i);
      i := i + 1;
    }
  }

  // ---------------------------------------------------------------------------
  // The PDF export
  // ---------------------------------------------------------------------------

  /**
    The option if-chain of `handleDownloadQuizPDF` as written: `✓ ` bold
    green for the correct option, `X ` red (in the normal font) for a wrong
    pick, `O ` otherwise. The third branch needs a pick that is neither
    wrong nor correct and is never taken.
   */
  function ExportOptionStyle(optionIndex: nat, selected: Option<int>, correctAnswerIndex: int): (style: PdfService.OptionStyle) {
    if optionIndex == correctAnswerIndex then PdfService.OptionStyle("✓ ", "#16a34a", PdfService.Bold)
    else if selected == Some(optionIndex) && optionIndex != correctAnswerIndex then
      PdfService.OptionStyle("X ", "#dc2626", PdfService.Normal)
    else if selected == Some(optionIndex) then PdfService.OptionStyle("✓ ", "#16a34a", PdfService.Normal)
    else PdfService.OptionStyle("O ", "#475569", PdfService.Normal)
  }

  /**
    The export marks options as the classification says, and with the same
    prefix as the PDF report of the quiz service; only colours and weights
    differ.
   */
  lemma ExportOptionStyleSpec(optionIndex: nat, selected: Option<int>, correctAnswerIndex: int)
    ensures var style := ExportOptionStyle(optionIndex, selected, correctAnswerIndex);
      var mark := Classify(optionIndex, selected, correctAnswerIndex);
      (style.prefix == "✓ " <==> mark == CorrectOption)
      && (style.prefix == "X " <==> mark == WrongSelection)
      && (style.prefix == "O " <==> mark == Neutral)
      && (style.fontStyle == PdfService.Bold <==> mark == CorrectOption)
      && style.prefix == PdfService.OptionStyleAsWritten(optionIndex, selected, correctAnswerIndex).prefix
  {
  }

  /** The score line of the export: `Puntuación Total: ${percentage}% (${correct}/${total})`. */
  method ExportScore(result: AnalysisResult, answers: Answers)
    returns (correct: nat, total: nat, percentage: nat, line: string)
    ensures correct == CorrectCount(answers, result.quizzes) && total == TotalCount(result.quizzes)
    ensures percentage == Percentage(correct, total)
    ensures correct <= total && percentage <= 100
    ensures total == 0 ==> percentage == 0
    ensures line == "Puntuación Total: " + NatToString(percentage) + "% (" + NatToString(correct) + "/" + NatToString(total) + ")"
  {
    correct, total := CalculateScore(result.quizzes, answers);
    percentage := Percentage(correct, total);
    PercentageRange(correct, total);
    line := "Puntuación Total: " + NatToString(percentage) + "% (" + NatToString(correct) + "/" + NatToString(total) + ")";
  }

  // ---------------------------------------------------------------------------
  // The session
  // ---------------------------------------------------------------------------

  class AppState {
    var files: seq<UploadedFile>
    var status: AppStatus
    var result: Option<AnalysisResult>
    var quizAnswers: Answers
    var quizShowResults: bool

    /** The audio status is never entered, and a completed analysis always has its result. */
    ghost predicate Valid()
      reads this
    {
      status != GeneratingAudio && (status == Completed ==> result.Some?)
    }

    constructor ()
      ensures Valid()
      ensures files == [] && status == Idle && result == None && quizAnswers == map[] && !quizShowResults
    {
      files := [];
      status := Idle;
      result := None;
      quizAnswers := map[];
      quizShowResults := false;
    }

    /**
      `handleFilesAdded`: the accepted files are turned into entries (one id
      per file, drawn by the caller) and appended after the existing ones.
     */
    method FilesAdded(newFiles: seq<BrowserFile>, ids: seq<string>) returns (warned: bool)
      requires Valid() && |ids| == |AcceptedFiles(newFiles)|
      modifies this
      ensures Valid()
      ensures warned <==> exists k :: 0 <= k < |newFiles| && !Acceptable(newFiles[k])
      ensures files == old(files) + Processed(AcceptedFiles(newFiles), ids)
      ensures status == old(status) && result == old(result)
      ensures quizAnswers == old(quizAnswers) && quizShowResults == old(quizShowResults)
    {
      var validFiles := AcceptedFiles(newFiles);
      AcceptedFilesSpec(newFiles);
      warned := |validFiles| != |newFiles|;
      files := files + Processed(validFiles, ids);
    }

    /** `handleRemoveFile`. */
    method RemoveFile(id: string)
      requires Valid()
      modifies this
      ensures Valid()
      ensures files == WithoutId(old(files), id)
      ensures status == old(status) && result == old(result)
      ensures quizAnswers == old(quizAnswers) && quizShowResults == old(quizShowResults)
    {
      files := WithoutId(files, id);
    }

    /** The synchronous start of `handleAnalyze`: nothing without files, otherwise a fresh quiz and the processing status. */
    method StartAnalysis() returns (started: bool)
      requires Valid()
      modifies this
      ensures Valid()
      ensures started <==> |files| > 0
      ensures !started ==> status == old(status) && quizAnswers == old(quizAnswers) && quizShowResults == old(quizShowResults)
      ensures started ==> status == Processing && quizAnswers == map[] && !quizShowResults
      ensures files == old(files) && result == old(result)
    {
      if |files| == 0 {
        return false;
      }
      status := Processing;
      quizAnswers := map[];
      quizShowResults := false;
      return true;
    }

    /** The end of `handleAnalyze`: the new result and COMPLETED, or ERROR with the previous result kept. */
    method FinishAnalysis(outcome: Result<AnalysisResult, AnalysisError>)
      requires Valid() && status == Processing
      modifies this
      ensures Valid()
      ensures outcome.Success? ==> status == Completed && result == Some(outcome.value)
      ensures outcome.Failure? ==> status == Error && result == old(result)
      ensures files == old(files) && quizAnswers == old(quizAnswers) && quizShowResults == old(quizShowResults)
    {
      match outcome {
        case Success(data) =>
          result := Some(data);
          status := Completed;
        case Failure(_) =>
          status := Error;
      }
    }

    /** `handleAnalyze` with the service call made in between. */
    method Analyze(apiKey: Option<string>, generate: Request -> Reply, parse: string -> Option<AnalysisResult>)
      requires Valid()
      modifies this
      ensures Valid()
      ensures files == old(files)
      ensures |files| == 0 ==>
        status == old(status) && result == old(result) && quizAnswers == old(quizAnswers)
        && quizShowResults == old(quizShowResults)
      ensures |files| > 0 ==>
        var outcome := AnalyzeDocuments(files, apiKey, generate, parse);
        quizAnswers == map[] && !quizShowResults
        && (outcome.Success? ==> status == Completed && result == Some(outcome.value))
        && (outcome.Failure? ==> status == Error && result == old(result))
    {
      var started := StartAnalysis();
      if started {
        var outcome := AnalyzeDocuments(files, apiKey, generate, parse);
        FinishAnalysis(outcome);
      }
    }

    /** `handleQuizAnswer`. */
    method QuizAnswer(key: string, index: int)
      requires Valid()
      modifies this
      ensures Valid()
      ensures quizAnswers == old(quizAnswers)[key := index]
      ensures files == old(files) && status == old(status) && result == old(result)
      ensures quizShowResults == old(quizShowResults)
    {
      quizAnswers := quizAnswers[key := index];
    }

    /** `handleQuizFinish`. */
    method QuizFinish()
      requires Valid()
      modifies this
      ensures Valid()
      ensures quizShowResults
      ensures files == old(files) && status == old(status) && result == old(result) && quizAnswers == old(quizAnswers)
    {
      quizShowResults := true;
    }

    /** `handleQuizReset`. */
    method QuizReset()
      requires Valid()
      modifies this
      ensures Valid()
      ensures quizAnswers == map[] && !quizShowResults
      ensures files == old(files) && status == old(status) && result == old(result)
    {
      quizAnswers := map[];
      quizShowResults := false;
    }

    /** "Nuevo Análisis", offered only once an analysis is complete: everything back to the start. */
    method NewAnalysis()
      requires Valid() && status == Completed
      modifies this
      ensures Valid()
      ensures status == Idle && result == None && files == [] && quizAnswers == map[] && !quizShowResults
    {
      status := Idle;
      result := None;
      files := [];
      quizAnswers := map[];
      quizShowResults := false;
    }

    /** `handleDownloadTxt`: nothing without a result. */
    method DownloadTxt(date: string) returns (content: Option<string>)
      ensures result.None? ==> content == None
      ensures result.Some? ==> content == Some(Report(result.value, quizAnswers, date, |result.value.quizzes|))
    {
      if result.None? {
        return None;
      }
      var text := BuildTxtReport(result.value, quizAnswers, date);
      return Some(text);
    }
  }
}
