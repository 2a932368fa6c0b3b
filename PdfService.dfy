/**
  The quiz report of services/pdfService.ts: a document with a page count
  and a vertical cursor `y`. Every block of text is preceded by a page-break
  check that opens a new page when the block would run into the bottom
  margin; drawing a block moves the cursor down by a fixed height computed
  from its number of lines. At the end every page gets a footer.

  jsPDF itself is not modelled: the document is the page count, the cursor
  and the list of text blocks placed so far, and `splitTextToSize` is a
  parameter that gives the number of lines of a text in a font and width.
  Heights are exact `real`s.
 */
module PdfService {
  import opened Wrappers
  import opened Strings
  import opened Types
  import opened Scoring

  const Margin: real := 20.0
  /** Where the cursor stands on a fresh page. */
  const TopOfPage: real := 20.0

  const PrimaryColor: string := "#2563eb"
  const SecondaryColor: string := "#1e293b"
  const TextColor: string := "#334155"
  const SubtextColor: string := "#64748b"
  const CorrectColor: string := "#16a34a"
  const IncorrectColor: string := "#dc2626"

  const Brand: string := "A+ Estudia Mejor"

  datatype FontStyle = Normal | Bold | Italic

  datatype Font = Font(size: nat, style: FontStyle)

  /** `doc.splitTextToSize(text, width).length` for the font in use. */
  type LineCounter = (string, Font, real) -> nat

  // ---------------------------------------------------------------------------
  // Score card
  // ---------------------------------------------------------------------------

  /** The colour of the percentage: green from 60 up, red below. */
  function ScoreColor(percentage: nat): (color: string)
    ensures color == CorrectColor <==> percentage >= 60
    ensures color == IncorrectColor <==> percentage < 60
  {
    if percentage >= 60 then CorrectColor else IncorrectColor
  }

  datatype ScoreCard = ScoreCard(
    correct: nat,
    total: nat,
    percentage: nat,
    color: string,
    percentageText: string,   // `${scorePercentage}%`
    countText: string)        // `${correctCount} de ${totalCount} respuestas correctas`

  function ScoreCardOf(correct: nat, total: nat): (card: ScoreCard) {
    var p := Percentage(correct, total);
    ScoreCard(correct, total, p, ScoreColor(p), NatToString(p) + "%",
              NatToString(correct) + " de " + NatToString(total) + " respuestas correctas")
  }

  // ---------------------------------------------------------------------------
  // Option prefix
  // ---------------------------------------------------------------------------

  datatype OptionStyle = OptionStyle(prefix: string, color: string, fontStyle: FontStyle)

  /**
    The if-chain of the option loop as written. Its third branch repeats the
    test of the second and can never be taken.
   */
  function OptionStyleAsWritten(optionIndex: nat, selected: Option<int>, correctAnswerIndex: int): (style: OptionStyle) {
    var isSelected := selected == Some(optionIndex);
    var isCorrect := optionIndex == correctAnswerIndex;
    if isCorrect then OptionStyle("✓ ", CorrectColor, Bold)
    else if isSelected then OptionStyle("X ", IncorrectColor, Bold)
    else if isSelected then OptionStyle("O ", IncorrectColor, Normal)
    else OptionStyle("O ", SubtextColor, Normal)
  }

  /**
    The prefix is the option's classification: `✓ ` for the correct option,
    `X ` for a wrong pick, `O ` otherwise. Red text only ever comes with `X `,
    so the fallback branch never shows.
   */
  lemma OptionStyleFollowsMark(optionIndex: nat, selected: Option<int>, correctAnswerIndex: int)
    ensures var style := OptionStyleAsWritten(optionIndex, selected, correctAnswerIndex);
      var mark := Classify(optionIndex, selected, correctAnswerIndex);
      (style.prefix == "✓ " <==> mark == CorrectOption)
      && (style.prefix == "X " <==> mark == WrongSelection)
      && (style.prefix == "O " <==> mark == Neutral)
      && (style.color == IncorrectColor <==> style.prefix == "X ")
      && (style.fontStyle == Bold <==> mark != Neutral)
  {
  }

  // ---------------------------------------------------------------------------
  // What the report draws, in order
  // ---------------------------------------------------------------------------

  /** A block of text the report draws below the score card. */
  datatype Item =
    | TopicTitle(text: string)
    | QuestionText(text: string)
    | OptionText(text: string, style: OptionStyle)
    | ExplanationText(text: string)

  function TopicItem(topicIndex: nat, quiz: QuizTopic): (item: Item) {
    TopicTitle("Tema " + NatToString(topicIndex + 1) + ": " + quiz.topic)
  }

  function QuestionItem(questionIndex: nat, q: Question): (item: Item) {
    QuestionText(NatToString(questionIndex + 1) + ". " + q.text)
  }

  /** `${prefix} ${opt}`: the prefix already ends in a space, so two spaces precede the option. */
  function OptionItem(optionIndex: nat, option: string, selected: Option<int>, correctAnswerIndex: int): (item: Item) {
    var style := OptionStyleAsWritten(optionIndex, selected, correctAnswerIndex);
    OptionText(style.prefix + " " + option, style)
  }

  function ExplanationItem(q: Question): (item: Item) {
    ExplanationText("Explicación: " + q.explanation)
  }

  /**
    One step of the content loops: the cursor moves down with nothing drawn
    (`y += dy`), or a block is drawn right after its page-break check.
   */
  datatype Step = Gap(dy: real) | Block(item: Item)

  /** The first `n` options of a question, each a block of its own. */
  function OptionSteps(q: Question, selected: Option<int>, n: nat): (steps: seq<Step>)
    requires n <= |q.options|
    ensures |steps| == n
  {
    seq(n, k requires 0 <= k < n => Block(OptionItem(k, q.options[k], selected, q.correctAnswerIndex)))
  }

  /** A question: its text, every option, a 2-unit gap, then the explanation. */
  function QuestionSteps(topicIndex: nat, questionIndex: nat, q: Question, answers: Answers): (steps: seq<Step>) {
    [Block(QuestionItem(questionIndex, q))]
    + OptionSteps(q, SelectedAnswer(answers, topicIndex, questionIndex), |q.options|)
    + [Gap(2.0), Block(ExplanationItem(q))]
  }

  /** A topic's title, the 12 units under its rule, then its first `n` questions. */
  function TopicSteps(topicIndex: nat, quiz: QuizTopic, answers: Answers, n: nat): (steps: seq<Step>)
    requires n <= |quiz.questions|
    decreases n
  {
    if n == 0 then [Block(TopicItem(topicIndex, quiz)), Gap(12.0)]
    else TopicSteps(topicIndex, quiz, answers, n - 1) + QuestionSteps(topicIndex, n - 1, quiz.questions[n - 1], answers)
  }

  /** A whole topic, followed by the 10 units between topics. */
  function WholeTopicSteps(topicIndex: nat, quiz: QuizTopic, answers: Answers): (steps: seq<Step>) {
    TopicSteps(topicIndex, quiz, answers, |quiz.questions|) + [Gap(10.0)]
  }

  /** The header lines (10, 8 and 15 units) and the score card (50 units). */
  const HeaderSteps: seq<Step> := [Gap(10.0), Gap(8.0), Gap(15.0), Gap(50.0)]

  /** The first `n` topics. */
  function ContentSteps(quizzes: seq<QuizTopic>, answers: Answers, n: nat): (steps: seq<Step>)
    requires n <= |quizzes|
    decreases n
  {
    if n == 0 then []
    else ContentSteps(quizzes, answers, n - 1) + WholeTopicSteps(n - 1, quizzes[n - 1], answers)
  }

  /** The whole report: the header and score card, then every topic. */
  function DocSteps(quizzes: seq<QuizTopic>, answers: Answers): (steps: seq<Step>) {
    HeaderSteps + ContentSteps(quizzes, answers, |quizzes|)
  }

  /** The blocks of a run of steps, in order. */
  function BlocksOf(steps: seq<Step>): (items: seq<Item>)
    decreases |steps|
  {
    if steps == [] then []
    else
      var last := steps[|steps| - 1];
      BlocksOf(steps[..|steps| - 1]) + (if last.Block? then [last.item] else [])
  }

  /** Within a question at most one option is prefixed `X `, and the correct one always gets `✓ `. */
  lemma OneCrossAtMost(q: Question, selected: Option<int>)
    ensures var steps := OptionSteps(q, selected, |q.options|);
      forall a, b :: 0 <= a < b < |steps| ==> !(steps[a].item.style.prefix == "X " && steps[b].item.style.prefix == "X ")
    ensures var steps := OptionSteps(q, selected, |q.options|);
      forall k :: 0 <= k < |steps| && k == q.correctAnswerIndex ==> steps[k].item.style.prefix == "✓ "
  {
    var steps := OptionSteps(q, selected, |q.options|);
    forall a, b | 0 <= a < b < |steps|
      ensures !(steps[a].item.style.prefix == "X " && steps[b].item.style.prefix == "X ")
    {
      OptionStyleFollowsMark(a, selected, q.correctAnswerIndex);
      OptionStyleFollowsMark(b, selected, q.correctAnswerIndex);
      if steps[a].item.style.prefix == "X " && steps[b].item.style.prefix == "X " {
        AtMostOneWrong(a, b, selected, q.correctAnswerIndex);
      }
    }
  }

  // ---------------------------------------------------------------------------
  // Heights
  // ---------------------------------------------------------------------------

  /** The page height, `maxWidth`, and `splitTextToSize` counting lines. */
  datatype Measure = Measure(pageHeight: real, maxWidth: real, lineCount: LineCounter)

  /**
    `questionHeight`, `optHeight` and `explHeight`: 6, 5 and 4.5 units per
    line, in the font and width each is split with. A title is one line and
    has no height of its own.
   */
  function Height(item: Item, m: Measure): (h: real)
    ensures h >= 0.0
  {
    match item
    case TopicTitle(_) => 0.0
    case QuestionText(t) => m.lineCount(t, Font(11, Bold), m.maxWidth) as real * 6.0
    case OptionText(t, style) => m.lineCount(t, Font(10, style.fontStyle), m.maxWidth - 10.0) as real * 5.0
    case ExplanationText(t) => m.lineCount(t, Font(9, Italic), m.maxWidth - 15.0) as real * 4.5
  }

  /** The height the block's page-break check asks for. */
  function Reserve(item: Item, m: Measure): (h: real) {
    match item
    case TopicTitle(_) => 40.0
    case QuestionText(_) => Height(item, m) + 40.0
    case OptionText(_, _) => Height(item, m)
    case ExplanationText(_) => Height(item, m) + 10.0
  }

  /** How far below the cursor the block's first line is drawn. */
  function Offset(item: Item): (dy: real) {
    if item.ExplanationText? then 2.0 else 0.0
  }

  /** How far the cursor moves down past the block. */
  function BlockAdvance(item: Item, m: Measure): (dy: real)
    ensures dy > Offset(item)
  {
    match item
    case TopicTitle(_) => 8.0
    case QuestionText(_) => Height(item, m) + 4.0
    case OptionText(_, _) => Height(item, m) + 2.0
    case ExplanationText(_) => Height(item, m) + 14.0
  }

  // ---------------------------------------------------------------------------
  // Layout: where every block lands
  // ---------------------------------------------------------------------------

  /** A block drawn on page `page` with its first line at height `y`. */
  datatype Placement = Placement(page: nat, y: real, item: Item)

  /** The last page and the height `y` on it. */
  datatype Cursor = Cursor(page: nat, y: real)

  /** The blocks placed so far and the cursor. */
  datatype Layout = Layout(placed: seq<Placement>, at: Cursor)

  /** `p` comes before position (`page`, `y`) in reading order. */
  predicate Precedes(p: Placement, page: nat, y: real) {
    p.page < page || (p.page == page && p.y < y)
  }

  /** Every placement comes before every later one. */
  predicate Ordered(ps: seq<Placement>) {
    forall a, b :: 0 <= a < b < |ps| ==> Precedes(ps[a], ps[b].page, ps[b].y)
  }

  function Items(ps: seq<Placement>): (items: seq<Item>)
    ensures |items| == |ps|
  {
    seq(|ps|, k requires 0 <= k < |ps| => ps[k].item)
  }

  lemma ItemsSnoc(ps: seq<Placement>, p: Placement)
    ensures Items(ps + [p]) == Items(ps) + [p.item]
  {
  }

  /** `checkPageBreak(heightNeeded)` on the cursor: a new page, at its top, when the block would reach the bottom margin. */
  function AfterCheck(c: Cursor, heightNeeded: real, pageHeight: real): (c': Cursor) {
    if c.y + heightNeeded > pageHeight - Margin then Cursor(c.page + 1, TopOfPage) else c
  }

  /** One step: a gap moves the cursor; a block is checked for, drawn at the cursor (plus its offset) and stepped past. */
  function StepOnce(l: Layout, s: Step, m: Measure): (after: Layout) {
    match s
    case Gap(dy) => Layout(l.placed, Cursor(l.at.page, l.at.y + dy))
    case Block(item) =>
      var c := AfterCheck(l.at, Reserve(item, m), m.pageHeight);
      Layout(l.placed + [Placement(c.page, c.y + Offset(item), item)], Cursor(c.page, c.y + BlockAdvance(item, m)))
  }

  /** The steps taken one after another from `l`. */
  function Run(l: Layout, steps: seq<Step>, m: Measure): (after: Layout)
    decreases |steps|
  {
    if steps == [] then l
    else StepOnce(Run(l, steps[..|steps| - 1], m), steps[|steps| - 1], m)
  }

  lemma RunSnoc(l: Layout, steps: seq<Step>, s: Step, m: Measure)
    ensures Run(l, steps + [s], m) == StepOnce(Run(l, steps, m), s, m)
  {
    assert (steps + [s])[..|steps|] == steps;
  }

  /** Running two lists of steps is running the first, then the second from where it ended. */
  lemma {:induction false} RunConcat(l: Layout, a: seq<Step>, b: seq<Step>, m: Measure)
    ensures Run(l, a + b, m) == Run(Run(l, a, m), b, m)
    decreases |b|
  {
    if b == [] {
      assert a + b == a;
    } else {
      var b' := b[..|b| - 1];
      assert a + b == (a + b') + [b[|b| - 1]];
      assert b == b' + [b[|b| - 1]];
      RunConcat(l, a, b', m);
      RunSnoc(l, a + b', b[|b| - 1], m);
      RunSnoc(Run(l, a, m), b', b[|b| - 1], m);
    }
  }

  /** A run adds exactly its blocks, in order, after the blocks already placed. */
  lemma {:induction false} RunItems(l: Layout, steps: seq<Step>, m: Measure)
    ensures Items(Run(l, steps, m).placed) == Items(l.placed) + BlocksOf(steps)
    decreases |steps|
  {
    if steps != [] {
      var prefix, last := steps[..|steps| - 1], steps[|steps| - 1];
      RunItems(l, prefix, m);
      var r := Run(l, prefix, m);
      if last.Block? {
        var c := AfterCheck(r.at, Reserve(last.item, m), m.pageHeight);
        ItemsSnoc(r.placed, Placement(c.page, c.y + Offset(last.item), last.item));
      }
    }
  }

  /**
    A run keeps the blocks already placed, never goes back a page, opens at
    most one page per block, puts its blocks on the pages from where it
    started to where it ends, and ends on the page of its last block.
   */
  lemma {:induction false} RunPages(l: Layout, steps: seq<Step>, m: Measure)
    ensures var r := Run(l, steps, m);
      |l.placed| <= |r.placed| && r.placed[..|l.placed|] == l.placed
      && l.at.page <= r.at.page <= l.at.page + (|r.placed| - |l.placed|)
      && (forall k :: |l.placed| <= k < |r.placed| ==> l.at.page <= r.placed[k].page <= r.at.page)
      && (|r.placed| > |l.placed| ==> r.placed[|r.placed| - 1].page == r.at.page)
    decreases |steps|
  {
    if steps != [] {
      RunPages(l, steps[..|steps| - 1], m);
    }
  }

  /** A block either fits, above the bottom margin, on the page it continues, or opens the next page and starts at its top. */
  predicate PlacedAfterCheck(p: Placement, previousPage: nat, m: Measure) {
    var top := p.y - Offset(p.item);
    (p.page == previousPage && top + Reserve(p.item, m) <= m.pageHeight - Margin)
    || (p.page == previousPage + 1 && top == TopOfPage)
  }

  /** The page the cursor was on before block `k`: that of the block before it, or `firstPage` for the first. */
  function PreviousPage(ps: seq<Placement>, k: nat, firstPage: nat): (page: nat)
    requires k < |ps|
  {
    if k == 0 then firstPage else ps[k - 1].page
  }

  /** Every block was placed as its page-break check promises. */
  predicate BlocksFit(ps: seq<Placement>, firstPage: nat, m: Measure) {
    forall k :: 0 <= k < |ps| ==> PlacedAfterCheck(ps[k], PreviousPage(ps, k, firstPage), m)
  }

  /** A block drawn right after its check is placed as the check promises. */
  lemma AfterCheckPlaces(c: Cursor, item: Item, m: Measure)
    ensures var at := AfterCheck(c, Reserve(item, m), m.pageHeight);
      PlacedAfterCheck(Placement(at.page, at.y + Offset(item), item), c.page, m)
  {
  }

  /** Appending a block placed as its check promises keeps every block fitting. */
  lemma BlocksFitSnoc(ps: seq<Placement>, p: Placement, firstPage: nat, m: Measure)
    requires BlocksFit(ps, firstPage, m)
    requires PlacedAfterCheck(p, LastPage(ps, firstPage), m)
    ensures BlocksFit(ps + [p], firstPage, m)
  {
    var qs := ps + [p];
    forall k | 0 <= k < |qs|
      ensures PlacedAfterCheck(qs[k], PreviousPage(qs, k, firstPage), m)
    {
      if k < |ps| {
        assert qs[k] == ps[k];
        assert PreviousPage(qs, k, firstPage) == PreviousPage(ps, k, firstPage);
      } else {
        assert qs[k] == p;
      }
    }
  }

  /** The page the cursor is on after the blocks `ps`: that of the last one, or `firstPage` before any. */
  function LastPage(ps: seq<Placement>, firstPage: nat): (page: nat) {
    if |ps| == 0 then firstPage else ps[|ps| - 1].page
  }

  /** One step keeps every block fitting and the cursor on the page of the last block. */
  lemma StepKeepsFit(l: Layout, s: Step, firstPage: nat, m: Measure)
    requires BlocksFit(l.placed, firstPage, m) && l.at.page == LastPage(l.placed, firstPage)
    ensures var r := StepOnce(l, s, m);
      BlocksFit(r.placed, firstPage, m) && r.at.page == LastPage(r.placed, firstPage)
  {
    if s.Block? {
      var at := AfterCheck(l.at, Reserve(s.item, m), m.pageHeight);
      var p := Placement(at.page, at.y + Offset(s.item), s.item);
      assert StepOnce(l, s, m).placed == l.placed + [p];
      AfterCheckPlaces(l.at, s.item, m);
      BlocksFitSnoc(l.placed, p, firstPage, m);
    }
  }

  /** Every block of a run from a blank layout was placed as its page-break check promises. */
  lemma {:induction false} RunBlocksFit(c: Cursor, steps: seq<Step>, m: Measure)
    ensures BlocksFit(Run(Layout([], c), steps, m).placed, c.page, m)
    ensures Run(Layout([], c), steps, m).at.page == LastPage(Run(Layout([], c), steps, m).placed, c.page)
    decreases |steps|
  {
    if steps != [] {
      var prefix, last := steps[..|steps| - 1], steps[|steps| - 1];
      RunBlocksFit(c, prefix, m);
      var before := Run(Layout([], c), prefix, m);
      assert Run(Layout([], c), steps, m) == StepOnce(before, last, m);
      StepKeepsFit(before, last, c.page, m);
    }
  }

  /** The sum of the gaps and block advances of a run. */
  function TotalAdvance(steps: seq<Step>, m: Measure): (dy: real)
    decreases |steps|
  {
    if steps == [] then 0.0
    else
      var last := steps[|steps| - 1];
      TotalAdvance(steps[..|steps| - 1], m) + (if last.Gap? then last.dy else BlockAdvance(last.item, m))
  }

  /** A run that opens no page moves the cursor down by exactly the sum of its advances. */
  lemma {:induction false} RunWithoutBreak(l: Layout, steps: seq<Step>, m: Measure)
    ensures Run(l, steps, m).at.page == l.at.page ==> Run(l, steps, m).at.y == l.at.y + TotalAdvance(steps, m)
    decreases |steps|
  {
    if steps != [] && Run(l, steps, m).at.page == l.at.page {
      var prefix := steps[..|steps| - 1];
      RunPages(l, prefix, m);
      RunWithoutBreak(l, prefix, m);
    }
  }

  // ---------------------------------------------------------------------------
  // The document and its cursor
  // ---------------------------------------------------------------------------

  class PdfDocument {
    const pageHeight: real
    var pageCount: nat          // doc.getNumberOfPages(); text goes to the last page
    var y: real
    var placed: seq<Placement>

    /** Pages are numbered from 1; every block lies on an existing page, in reading order, and before the cursor. */
    ghost predicate Valid()
      reads this
    {
      1 <= pageCount
      && (forall k :: 0 <= k < |placed| ==> 1 <= placed[k].page && Precedes(placed[k], pageCount, y))
      && Ordered(placed)
    }

    /** The blocks placed so far and the cursor. */
    function State(): (state: Layout)
      reads this
    {
      Layout(placed, Cursor(pageCount, y))
    }

    /** `new jsPDF()` with `let y = 20`. */
    constructor (pageHeight: real)
      ensures Valid()
      ensures this.pageHeight == pageHeight && State() == Layout([], Cursor(1, TopOfPage))
    {
      this.pageHeight := pageHeight;
      pageCount := 1;
      y := TopOfPage;
      placed := [];
    }

    /** `checkPageBreak(heightNeeded)`. */
    method CheckPageBreak(heightNeeded: real) returns (broke: bool)
      requires Valid()
      modifies this
      ensures Valid()
      ensures broke <==> old(y) + heightNeeded > pageHeight - Margin
      ensures broke ==> pageCount == old(pageCount) + 1 && y == TopOfPage
      ensures !broke ==> pageCount == old(pageCount) && y == old(y) && y + heightNeeded <= pageHeight - Margin
      ensures State() == Layout(old(placed), AfterCheck(old(State()).at, heightNeeded, pageHeight))
    {
      if y + heightNeeded > pageHeight - Margin {
        pageCount := pageCount + 1;
        y := TopOfPage;
        return true;
      }
      return false;
    }

    /**
      A block as the content loops draw one: `checkPageBreak(reserve)`, the
      text `offset` below the cursor, then `y += advance`, with the heights
      those of the measure in use.
     */
    method CheckAndDraw(item: Item, reserve: real, offset: real, advance: real, ghost m: Measure)
      requires Valid() && m.pageHeight == pageHeight
      requires reserve == Reserve(item, m) && offset == Offset(item) && advance == BlockAdvance(item, m)
      modifies this
      ensures Valid()
      ensures State() == StepOnce(old(State()), Block(item), m)
    {
      var broke := CheckPageBreak(reserve);
      Draw(item, offset, advance);
    }

    /** `y += dy` with nothing drawn. */
    method Advance(dy: real)
      requires Valid() && dy >= 0.0
      modifies this
      ensures Valid()
      ensures State() == Layout(old(placed), Cursor(old(pageCount), old(y) + dy))
    {
      y := y + dy;
    }

    /** Draws `item` at `offset` below the cursor on the current page, then moves the cursor down by `advance`. */
    method Draw(item: Item, offset: real, advance: real)
      requires Valid() && 0.0 <= offset < advance
      modifies this
      ensures Valid()
      ensures placed == old(placed) + [Placement(pageCount, old(y) + offset, item)]
      ensures y == old(y) + advance
      ensures pageCount == old(pageCount)
    {
      placed := placed + [Placement(pageCount, y + offset, item)];
      y := y + advance;
    }
  }

  // ---------------------------------------------------------------------------
  // Writing the report
  // ---------------------------------------------------------------------------

  /** One option: `${prefix} ${opt}` in its style, after a check for its own height (5 per line), then 2 more. */
  method WriteOption(
    doc: PdfDocument, optionIndex: nat, option: string, selected: Option<int>, correctAnswerIndex: int,
    maxWidth: real, lineCount: LineCounter)
    requires doc.Valid()
    modifies doc
    ensures doc.Valid()
    ensures doc.State() == StepOnce(old(doc.State()), Block(OptionItem(optionIndex, option, selected, correctAnswerIndex)),
                                    Measure(doc.pageHeight, maxWidth, lineCount))
  {
    var style := OptionStyleAsWritten(optionIndex, selected, correctAnswerIndex);
    var optText := style.prefix + " " + option;
    var optHeight := lineCount(optText, Font(10, style.fontStyle), maxWidth - 10.0) as real * 5.0;
    doc.CheckAndDraw(OptionText(optText, style), optHeight, 0.0, optHeight + 2.0, Measure(doc.pageHeight, maxWidth, lineCount));
  }

  /** The question's text in bold, after a check for its height (6 per line) and 40 more for the options, then 4 more. */
  method WriteQuestionText(doc: PdfDocument, questionIndex: nat, q: Question, maxWidth: real, lineCount: LineCounter)
    requires doc.Valid()
    modifies doc
    ensures doc.Valid()
    ensures doc.State() == StepOnce(old(doc.State()), Block(QuestionItem(questionIndex, q)),
                                    Measure(doc.pageHeight, maxWidth, lineCount))
  {
    var questionText := NatToString(questionIndex + 1) + ". " + q.text;
    var questionHeight := lineCount(questionText, Font(11, Bold), maxWidth) as real * 6.0;
    doc.CheckAndDraw(QuestionText(questionText), questionHeight + 40.0, 0.0, questionHeight + 4.0,
                     Measure(doc.pageHeight, maxWidth, lineCount));
  }

  /**
    The explanation: 2 units of gap, then a check for its height (4.5 per
    line) and 10 more, the text drawn 2 below the cursor, then 14 more.
   */
  method WriteExplanation(doc: PdfDocument, q: Question, maxWidth: real, lineCount: LineCounter)
    requires doc.Valid()
    modifies doc
    ensures doc.Valid()
    ensures doc.State() == StepOnce(StepOnce(old(doc.State()), Gap(2.0), Measure(doc.pageHeight, maxWidth, lineCount)),
                                    Block(ExplanationItem(q)), Measure(doc.pageHeight, maxWidth, lineCount))
  {
    doc.Advance(2.0);
    var explText := "Explicación: " + q.explanation;
    var explHeight := lineCount(explText, Font(9, Italic), maxWidth - 15.0) as real * 4.5;
    doc.CheckAndDraw(ExplanationText(explText), explHeight + 10.0, 2.0, explHeight + 14.0,
                     Measure(doc.pageHeight, maxWidth, lineCount));
  }

  /** The options of a question, in order. */
  method WriteOptions(doc: PdfDocument, q: Question, selected: Option<int>, maxWidth: real, lineCount: LineCounter)
    requires doc.Valid()
    modifies doc
    ensures doc.Valid()
    ensures doc.State() == Run(old(doc.State()), OptionSteps(q, selected, |q.options|), Measure(doc.pageHeight, maxWidth, lineCount))
  {
    ghost var m := Measure(doc.pageHeight, maxWidth, lineCount);
    ghost var start := doc.State();
    var k := 0;
    while k < |q.options|
      invariant 0 <= k <= |q.options|
      invariant doc.Valid()
      invariant doc.State() == Run(start, OptionSteps(q, selected, k), m)
    {
      WriteOption(doc, k, q.options[k], selected, q.correctAnswerIndex, maxWidth, lineCount);
      OptionStepsSnoc(q, selected, k);
      RunSnoc(start, OptionSteps(q, selected, k), Block(OptionItem(k, q.options[k], selected, q.correctAnswerIndex)), m);
      k := k + 1;
    }
  }

  lemma OptionStepsSnoc(q: Question, selected: Option<int>, k: nat)
    requires k < |q.options|
    ensures OptionSteps(q, selected, k + 1)
         == OptionSteps(q, selected, k) + [Block(OptionItem(k, q.options[k], selected, q.correctAnswerIndex))]
  {
  }

  /**
    One question: a check for the text and 40 units of options, the text
    (6 per line, then 4), each option after a check for its own height (5
    per line, then 2), a 2-unit gap, and the explanation after a check for
    it and 10 more (drawn 2 below the cursor, 4.5 per line, then 14).
   */
  method WriteQuestion(
    doc: PdfDocument, topicIndex: nat, questionIndex: nat, q: Question, answers: Answers,
    maxWidth: real, lineCount: LineCounter)
    requires doc.Valid()
    modifies doc
    ensures doc.Valid()
    ensures doc.State() == Run(old(doc.State()), QuestionSteps(topicIndex, questionIndex, q, answers),
                               Measure(doc.pageHeight, maxWidth, lineCount))
  {
    ghost var m := Measure(doc.pageHeight, maxWidth, lineCount);
    ghost var start := doc.State();
    var selected := SelectedAnswer(answers, topicIndex, questionIndex);
    WriteQuestionText(doc, questionIndex, q, maxWidth, lineCount);
    RunSnoc(start, [], Block(QuestionItem(questionIndex, q)), m);
    WriteOptions(doc, q, selected, maxWidth, lineCount);
    ghost var head := [Block(QuestionItem(questionIndex, q))];
    ghost var options := OptionSteps(q, selected, |q.options|);
    RunConcat(start, head, options, m);
    WriteExplanation(doc, q, maxWidth, lineCount);
    RunSnoc(start, head + options, Gap(2.0), m);
    RunSnoc(start, head + options + [Gap(2.0)], Block(ExplanationItem(q)), m);
    assert QuestionSteps(topicIndex, questionIndex, q, answers) == (head + options + [Gap(2.0)]) + [Block(ExplanationItem(q))];
  }

  /** A topic's heading: a check for 40 units, the title (then 8) and the rule under it (then 12). */
  method WriteTopicHeading(doc: PdfDocument, topicIndex: nat, quiz: QuizTopic, answers: Answers, ghost m: Measure)
    requires doc.Valid() && m.pageHeight == doc.pageHeight
    modifies doc
    ensures doc.Valid()
    ensures doc.State() == Run(old(doc.State()), TopicSteps(topicIndex, quiz, answers, 0), m)
  {
    ghost var start := doc.State();
    var title := TopicItem(topicIndex, quiz);
    doc.CheckAndDraw(title, 40.0, 0.0, 8.0, m);
    RunSnoc(start, [], Block(title), m);
    doc.Advance(12.0);
    RunSnoc(start, [Block(title)], Gap(12.0), m);
  }

  /** One topic: a check for 40 units, the title (then 8), the rule under it (then 12), its questions, and 10 more. */
  method WriteTopic(
    doc: PdfDocument, topicIndex: nat, quiz: QuizTopic, answers: Answers,
    maxWidth: real, lineCount: LineCounter)
    requires doc.Valid()
    modifies doc
    ensures doc.Valid()
    ensures doc.State() == Run(old(doc.State()), WholeTopicSteps(topicIndex, quiz, answers),
                               Measure(doc.pageHeight, maxWidth, lineCount))
  {
    ghost var m := Measure(doc.pageHeight, maxWidth, lineCount);
    ghost var start := doc.State();
    WriteTopicHeading(doc, topicIndex, quiz, answers, m);
    var j := 0;
    while j < |quiz.questions|
      invariant 0 <= j <= |quiz.questions|
      invariant doc.Valid()
      invariant doc.State() == Run(start, TopicSteps(topicIndex, quiz, answers, j), m)
    {
      ghost var done := TopicSteps(topicIndex, quiz, answers, j);
      ghost var question := QuestionSteps(topicIndex, j, quiz.questions[j], answers);
      WriteQuestion(doc, topicIndex, j, quiz.questions[j], answers, maxWidth, lineCount);
      RunConcat(start, done, question, m);
      assert TopicSteps(topicIndex, quiz, answers, j + 1) == done + question;
      j := j + 1;
    }
    ghost var body := TopicSteps(topicIndex, quiz, answers, |quiz.questions|);
    doc.Advance(10.0);
    RunSnoc(start, body, Gap(10.0), m);
    assert WholeTopicSteps(topicIndex, quiz, answers) == body + [Gap(10.0)];
  }

  datatype Footer = Footer(page: nat, pageLabel: string, brand: string)

  function PageLabel(page: nat, pageCount: nat): (text: string) {
    "Página " + NatToString(page) + " de " + NatToString(pageCount)
  }

  /** The footer loop: one footer per page, page `k + 1` at position `k`. */
  method PageFooters(pageCount: nat) returns (footers: seq<Footer>)
    ensures |footers| == pageCount
    ensures forall k :: 0 <= k < pageCount ==> footers[k] == Footer(k + 1, PageLabel(k + 1, pageCount), Brand)
  {
    footers := [];
    var i := 1;
    while i <= pageCount
      invariant 1 <= i <= pageCount + 1
      invariant |footers| == i - 1
      invariant forall k :: 0 <= k < i - 1 ==> footers[k] == Footer(k + 1, PageLabel(k + 1, pageCount), Brand)
    {
      footers := footers + [Footer(i, PageLabel(i, pageCount), Brand)];
      i := i + 1;
    }
  }

  /** The content loop: every topic, in order. */
  method WriteTopics(doc: PdfDocument, quizzes: seq<QuizTopic>, answers: Answers, maxWidth: real, lineCount: LineCounter)
    requires doc.Valid()
    modifies doc
    ensures doc.Valid()
    ensures doc.State() == Run(old(doc.State()), ContentSteps(quizzes, answers, |quizzes|), Measure(doc.pageHeight, maxWidth, lineCount))
  {
    ghost var m := Measure(doc.pageHeight, maxWidth, lineCount);
    ghost var start := doc.State();
    var i := 0;
    while i < |quizzes|
      invariant 0 <= i <= |quizzes|
      invariant doc.Valid()
      invariant doc.State() == Run(start, ContentSteps(quizzes, answers, i), m)
    {
      ghost var done := ContentSteps(quizzes, answers, i);
      ghost var topic := WholeTopicSteps(i, quizzes[i], answers);
      WriteTopic(doc, i, quizzes[i], answers, maxWidth, lineCount);
      RunConcat(start, done, topic, m);
      assert ContentSteps(quizzes, answers, i + 1) == done + topic;
      i := i + 1;
    }
  }

  /**
    `generateQuizPDF`. The header lines (title, subtitle, date) take 10, 8
    and 15 units, the score card 50; then every topic is written in order
    and every page gets its footer. Where every block lands is the run of
    the report's steps from the top of page 1.
   */
  method GenerateQuizPdf(
    result: AnalysisResult, answers: Answers, pageWidth: real, pageHeight: real, lineCount: LineCounter)
    returns (card: ScoreCard, pageCount: nat, placed: seq<Placement>, footers: seq<Footer>)
    ensures card == ScoreCardOf(CorrectCount(answers, result.quizzes), TotalCount(result.quizzes))
    ensures card.correct <= card.total && card.percentage <= 100
    ensures card.total == 0 ==> card.percentage == 0
    ensures placed == Run(Layout([], Cursor(1, TopOfPage)), DocSteps(result.quizzes, answers),
                Measure(pageHeight, pageWidth - Margin * 2.0, lineCount)).placed
    ensures pageCount == Run(Layout([], Cursor(1, TopOfPage)), DocSteps(result.quizzes, answers),
                             Measure(pageHeight, pageWidth - Margin * 2.0, lineCount)).at.page
    ensures Items(placed) == BlocksOf(DocSteps(result.quizzes, answers))
    ensures BlocksFit(placed, 1, Measure(pageHeight, pageWidth - Margin * 2.0, lineCount))
    ensures Ordered(placed)
    ensures forall k :: 0 <= k < |placed| ==> 1 <= placed[k].page <= pageCount
    ensures 1 <= pageCount <= 1 + |placed|
    ensures |footers| == pageCount
    ensures forall k :: 0 <= k < pageCount ==> footers[k] == Footer(k + 1, PageLabel(k + 1, pageCount), Brand)
  {
    var doc := new PdfDocument(pageHeight);
    var maxWidth := pageWidth - Margin * 2.0;
    ghost var m := Measure(pageHeight, maxWidth, lineCount);
    ghost var start := doc.State();
    doc.Advance(10.0);
    doc.Advance(8.0);
    doc.Advance(15.0);
    var correct, total := CalculateScore(result.quizzes, answers);
    PercentageRange(correct, total);
    card := ScoreCardOf(correct, total);
    doc.Advance(50.0);
    HeaderRun(start, m);
    WriteTopics(doc, result.quizzes, answers, maxWidth, lineCount);
    RunConcat(start, HeaderSteps, ContentSteps(result.quizzes, answers, |result.quizzes|), m);
    pageCount := doc.pageCount;
    placed := doc.placed;
    DocRun(DocSteps(result.quizzes, answers), m);
    footers := PageFooters(pageCount);
  }

  /** What a run from the top of page 1 with nothing placed promises about the blocks and the page count. */
  lemma DocRun(steps: seq<Step>, m: Measure)
    ensures var r := Run(Layout([], Cursor(1, TopOfPage)), steps, m);
      Items(r.placed) == BlocksOf(steps)
      && BlocksFit(r.placed, 1, m)
      && (forall k :: 0 <= k < |r.placed| ==> 1 <= r.placed[k].page <= r.at.page)
      && 1 <= r.at.page <= 1 + |r.placed|
  {
    var start := Layout([], Cursor(1, TopOfPage));
    RunItems(start, steps, m);
    RunPages(start, steps, m);
    RunBlocksFit(Cursor(1, TopOfPage), steps, m);
  }

  lemma HeaderRun(l: Layout, m: Measure)
    ensures Run(l, HeaderSteps, m) == Layout(l.placed, Cursor(l.at.page, l.at.y + 10.0 + 8.0 + 15.0 + 50.0))
  {
    RunSnoc(l, [], Gap(10.0), m);
    RunSnoc(l, [Gap(10.0)], Gap(8.0), m);
    RunSnoc(l, [Gap(10.0), Gap(8.0)], Gap(15.0), m);
    RunSnoc(l, [Gap(10.0), Gap(8.0), Gap(15.0)], Gap(50.0), m);
    assert HeaderSteps == [Gap(10.0), Gap(8.0), Gap(15.0)] + [Gap(50.0)];
  }
}
