# A+ Estudia Mejor — a verified model of the study assistant's logic

A+ Estudia Mejor is a browser application. A student uploads PDFs and
images. A generative-AI backend returns a Markdown summary and a quiz per
topic. The student answers the quizzes, sees a score, and can export the
results as a plain-text report or as PDF documents. A flashcard view flips
through question/answer cards.

This project models the logic underneath that interface, in Dafny:

- **Session state** (`App.dfy`, `App.AppState`). This covers:
  - the upload list and its file filter (accepted types, 10 MiB ceiling);
  - the analysis status;
  - the answer map with its "results shown" flag;
  - the "new analysis" reset;
  - the plain-text report, built by nested loops and proved equal to a recursive specification;
  - the option marks and score line of the App's own PDF export.
- **Scoring** (`Scoring.dfy`).
  - The quiz view, the App's PDF export and the report service count the score by the same rule. One loop method, `CalculateScore`, models all three.
  - The percentage `Math.round(correct / total * 100) || 0` is proved equal to the exact integer formula `(200·c + t) div (2·t)`.
  - Every screen and report marks options by one shared classification: correct, wrong pick or neutral.
- **Quiz view** (`QuizView.dfy`): the active-topic state, the answer guard, the reset, the option states and what the view reveals before and after results are shown.
- **Flashcards** (`FlashcardsView.dfy`): a class with the index and flipped flag, with modular next/previous moves.
- **Summary renderer** (`SummaryView.dfy`): the line classifier behind `text.split('\n')`.
- **PDF report** (`PdfService.dfy`).
  - The document is a class holding the page count, the cursor `y` and the blocks placed so far.
  - The layout is specified as a run of steps. A step is either a gap (`y += dy`) or a block drawn right after its `checkPageBreak`.
  - The writing methods are proved to take exactly the steps of the report, with the source's heights and advances.
  - Lemmas about the run state that every block either fits above the bottom margin or starts a new page at its top. They also state that at most one page opens per block, and that a run without a page break moves the cursor by the sum of its advances.
  - The option prefixes, the score colour and the footer loop are modelled too.
- **Backend request** (`GeminiService.dfy`): the declared response schema, the `parts` list, the API-key and empty-response errors, and the data-URL strip.
- **Support modules**:
  - `Strings.dfy` gives the JavaScript string operations the code relies on: `split` on one character, `startsWith`, first-occurrence `replace`, `trim`, `${n}` and `toUpperCase`.
  - `Types.dfy` holds the records of `types.ts` and the `${topic}-${question}` answer key.
  - `Wrappers.dfy` holds `Option` and `Result`.

What the code accepts and does:

- Uploads accept `application/pdf`, `image/jpeg`, `image/png` and `image/jpg`, each up to 10 MiB. Any other type, `text/plain` included, is dropped with a warning. The type is the browser's; nothing is inferred from the file name.
- No status change ever enters `AppStatus.GENERATING_AUDIO`, although it is declared. `App.AppState.Valid` states that.
- `AnalysisResult` holds a summary and quizzes only. `types.ts` does not declare the `Flashcard` record that the flashcard view imports. The record `{front, back}` is defined here from its use in the view.
- The declared schema only describes `correctAnswerIndex` as 0-3. Nothing checks it, so the model allows any integer.

## Model

| member | source | states |
|---|---|---|
| Strings.SplitLength | components/SummaryView.tsx:12 | `split` on one character yields exactly one piece more than there are separators |
| Strings.JoinSplit | components/SummaryView.tsx:12 | joining the pieces of `split` with the separator gives the original text: nothing is lost |
| Strings.SplitJoin | services/geminiService.ts:116 | splitting a join of separator-free pieces gives those pieces back |
| Strings.SplitAtFirst | services/geminiService.ts:116 | the first piece ends at the first separator and the rest is split on its own |
| Strings.IndexOfFrom | components/SummaryView.tsx:14 | the search finds the first occurrence at or after the start, or reports that there is none |
| Strings.ReplaceLeadingPrefix | components/SummaryView.tsx:14 | `replace(marker, '')` on a line that starts with the marker removes exactly that leading marker |
| Strings.TrimEmpty | components/SummaryView.tsx:25 | `trim()` is empty exactly when every character is ECMAScript whitespace |
| Strings.NatToStringValue | components/QuizView.tsx:86 | the decimal rendering of a number reads back as that number |
| Strings.NatToStringInjective | components/QuizView.tsx:86 | distinct numbers render as distinct strings |
| Strings.ToUpperCaseLength | App.tsx:95 | upper-casing keeps the length, except that each ß becomes SS |
| Types.AnswerKeyInjective | components/QuizView.tsx:86 | the key `${t}-${q}` determines the topic and the question, so two questions never share a key |
| Scoring.CalculateScore | components/QuizView.tsx:33-45 | the nested loops count every question of every topic, and the questions whose recorded answer equals `correctAnswerIndex`; correct <= total |
| Scoring.CorrectAtMostTotal | services/pdfService.ts:53-62 | the number of correct answers never exceeds the number of questions |
| Scoring.NoAnswersNoneCorrect | App.tsx:51-54 | with the answers cleared, as an analysis leaves them, nothing counts as correct |
| Scoring.Percentage | components/QuizView.tsx:47-48 | the percentage of the score; specified by PercentageIsJsRounding, PercentageRange, PercentageNearest and PercentageMonotone |
| Scoring.PercentageIsJsRounding | components/QuizView.tsx:47-48 | `Math.round(c / t * 100) \|\| 0`, read with exact reals (0 for no questions), equals `(200c + t) div 2t` |
| Scoring.PercentageRange | services/pdfService.ts:63 | the percentage lies in [0, 100]; it is 0 with nothing correct or no questions, and 100 when all are correct |
| Scoring.PercentageNearest | App.tsx:168 | the percentage is the integer nearest 100·c/t, with halves rounded up |
| Scoring.PercentageMonotone | components/QuizView.tsx:48 | more correct answers never lower the percentage |
| Scoring.Classify | components/QuizView.tsx:104-113 | an option is marked correct exactly when it is at `correctAnswerIndex`, and wrong exactly when it was picked and is not the correct one |
| Scoring.AtMostOneWrong | services/pdfService.ts:128-135 | at most one option of a question is marked wrong |
| Scoring.WrongMarkIffMissed | components/QuizView.tsx:104-110 | a wrong mark appears exactly when an option in the list was picked and the question is not answered correctly |
| Scoring.CorrectMarkIffInRange | components/QuizView.tsx:105 | some option is marked correct exactly when `correctAnswerIndex` points into the options |
| SummaryView.RenderLineKind | components/SummaryView.tsx:13-28 | each heading or list rule applies exactly when its marker starts the line, the rules excluding one another; a line break is exactly a whitespace-only line; a paragraph holds the line verbatim |
| SummaryView.RenderLineRoundTrip | components/SummaryView.tsx:13-24 | putting back the removed marker recovers the line from any block but a line break |
| SummaryView.RenderLine | components/SummaryView.tsx:13-28 | the if-chain for one line; specified by RenderLineKind and RenderLineRoundTrip |
| SummaryView.RenderContent | components/SummaryView.tsx:11-30 | one block per line of `split('\n')`; specified by RenderContentLines, BlocksStayOnOneLine, RenderContentOfLines and RenderContentRoundTrip |
| SummaryView.RenderContentLines | components/SummaryView.tsx:12 | one block per line feed plus one |
| SummaryView.BlocksStayOnOneLine | components/SummaryView.tsx:12-28 | no block reaches past its line: the markdown any block stands for holds no line feed |
| SummaryView.RenderContentOfLines | components/SummaryView.tsx:11-30 | lines without line feeds, joined with line feeds, render to one block per line, block k from line k |
| SummaryView.RenderContentRoundTrip | components/SummaryView.tsx:11-30 | without whitespace-only lines, the summary is recovered by joining the blocks' markdown with line feeds |
| FlashcardsView.NextIndex | components/FlashcardsView.tsx:23 | `(i + 1) % n`; specified by MovesStayInDeck, NextPrevInverse, NextTimesIsAddition and FullCycle |
| FlashcardsView.PrevIndex | components/FlashcardsView.tsx:30 | `(i - 1 + n) % n`; specified by MovesStayInDeck and NextPrevInverse |
| FlashcardsView.MovesStayInDeck | components/FlashcardsView.tsx:23-30 | next and previous stay inside the deck, wrapping from the last card to the first and back |
| FlashcardsView.NextPrevInverse | components/FlashcardsView.tsx:20-32 | previous undoes next, and next undoes previous |
| FlashcardsView.NextTimesIsAddition | components/FlashcardsView.tsx:20-25 | k presses of next move the index to (i + k) mod n |
| FlashcardsView.FullCycle | components/FlashcardsView.tsx:20-25 | n presses of next come back to the starting card |
| FlashcardsView.FlashcardsState.constructor | components/FlashcardsView.tsx:11-12 | the view starts on the first card, face up |
| FlashcardsView.FlashcardsState.ChangeDeck | components/FlashcardsView.tsx:15-18 | a new deck resets to the first card, face up |
| FlashcardsView.FlashcardsState.Next | components/FlashcardsView.tsx:20-25 | un-flips and sets the index to (i + 1) mod n, keeping it valid |
| FlashcardsView.FlashcardsState.Prev | components/FlashcardsView.tsx:27-32 | un-flips and sets the index to (i - 1 + n) mod n, keeping it valid |
| FlashcardsView.FlashcardsState.Flip | components/FlashcardsView.tsx:34-36 | toggles the face and leaves the deck and the index unchanged |
| FlashcardsView.FlashcardsState.View | components/FlashcardsView.tsx:38-54 | an empty deck shows the no-cards message; otherwise the card at currentIndex is shown as card currentIndex+1 of n, with 1 <= currentIndex+1 <= n, on the current face |
| GeminiService.SchemaAdmitsEveryResult | services/geminiService.ts:5-54 | the JSON of any representable result satisfies the declared schema |
| GeminiService.DecodeQuestionConforming | services/geminiService.ts:45 | a question object that satisfies its schema has every field the application reads |
| GeminiService.DecodeTopicConforming | services/geminiService.ts:49 | a topic object that satisfies its schema has every field the application reads |
| GeminiService.ConformingResponseHasResultShape | services/geminiService.ts:53 | a response that satisfies the schema always has the shape of an AnalysisResult |
| GeminiService.DecodeEncode | services/geminiService.ts:102 | reading the fields back from a result's JSON gives that result |
| GeminiService.BuildParts | services/geminiService.ts:65-81 | the `parts` list; specified by BuildPartsShape |
| GeminiService.BuildPartsShape | services/geminiService.ts:65-81 | one inline part per file, in order, with the file's type and payload (`""` when absent), then exactly one text part, last |
| GeminiService.MissingKeyFailsBeforeRequest | services/geminiService.ts:57-60 | with no key, or an empty one, the outcome is the key error whatever the backend would answer |
| GeminiService.AnalyzeOutcome | services/geminiService.ts:56-107 | success exactly when there is a key and the reply has non-empty text that parses; the result is the parsed value unchecked; empty text is an error |
| GeminiService.AnalyzeDocuments | services/geminiService.ts:56-107 | `analyzeDocuments` with the backend and `JSON.parse` as parameters; specified by MissingKeyFailsBeforeRequest and AnalyzeOutcome |
| GeminiService.StripDataUrlPrefix | services/geminiService.ts:114-117 | `dataUrl.split(',')[1]`; specified by StripRecoversPayload and StripWithoutComma |
| GeminiService.StripRecoversPayload | services/geminiService.ts:114-117 | `split(",")[1]` of a data URL gives its base64 payload |
| GeminiService.StripWithoutComma | services/geminiService.ts:116 | without a comma the strip yields `undefined` |
| PdfService.ScoreCardOf | services/pdfService.ts:53-82 | the score card's counts, percentage, colour and texts; its properties are stated by GenerateQuizPdf and ScoreColor |
| PdfService.ScoreColor | services/pdfService.ts:77 | the score is drawn in the "correct" colour exactly when the percentage is at least 60 |
| PdfService.OptionStyleAsWritten | services/pdfService.ts:124-139 | the option if-chain as written, dead third branch included; specified by OptionStyleFollowsMark |
| PdfService.OptionStyleFollowsMark | services/pdfService.ts:120-139 | the prefix is `✓ ` for the correct option, `X ` for a wrong pick and `O ` otherwise; red appears only with `X `, so the third branch never fires |
| PdfService.OneCrossAtMost | services/pdfService.ts:128-139 | within a question at most one option is prefixed `X `, and the correct one always gets `✓ ` |
| PdfService.Height | services/pdfService.ts:111-163 | a block's height is never negative; it is the line count in the block's font and width times 6, 5 or 4.5, which is what WriteQuestionText, WriteOption and WriteExplanation check for |
| PdfService.BlockAdvance | services/pdfService.ts:95-173 | the advance after a block always exceeds the offset it is drawn at, so the cursor ends below the block's first line; its amounts are those stated for the writer methods |
| PdfService.AfterCheck | services/pdfService.ts:25-32 | `checkPageBreak` on the cursor; its effect on every block is stated by RunBlocksFit |
| PdfService.QuestionSteps | services/pdfService.ts:103-174 | the question's steps: its text, each option in order, a 2-unit gap, then the explanation; WriteQuestion takes exactly these |
| PdfService.TopicSteps | services/pdfService.ts:88-103 | the title, the 12 units under its rule, then the questions in order; WriteTopic takes these and 10 more |
| PdfService.DocSteps | services/pdfService.ts:39-177 | the 10, 8, 15 and 50 units of the header and score card, then every topic in order; GenerateQuizPdf takes exactly these |
| PdfService.Run | services/pdfService.ts:87-177 | the steps taken in order from a layout; specified by RunItems, RunPages, RunBlocksFit and RunWithoutBreak |
| PdfService.RunItems | services/pdfService.ts:87-177 | a run appends exactly its blocks, in order, after the blocks already placed |
| PdfService.RunPages | services/pdfService.ts:25-32 | a run keeps the blocks already placed, never goes back a page, opens at most one page per block, puts its blocks on the pages from its first to its last, and ends on the page of its last block |
| PdfService.RunBlocksFit | services/pdfService.ts:25-32 | every block either stays on the page of the block before it with its checked height above the bottom margin, or is on the next page with its top at 20 |
| PdfService.RunWithoutBreak | services/pdfService.ts:95-176 | a run that opens no page moves the cursor down by exactly the sum of its gaps and block advances |
| PdfService.StepKeepsFit | services/pdfService.ts:25-32 | one step keeps every block placed as its check promises, with the cursor on the page of the last block |
| PdfService.DocRun | services/pdfService.ts:4-177 | a run from the top of page 1 places exactly its blocks, each as its check promises, on pages 1 to the final page, and that page is at most 1 + the number of blocks |
| PdfService.HeaderRun | services/pdfService.ts:39-84 | the header lines and the score card move the cursor 83 units down on the first page, with nothing placed |
| PdfService.PdfDocument.constructor | services/pdfService.ts:5-10 | one page, the cursor at 20, nothing placed |
| PdfService.PdfDocument.CheckPageBreak | services/pdfService.ts:25-32 | if y + h > pageHeight - 20, one page is added and y = 20, returning true; otherwise nothing changes, the block fits, and it returns false |
| PdfService.PdfDocument.CheckAndDraw | services/pdfService.ts:149-152 | a check for the block's reserved height, the block drawn at the cursor plus its offset, then the advance: exactly one block step of the layout, keeping the blocks in reading order |
| PdfService.PdfDocument.Advance | services/pdfService.ts:39-50 | the cursor moves down by the given amount and nothing else changes |
| PdfService.PdfDocument.Draw | services/pdfService.ts:151-152 | the block is placed on the current page at the cursor and the cursor moves down past it, keeping the blocks in reading order |
| PdfService.WriteQuestionText | services/pdfService.ts:107-117 | a check for 6·lines+40, the question text, then 6·lines+4 down: the question's block step |
| PdfService.WriteOption | services/pdfService.ts:141-152 | a check for 5·lines in the option's font, `${prefix} ${opt}`, then 5·lines+2 down: the option's block step |
| PdfService.WriteOptions | services/pdfService.ts:120-153 | the option loop takes the block steps of every option, in order |
| PdfService.WriteExplanation | services/pdfService.ts:155-173 | 2 down, a check for 4.5·lines+10, the text 2 below the cursor, then 4.5·lines+14 down |
| PdfService.WriteQuestion | services/pdfService.ts:103-174 | the document after it is exactly the run of the question's steps from the document before it: the checked heights, offsets and advances above, on the pages those checks choose |
| PdfService.WriteTopicHeading | services/pdfService.ts:88-101 | a check for 40, the title, then 8 and 12 down: the first steps of the topic |
| PdfService.WriteTopic | services/pdfService.ts:87-177 | the document after it is exactly the run of the topic's steps: a check for 40, the title, 8 then 12 down, its questions, then 10 down |
| PdfService.WriteTopics | services/pdfService.ts:87-177 | the content loop takes the steps of every topic, in order |
| PdfService.PageFooters | services/pdfService.ts:180-187 | exactly one footer per page: footer k is `Página k+1 de n` with the brand |
| PdfService.GenerateQuizPdf | services/pdfService.ts:4-190 | the score card holds the shared counts, a percentage in [0,100] (0 without questions) and its colour. The blocks and page count are the run of the report's steps from the top of page 1, so every block fits or starts a page. The blocks are the topics, questions, options and explanations in document order, in reading order, on pages 1..n, with n <= 1 + blocks. There is one footer per page |
| App.Filter | App.tsx:22-26 | every kept element passes the test and comes from the input, and every passing element is kept |
| App.FilterConcat | App.tsx:46 | filtering a concatenation filters each part: kept elements keep their order |
| App.FilterKeepsAll | App.tsx:28 | the filtered list is as long as the input exactly when every element passes |
| App.AcceptedFiles | App.tsx:21-30 | the upload filter; specified by AcceptedFilesSpec |
| App.Processed | App.tsx:32-42 | each accepted file with its id, data URL payload and type; App.AppState.FilesAdded states that these are appended |
| App.AcceptedFilesSpec | App.tsx:21-30 | a file is kept exactly when its type is one of the four accepted and its size is at most 10·1024·1024; the alert fires exactly when some file is dropped |
| App.WithoutId | App.tsx:45-47 | the removal filter; specified by WithoutIdSpec |
| App.WithoutIdSpec | App.tsx:45-47 | removal deletes every entry with the id, keeps every other one and keeps their order |
| App.RecordAnswerIsolated | App.tsx:67-69 | recording an answer for (t, q) reads back as that answer and changes what no other question reads |
| App.OptionMark | App.tsx:104-106 | the report's option mark; specified by OptionMarkSpec |
| App.OptionMarkSpec | App.tsx:103-109 | `[X]` marks the picked option and `[ ]` every other; ` (CORRECTA)` is added exactly to the correct option; a bare `[X]` is exactly a wrong pick |
| App.VerdictSpec | App.tsx:110-112 | the verdict line appears only when an answer is recorded, and reads `Correcta` exactly when the question counts as correct |
| App.StartReport | App.tsx:83-92 | the opening of the report: title, date, rule, summary and the quiz heading |
| App.AppendQuestion | App.tsx:103-114 | appends the question line, one line per option in order, the verdict and the explanation |
| App.AppendTopic | App.tsx:94-115 | appends the upper-cased topic heading, the dashes and every question of the topic in order |
| App.BuildTxtReport | App.tsx:79-116 | the string built by the nested loops equals the recursive report specification |
| App.ExportOptionStyle | App.tsx:196-213 | the export's option if-chain as written; specified by ExportOptionStyleSpec |
| App.ExportOptionStyleSpec | App.tsx:196-213 | the export's prefixes follow the shared classification and equal those of the PDF report; only the correct option is bold; its third branch never fires |
| App.ExportScore | App.tsx:157-170 | the export counts the score by the shared rule: correct <= total, a percentage in [0,100] that is 0 without questions, and the line `Puntuación Total: p% (c/t)` |
| App.AppState.constructor | App.tsx:12-19 | no files, IDLE, no result, no answers, results hidden |
| App.AppState.FilesAdded | App.tsx:21-43 | the accepted files, with ids and stripped payloads, are appended after the existing entries; the warning fires exactly when a file was dropped |
| App.AppState.RemoveFile | App.tsx:45-47 | the list loses exactly the entries with that id, and nothing else changes |
| App.AppState.StartAnalysis | App.tsx:49-54 | without files nothing changes; otherwise the answers are cleared, results hidden and the status is PROCESSING |
| App.AppState.FinishAnalysis | App.tsx:56-64 | success stores the new result and COMPLETED; failure gives ERROR and keeps the previous result |
| App.AppState.Analyze | App.tsx:49-65 | without files nothing changes; otherwise the answers are cleared, and the session ends COMPLETED with the service's result or ERROR with the old result |
| App.AppState.QuizAnswer | App.tsx:67-69 | the answer map gains or overwrites exactly that key |
| App.AppState.QuizFinish | App.tsx:71-73 | results become visible and nothing else changes |
| App.AppState.QuizReset | App.tsx:75-78 | the answers are emptied and results hidden |
| App.AppState.NewAnalysis | App.tsx:257-265 | offered only in COMPLETED; returns to IDLE with no result, no files, no answers and results hidden |
| App.AppState.DownloadTxt | App.tsx:80-81 | nothing without a result; otherwise the full report of the result and the current answers |
| QuizView.RevealedPanel | components/QuizView.tsx:100-141 | with results shown, option states follow the shared classification, and the explanation box is shown, green exactly when the question is answered correctly |
| QuizView.HiddenPanel | components/QuizView.tsx:114-117 | before results, only the pick is highlighted, no explanation shows, and the panel is the same whatever the correct index and explanation are |
| QuizView.Score | components/QuizView.tsx:47-48 | the view's score uses the shared counts and a percentage in [0,100], 0 without questions |
| QuizView.QuizViewState.constructor | components/QuizView.tsx:23 | the view starts on the first topic |
| QuizView.QuizViewState.SelectTopic | components/QuizView.tsx:63 | a topic tab makes that topic active |
| QuizView.QuizViewState.AnswerSelect | components/QuizView.tsx:27-31 | ignored once results are shown; otherwise records the option under the key of the active topic and the question, changing nothing else |
| QuizView.QuizViewState.Reset | components/QuizView.tsx:50-53 | back to the first topic, with the answers emptied and results hidden |

## Left out

- Rendering is not modelled: JSX, CSS classes, icons, tabs, theming and animations. `components/Button.tsx` and `components/FileUploader.tsx` are pure interface code.
- The flashcard progress bar is not modelled, because it is a floating-point width.
- The backend call (`generateContent`) and `JSON.parse` with its unchecked cast are not modelled. They are function parameters of `GeminiService.AnalyzeDocuments`. The API key and the response text are `Option` inputs.
- Only the strip of the data URL is kept from `FileReader`. The browser's file object is a record with the data URL it would produce.
- `Promise.all`, `async`/`await`, the time during which other handlers could run, and the 200 ms flashcard timeout are not modelled. State changes take effect at once.
- Drawing in jsPDF is not modelled: fonts, colours beyond their names, rectangles, the separator rule and `doc.save`. The header lines and score card of the PDF report are modelled as cursor advances and a returned `ScoreCard`, not as placed blocks.
- `splitTextToSize` is a line-count parameter. The page size is a parameter.
- Heights are exact reals, not IEEE doubles.
- App.ExportScore covers only the score and option marks of the App's own PDF export. Its page layout (`addText` with the 280/260/250 thresholds and the 0.4 factor) is not modelled.
- Blob, URL and anchor downloads, `alert`, `window.print` and `console.error` are not modelled.
- The dates (`toLocaleDateString`) are a string parameter. The `Math.random` ids are given as an input list.
- `toUpperCase` covers ASCII, Latin-1 and ß. Other scripts are left unchanged.
- Scoring.PercentageIsJsRounding reads `c / t * 100` with exact reals, so it does not model floating-point error at exact halves.
