/**
  The summary renderer of components/SummaryView.tsx: the summary text is
  split at every line feed and each line becomes one block, chosen by the
  first rule that matches: `### ` heading, `## ` heading, `# ` heading,
  `- ` list item, whitespace-only line break, otherwise a paragraph.
 */
module SummaryView {
  import opened Strings

  /** The element each line renders to (h3, h2, h1, li, br, p) with its text content. */
  datatype Block =
    | Heading3(text: string)
    | Heading2(text: string)
    | Heading1(text: string)
    | ListItem(text: string)
    | LineBreak
    | Paragraph(text: string)

  /** The if-chain applied to one line; a marker is removed with `line.replace(marker, '')`. */
  function RenderLine(line: string): (block: Block) {
    if StartsWith(line, "### ") then Heading3(ReplaceFirst(line, "### ", ""))
    else if StartsWith(line, "## ") then Heading2(ReplaceFirst(line, "## ", ""))
    else if StartsWith(line, "# ") then Heading1(ReplaceFirst(line, "# ", ""))
    else if StartsWith(line, "- ") then ListItem(ReplaceFirst(line, "- ", ""))
    else if Trim(line) == "" then LineBreak
    else Paragraph(line)
  }

  /** `renderContent`: one block per line of `text.split('\n')`, in line order. */
  function RenderContent(text: string): (blocks: seq<Block>) {
    var lines := Split(text, '\n');
    seq(|lines|, k requires 0 <= k < |lines| => RenderLine(lines[k]))
  }

  /** The markdown line a block stands for; a line break stands for the empty line. */
  function MarkdownOf(b: Block): (line: string) {
    match b
    case Heading3(t) => "### " + t
    case Heading2(t) => "## " + t
    case Heading1(t) => "# " + t
    case ListItem(t) => "- " + t
    case LineBreak => ""
    case Paragraph(t) => t
  }

  /** The markdown lines of a sequence of blocks. */
  function MarkdownLines(blocks: seq<Block>): (lines: seq<string>)
    ensures |lines| == |blocks|
  {
    seq(|blocks|, k requires 0 <= k < |blocks| => MarkdownOf(blocks[k]))
  }

  /**
    Which block a line becomes. The four markers exclude one another (`### x`
    does not start with `## `), so each kind is decided by its own marker; a
    line break is exactly a whitespace-only line, and every other line is a
    paragraph holding the line verbatim.
   */
  lemma RenderLineKind(line: string)
    ensures RenderLine(line).Heading3? <==> StartsWith(line, "### ")
    ensures RenderLine(line).Heading2? <==> StartsWith(line, "## ")
    ensures RenderLine(line).Heading1? <==> StartsWith(line, "# ")
    ensures RenderLine(line).ListItem? <==> StartsWith(line, "- ")
    ensures RenderLine(line).LineBreak? <==> AllWhitespace(line)
    ensures RenderLine(line).Paragraph? ==> RenderLine(line).text == line
  {
    TrimEmpty(line);
    if StartsWith(line, "### ") {
      assert line[1] == '#' && line[2] == '#';
    } else if StartsWith(line, "## ") {
      assert line[1] == '#';
    }
    if AllWhitespace(line) && |line| > 0 {
      assert !IsJsWhitespace('#') && !IsJsWhitespace('-');
      assert IsJsWhitespace(line[0]);
    }
  }

  /** A heading or list item holds the line with its marker removed, so re-adding the marker gives the line back. */
  lemma RenderLineRoundTrip(line: string)
    requires !RenderLine(line).LineBreak?
    ensures MarkdownOf(RenderLine(line)) == line
  {
    var b := RenderLine(line);
    var marker := match b
      case Heading3(_) => "### "
      case Heading2(_) => "## "
      case Heading1(_) => "# "
      case ListItem(_) => "- "
      case _ => "";
    if marker != "" {
      ReplaceLeadingPrefix(line, marker);
      assert line == marker + line[|marker|..];
    }
  }

  /** One block per line: as many blocks as line feeds plus one. */
  lemma RenderContentLines(text: string)
    ensures |RenderContent(text)| == Count(text, '\n') + 1
  {
    SplitLength(text, '\n');
  }

  /** No block reaches past its line: the markdown a block stands for never holds a line feed. */
  lemma BlocksStayOnOneLine(text: string)
    ensures forall k :: 0 <= k < |RenderContent(text)| ==> '\n' !in MarkdownOf(RenderContent(text)[k])
  {
    var lines := Split(text, '\n');
    SplitPiecesFree(text, '\n');
    forall k | 0 <= k < |lines| ensures '\n' !in MarkdownOf(RenderContent(text)[k]) {
      if !RenderLine(lines[k]).LineBreak? {
        RenderLineRoundTrip(lines[k]);
      }
    }
  }

  /** A summary written as lines without line feeds renders one block per line, block k from line k. */
  lemma RenderContentOfLines(lines: seq<string>)
    requires |lines| >= 1
    requires forall k :: 0 <= k < |lines| ==> '\n' !in lines[k]
    ensures |RenderContent(Join(lines, '\n'))| == |lines|
    ensures forall k :: 0 <= k < |lines| ==> RenderContent(Join(lines, '\n'))[k] == RenderLine(lines[k])
  {
    SplitJoin(lines, '\n');
  }

  /** A summary without whitespace-only lines is recovered from its blocks by joining their markdown with line feeds. */
  lemma RenderContentRoundTrip(text: string)
    requires forall k :: 0 <= k < |RenderContent(text)| ==> !RenderContent(text)[k].LineBreak?
    ensures Join(MarkdownLines(RenderContent(text)), '\n') == text
  {
    var lines := Split(text, '\n');
    var blocks := RenderContent(text);
    var md := MarkdownLines(blocks);
    forall k | 0 <= k < |lines| ensures md[k] == lines[k] {
      assert blocks[k] == RenderLine(lines[k]);
      RenderLineRoundTrip(lines[k]);
    }
    assert md == lines;
    JoinSplit(text, '\n');
  }
}
