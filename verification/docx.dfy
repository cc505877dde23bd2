/** The word-processor document the `docx` branch builds, reduced to the
    paragraph and run options the converter sets. */
module Docx {
  import opened Wrappers

  /** The heading styles the converter uses (`HeadingLevel.HEADING_1..3`). */
  datatype HeadingLevel = Heading1 | Heading2 | Heading3

  /** A text run with the styling options the converter sets, or a run
      holding a single line break (`new TextRun({ break: 1 })`). */
  datatype Run =
    | TextRun(text: string, bold: bool, italics: bool, font: Option<string>)
    | BreakRun

  /** One paragraph per construction site in the converter:
      `{ text, heading }`, `{ children }`, `{ text, bullet: { level } }`,
      `{ text, numbering: { reference, level } }`,
      `{ indent: { left }, children }`, `{ style, children }` and `{ text }`. */
  datatype Paragraph =
    | HeadingParagraph(heading: HeadingLevel, text: string)
    | RunsParagraph(children: seq<Run>)
    | BulletParagraph(text: string, level: nat)
    | NumberedParagraph(text: string, reference: string, level: nat)
    | IndentedParagraph(left: int, children: seq<Run>)
    | StyledParagraph(style: string, children: seq<Run>)
    | TextParagraph(text: string)

  /** The single section of the generated document; the style and numbering
      definitions are fixed constants and are not modelled. */
  datatype Document = Document(children: seq<Paragraph>)

  const CodeFont: string := "Courier New"
  const NumberingReference: string := "numbering-reference"
  /** Half an inch, in twips. */
  const QuoteIndent: int := 720
  const CodeStyle: string := "Code"

  function PlainRun(text: string): Run {
    TextRun(text, false, false, None)
  }

  /** The text a run shows: its text, or a newline for a break. */
  function RunText(r: Run): string {
    match r
    case TextRun(t, _, _, _) => t
    case BreakRun => "\n"
  }

  /** The text of a sequence of runs, read in order. */
  function RunsText(rs: seq<Run>): string
    decreases |rs|
  {
    if rs == [] then "" else RunText(rs[0]) + RunsText(rs[1..])
  }

  lemma {:induction false} RunsTextAppend(a: seq<Run>, b: seq<Run>)
    ensures RunsText(a + b) == RunsText(a) + RunsText(b)
    decreases |a|
  {
    if a == [] {
      assert a + b == b;
    } else {
      assert (a + b)[0] == a[0];
      assert (a + b)[1..] == a[1..] + b;
      RunsTextAppend(a[1..], b);
    }
  }

  /** The text a paragraph shows. */
  function ParagraphText(p: Paragraph): string {
    match p
    case HeadingParagraph(_, t) => t
    case RunsParagraph(rs) => RunsText(rs)
    case BulletParagraph(t, _) => t
    case NumberedParagraph(t, _, _) => t
    case IndentedParagraph(_, rs) => RunsText(rs)
    case StyledParagraph(_, rs) => RunsText(rs)
    case TextParagraph(t) => t
  }
}
