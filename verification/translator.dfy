/** The `docx` branch of the converter: one pass over the children of the
    parsed `<body>`, mapping each element to word-processor paragraphs
    (src/converter.ts:92-236). */
module Translator {
  import opened Wrappers
  import opened Dom
  import opened Docx
  import opened Seqs

  // ---------------------------------------------------------------------
  // Inline runs of a `p` element
  // ---------------------------------------------------------------------

  predicate IsBoldTag(t: string) { t == "strong" || t == "b" }
  predicate IsItalicTag(t: string) { t == "em" || t == "i" }

  /** The run one child of a `p` contributes: text nodes give an unstyled
      run, elements a run styled by their tag, other nodes nothing. */
  function InlineRun(child: Node): (r: Option<Run>)
    ensures r.None? <==> child.Comment?
    ensures r.Some? ==> r.value.TextRun? && r.value.text == TextContent(child)
    ensures r.Some? ==> (r.value.bold <==> child.Element? && IsBoldTag(Tag(child)))
    ensures r.Some? ==> (r.value.italics <==> child.Element? && IsItalicTag(Tag(child)))
    ensures r.Some? ==> (r.value.font == Some(CodeFont) <==> child.Element? && Tag(child) == "code")
    ensures r.Some? ==> r.value.font.None? || r.value.font == Some(CodeFont)
  {
    match child
    case Text(d) => Some(PlainRun(d))
    case Comment(_) => None
    case Element(_, _) =>
      var t := Tag(child);
      if IsBoldTag(t) then Some(TextRun(TextContent(child), true, false, None))
      else if IsItalicTag(t) then Some(TextRun(TextContent(child), false, true, None))
      else if t == "code" then Some(TextRun(TextContent(child), false, false, Some(CodeFont)))
      else Some(PlainRun(TextContent(child)))
  }

  /** The runs of a `p` element, built from its children left to right. */
  function ParagraphRuns(cs: seq<Node>): (rs: seq<Run>)
    ensures forall i :: 0 <= i < |rs| ==> rs[i].TextRun?
    decreases |cs|
  {
    if cs == [] then []
    else
      var head := match InlineRun(cs[0])
        case Some(r) => [r]
        case None => [];
      head + ParagraphRuns(cs[1..])
  }

  /** The children of a `p` that yield a run: its text and element nodes. */
  function InlineChildren(cs: seq<Node>): (kept: seq<Node>)
    decreases |cs|
  {
    if cs == [] then []
    else (if cs[0].Comment? then [] else [cs[0]]) + InlineChildren(cs[1..])
  }

  /** Each text or element child of a `p` yields exactly one run, in order. */
  lemma {:induction false} ParagraphRunsOnePerChild(cs: seq<Node>)
    ensures |ParagraphRuns(cs)| == |InlineChildren(cs)|
    ensures forall i :: 0 <= i < |InlineChildren(cs)| ==>
      InlineRun(InlineChildren(cs)[i]) == Some(ParagraphRuns(cs)[i])
    decreases |cs|
  {
    if cs != [] {
      ParagraphRunsOnePerChild(cs[1..]);
    }
  }

  /** A `p` loses no text: its runs read back as the element's text content. */
  lemma {:induction false} ParagraphRunsText(cs: seq<Node>)
    ensures RunsText(ParagraphRuns(cs)) == DescendantText(cs)
    decreases |cs|
  {
    if cs != [] {
      var head := match InlineRun(cs[0])
        case Some(r) => [r]
        case None => [];
      RunsTextAppend(head, ParagraphRuns(cs[1..]));
      ParagraphRunsText(cs[1..]);
      if head != [] {
        assert head[1..] == [];
      }
    }
  }

  // ---------------------------------------------------------------------
  // `pre` blocks: splitting on '\n' and interleaving line breaks
  // ---------------------------------------------------------------------

  /** The position of the first `c` in `s`. */
  function IndexOf(s: string, c: char): (k: nat)
    requires c in s
    ensures k < |s| && s[k] == c
    ensures forall j :: 0 <= j < k ==> s[j] != c
    decreases |s|
  {
    if s[0] == c then 0
    else
      assert c in s[1..] by {
        var j :| 0 <= j < |s| && s[j] == c;
        assert s[1..][j - 1] == c;
      }
      1 + IndexOf(s[1..], c)
  }

  /** JavaScript's `s.split('\n')`: never empty, and "" gives [""]. */
  function Split(s: string): (lines: seq<string>)
    ensures |lines| >= 1
    ensures forall i :: 0 <= i < |lines| ==> '\n' !in lines[i]
    decreases |s|
  {
    if '\n' !in s then [s]
    else
      var k := IndexOf(s, '\n');
      [s[..k]] + Split(s[k + 1..])
  }

  /** `lines.join('\n')`, the inverse of `Split`. */
  function JoinLines(lines: seq<string>): string
    decreases |lines|
  {
    if |lines| == 0 then ""
    else if |lines| == 1 then lines[0]
    else lines[0] + "\n" + JoinLines(lines[1..])
  }

  lemma {:induction false} SplitJoin(s: string)
    ensures JoinLines(Split(s)) == s
    decreases |s|
  {
    if '\n' in s {
      var k := IndexOf(s, '\n');
      var rest := Split(s[k + 1..]);
      SplitJoin(s[k + 1..]);
      assert Split(s) == [s[..k]] + rest;
      assert ([s[..k]] + rest)[1..] == rest;
      assert s == s[..k] + "\n" + s[k + 1..];
    }
  }

  /** Splitting stops at the first newline: a newline-free line before it
      comes out whole. */
  lemma SplitAtFirstNewline(l: string, tail: string)
    requires '\n' !in l
    ensures Split(l + "\n" + tail) == [l] + Split(tail)
  {
    var s := l + "\n" + tail;
    assert s[|l|] == '\n';
    var k := IndexOf(s, '\n');
    assert forall j :: 0 <= j < |l| ==> s[j] == l[j];
    assert k == |l|;
    assert s[..k] == l;
    assert s[k + 1..] == tail;
  }

  lemma {:induction false} JoinSplit(lines: seq<string>)
    requires |lines| >= 1
    requires forall i :: 0 <= i < |lines| ==> '\n' !in lines[i]
    ensures Split(JoinLines(lines)) == lines
    decreases |lines|
  {
    if |lines| > 1 {
      assert '\n' !in lines[0];
      SplitAtFirstNewline(lines[0], JoinLines(lines[1..]));
      JoinSplit(lines[1..]);
      assert lines == [lines[0]] + lines[1..];
    }
  }

  function CodeRun(line: string): Run {
    TextRun(line, false, false, Some(CodeFont))
  }

  /** The runs of a `pre` block: one Courier New run per line, with a break
      between consecutive lines and none after the last. */
  function CodeRuns(lines: seq<string>): (rs: seq<Run>)
    ensures |lines| >= 1 ==> |rs| == 2 * |lines| - 1
    ensures forall i :: 0 <= i < |rs| ==>
      if i % 2 == 0 then i / 2 < |lines| && rs[i] == CodeRun(lines[i / 2]) else rs[i] == BreakRun
    decreases |lines|
  {
    if |lines| == 0 then []
    else if |lines| == 1 then [CodeRun(lines[0])]
    else [CodeRun(lines[0]), BreakRun] + CodeRuns(lines[1..])
  }

  lemma {:induction false} CodeRunsText(lines: seq<string>)
    ensures RunsText(CodeRuns(lines)) == JoinLines(lines)
    decreases |lines|
  {
    if |lines| == 1 {
      assert RunsText([CodeRun(lines[0])]) == lines[0] + RunsText([]);
    } else if |lines| > 1 {
      var rest := CodeRuns(lines[1..]);
      RunsTextAppend([CodeRun(lines[0]), BreakRun], rest);
      assert RunsText([CodeRun(lines[0]), BreakRun]) == lines[0] + "\n" by {
        assert [CodeRun(lines[0]), BreakRun][1..] == [BreakRun];
        assert RunsText([BreakRun]) == "\n" + RunsText([]);
      }
      CodeRunsText(lines[1..]);
    }
  }

  lemma {:induction false} CodeRunsSnoc(lines: seq<string>, line: string)
    requires |lines| >= 1
    ensures CodeRuns(lines + [line]) == CodeRuns(lines) + [BreakRun, CodeRun(line)]
    decreases |lines|
  {
    if |lines| == 1 {
      assert lines + [line] == [lines[0], line];
      assert [lines[0], line][1..] == [line];
    } else {
      assert (lines + [line])[1..] == lines[1..] + [line];
      CodeRunsSnoc(lines[1..], line);
    }
  }

  /** The `codeLines.forEach` loop of the `pre` case, as written. */
  method BuildCodeRuns(codeLines: seq<string>) returns (codeRuns: seq<Run>)
    ensures codeRuns == CodeRuns(codeLines)
  {
    codeRuns := [];
    var index := 0;
    while index < |codeLines|
      invariant 0 <= index <= |codeLines|
      invariant index == 0 ==> codeRuns == []
      invariant 0 < index < |codeLines| ==> codeRuns == CodeRuns(codeLines[..index]) + [BreakRun]
      invariant index == |codeLines| > 0 ==> codeRuns == CodeRuns(codeLines[..index])
    {
      var line := codeLines[index];
      if index > 0 {
        CodeRunsSnoc(codeLines[..index], line);
      }
      assert codeLines[..index + 1] == codeLines[..index] + [line];
      codeRuns := codeRuns + [CodeRun(line)];
      if index < |codeLines| - 1 {
        codeRuns := codeRuns + [BreakRun];
      }
      index := index + 1;
    }
    assert codeLines[..index] == codeLines;
  }

  /** The paragraph of a `pre` element with text content `text`. */
  function PreParagraph(text: string): Paragraph {
    StyledParagraph(CodeStyle, CodeRuns(Split(text)))
  }

  // ---------------------------------------------------------------------
  // Lists
  // ---------------------------------------------------------------------

  /** The paragraph one `li` yields: a level-0 bullet under `ul`, a level-0
      numbered item under `ol`, carrying the item's whole text content. */
  function ListItemParagraph(li: Node, ordered: bool): Paragraph {
    if ordered then NumberedParagraph(TextContent(li), NumberingReference, 0)
    else BulletParagraph(TextContent(li), 0)
  }

  function ListParagraphs(lis: seq<Node>, ordered: bool): seq<Paragraph> {
    seq(|lis|, i requires 0 <= i < |lis| => ListItemParagraph(lis[i], ordered))
  }

  /** The example of `NestedListFlattened`: an item "a" holding a `ul` with
      the item "b". */
  function InnerItem(): Node { Element("LI", [Text("b")]) }
  function OuterItem(): Node { Element("LI", [Text("a"), Element("UL", [InnerItem()])]) }

  lemma OuterItemLis()
    ensures DescendantLis([OuterItem()]) == [OuterItem(), InnerItem()]
  {
    var inner, outer := InnerItem(), OuterItem();
    var list := Element("UL", [inner]);
    assert IsLi(inner) && IsLi(outer) by {
      assert Lower("LI") == "li";
    }
    assert !IsLi(list) by {
      assert Lower("UL") == "ul";
    }
    DescendantLisSingle(Text("a"));
    DescendantLisSingle(Text("b"));
    DescendantLisSingle(inner);
    DescendantLisSingle(list);
    DescendantLisAppend([Text("a")], [list]);
    assert [Text("a")] + [list] == outer.children;
    DescendantLisSingle(outer);
  }

  lemma OuterItemText()
    ensures TextContent(OuterItem()) == "ab" && TextContent(InnerItem()) == "b"
  {
    var list := Element("UL", [InnerItem()]);
    DescendantTextSingle(Text("a"));
    DescendantTextSingle(Text("b"));
    DescendantTextSingle(list);
    DescendantTextAppend([Text("a")], [list]);
    assert [Text("a")] + [list] == OuterItem().children;
  }

  /** A nested list is flattened: the outer item keeps the inner item's text
      in its own, and the inner item follows it, both at level 0. */
  lemma NestedListFlattened()
    ensures ListParagraphs(DescendantLis([OuterItem()]), false)
         == [BulletParagraph("ab", 0), BulletParagraph("b", 0)]
  {
    OuterItemLis();
    OuterItemText();
  }

  // ---------------------------------------------------------------------
  // Block elements
  // ---------------------------------------------------------------------

  predicate IsList(e: Node) {
    e.Element? && (Tag(e) == "ul" || Tag(e) == "ol")
  }

  predicate IsHeadingTag(t: string) { t == "h1" || t == "h2" || t == "h3" }

  /** The tags the converter treats specially; every other tag falls back. */
  predicate IsKnownTag(t: string) {
    IsHeadingTag(t) || t == "p" || t == "ul" || t == "ol" || t == "blockquote" || t == "pre"
  }

  /** The tag name of a heading level. */
  function HeadingTag(h: HeadingLevel): string {
    match h
    case Heading1 => "h1"
    case Heading2 => "h2"
    case Heading3 => "h3"
  }

  /** The paragraphs one element of the body contributes. */
  function ElementParagraphs(e: Node): (ps: seq<Paragraph>)
    requires e.Element?
    ensures !IsList(e) ==> |ps| == 1
    ensures IsList(e) ==> |ps| == |DescendantLis(e.children)|
    ensures Tag(e) == "ul" ==> forall i :: 0 <= i < |ps| ==>
      ps[i].BulletParagraph? && ps[i].level == 0 && ps[i].text == TextContent(DescendantLis(e.children)[i])
    ensures Tag(e) == "ol" ==> forall i :: 0 <= i < |ps| ==>
      && ps[i].NumberedParagraph? && ps[i].reference == NumberingReference && ps[i].level == 0
      && ps[i].text == TextContent(DescendantLis(e.children)[i])
    ensures !IsList(e) ==> (ps[0].HeadingParagraph? <==> IsHeadingTag(Tag(e)))
    ensures !IsList(e) && ps[0].HeadingParagraph? ==>
      HeadingTag(ps[0].heading) == Tag(e) && ps[0].text == TextContent(e)
    ensures !IsList(e) ==> (ps[0].RunsParagraph? <==> Tag(e) == "p")
    ensures !IsList(e) && ps[0].RunsParagraph? ==> ps[0].children == ParagraphRuns(e.children)
    ensures !IsList(e) ==> (ps[0].IndentedParagraph? <==> Tag(e) == "blockquote")
    ensures !IsList(e) && ps[0].IndentedParagraph? ==>
      ps[0].left == QuoteIndent && |ps[0].children| == 1
      && ps[0].children[0] == TextRun(TextContent(e), false, true, None)
    ensures !IsList(e) ==> (ps[0].StyledParagraph? <==> Tag(e) == "pre")
    ensures !IsList(e) && ps[0].StyledParagraph? ==> ps[0] == PreParagraph(TextContent(e))
    ensures !IsList(e) ==> (ps[0].TextParagraph? <==> !IsKnownTag(Tag(e)))
    ensures !IsList(e) && ps[0].TextParagraph? ==> ps[0].text == TextContent(e)
  {
    var text := TextContent(e);
    match Tag(e)
    case "h1" => [HeadingParagraph(Heading1, text)]
    case "h2" => [HeadingParagraph(Heading2, text)]
    case "h3" => [HeadingParagraph(Heading3, text)]
    case "p" => [RunsParagraph(ParagraphRuns(e.children))]
    case "ul" => ListParagraphs(DescendantLis(e.children), false)
    case "ol" => ListParagraphs(DescendantLis(e.children), true)
    case "blockquote" => [IndentedParagraph(QuoteIndent, [TextRun(text, false, true, None)])]
    case "pre" => [PreParagraph(text)]
    case _ => [TextParagraph(text)]
  }

  /** Every element other than a list keeps its whole text content in the
      one paragraph it yields: nothing is dropped, whatever the tag. */
  lemma ElementTextPreserved(e: Node)
    requires e.Element? && !IsList(e)
    ensures ParagraphText(ElementParagraphs(e)[0]) == TextContent(e)
  {
    var t := Tag(e);
    var text := TextContent(e);
    if t == "p" {
      assert ElementParagraphs(e) == [RunsParagraph(ParagraphRuns(e.children))];
      ParagraphRunsText(e.children);
    } else if t == "blockquote" {
      var run := TextRun(text, false, true, None);
      assert ElementParagraphs(e) == [IndentedParagraph(QuoteIndent, [run])];
      assert RunsText([run]) == text + RunsText([]);
    } else if t == "pre" {
      assert ElementParagraphs(e) == [PreParagraph(text)];
      CodeRunsText(Split(text));
      SplitJoin(text);
    }
  }

  /** A `pre` block yields 2n-1 runs for the n lines of its text: run 2i is
      line i in Courier New and run 2i+1 a break. */
  lemma PreLines(text: string)
    ensures var rs := PreParagraph(text).children;
      var lines := Split(text);
      && PreParagraph(text).style == CodeStyle
      && |rs| == 2 * |lines| - 1
      && (forall i :: 0 <= i < |lines| ==> rs[2 * i] == CodeRun(lines[i]))
      && (forall i :: 0 <= i < |lines| - 1 ==> rs[2 * i + 1] == BreakRun)
  {
    var rs := PreParagraph(text).children;
    var lines := Split(text);
    forall i | 0 <= i < |lines|
      ensures rs[2 * i] == CodeRun(lines[i])
    {
      assert (2 * i) % 2 == 0 && (2 * i) / 2 == i;
    }
    forall i | 0 <= i < |lines| - 1
      ensures rs[2 * i + 1] == BreakRun
    {
      assert (2 * i + 1) % 2 == 1;
    }
  }

  // ---------------------------------------------------------------------
  // The body
  // ---------------------------------------------------------------------

  /** What one child of the body contributes; non-element nodes are skipped. */
  function NodeParagraphs(n: Node): seq<Paragraph> {
    if n.Element? then ElementParagraphs(n) else []
  }

  /** The paragraphs of the document: the contributions of the body's
      children, concatenated left to right. */
  function TranslateBody(body: seq<Node>): seq<Paragraph> {
    FlatMap(NodeParagraphs, body)
  }

  /** The element children of the body, in order. */
  function Elements(body: seq<Node>): (es: seq<Node>)
    ensures forall i :: 0 <= i < |es| ==> es[i].Element? && es[i] in body
    ensures forall n :: n in body && n.Element? ==> n in es
    decreases |body|
  {
    if body == [] then []
    else (if body[0].Element? then [body[0]] else []) + Elements(body[1..])
  }

  /** Selecting the elements of a concatenation selects from each part in
      turn, so the elements keep the body's order. */
  lemma {:induction false} ElementsAppend(a: seq<Node>, b: seq<Node>)
    ensures Elements(a + b) == Elements(a) + Elements(b)
    decreases |a|
  {
    if a == [] {
      assert a + b == b;
    } else {
      assert (a + b)[0] == a[0];
      assert (a + b)[1..] == a[1..] + b;
      ElementsAppend(a[1..], b);
    }
  }

  /** Translating a concatenation translates each part in place: the output
      keeps the input's order. */
  lemma TranslateBodyAppend(a: seq<Node>, b: seq<Node>)
    ensures TranslateBody(a + b) == TranslateBody(a) + TranslateBody(b)
  {
    FlatMapAppend(NodeParagraphs, a, b);
  }

  /** Text and comment children of the body contribute nothing. */
  lemma {:induction false} TranslateBodySkipsNonElements(body: seq<Node>)
    ensures TranslateBody(body) == TranslateBody(Elements(body))
    decreases |body|
  {
    if body != [] {
      var head := if body[0].Element? then [body[0]] else [];
      TranslateBodySkipsNonElements(body[1..]);
      TranslateBodyAppend(head, Elements(body[1..]));
      if head != [] {
        assert head[1..] == [];
      }
    }
  }

  /** Without lists, the i-th paragraph is the one the i-th element yields,
      and it carries that element's text. */
  lemma {:induction false} TranslateBodyOnePerElement(body: seq<Node>)
    requires forall n :: n in body ==> !IsList(n)
    ensures |TranslateBody(body)| == |Elements(body)|
    ensures forall i :: 0 <= i < |Elements(body)| ==>
      TranslateBody(body)[i] == ElementParagraphs(Elements(body)[i])[0]
      && ParagraphText(TranslateBody(body)[i]) == TextContent(Elements(body)[i])
    decreases |body|
  {
    if body != [] {
      assert forall n :: n in body[1..] ==> n in body;
      TranslateBodyOnePerElement(body[1..]);
      var rest := TranslateBody(body[1..]);
      var es := Elements(body[1..]);
      if body[0].Element? {
        ElementTextPreserved(body[0]);
        var ps := ElementParagraphs(body[0]);
        assert |ps| == 1;
        assert TranslateBody(body) == ps + rest;
        assert Elements(body) == [body[0]] + es;
        forall i | 0 <= i < |Elements(body)|
          ensures TranslateBody(body)[i] == ElementParagraphs(Elements(body)[i])[0]
          ensures ParagraphText(TranslateBody(body)[i]) == TextContent(Elements(body)[i])
        {
          if i > 0 {
            assert TranslateBody(body)[i] == rest[i - 1];
            assert Elements(body)[i] == es[i - 1];
          }
        }
      } else {
        assert TranslateBody(body) == rest;
        assert Elements(body) == es;
      }
    }
  }

  /** The `body.childNodes.forEach` loop, pushing each element's paragraphs. */
  method BuildParagraphs(body: seq<Node>) returns (children: seq<Paragraph>)
    ensures children == TranslateBody(body)
  {
    children := [];
    var i := 0;
    while i < |body|
      invariant 0 <= i <= |body|
      invariant children == TranslateBody(body[..i])
    {
      var node := body[i];
      assert body[..i + 1] == body[..i] + [node];
      TranslateBodyAppend(body[..i], [node]);
      assert [node][1..] == [];
      assert TranslateBody([node]) == NodeParagraphs(node) + FlatMap(NodeParagraphs, []);
      if node.Element? {
        children := children + ElementParagraphs(node);
      }
      i := i + 1;
    }
    assert body[..i] == body;
  }
}
