/** An abstract HTML document tree, as the DOM parser hands it to the
    converter: elements with ordered children, text nodes, and comments
    (standing for every other node kind). */
module Dom {

  datatype Node =
    | Element(tagName: string, children: seq<Node>)
    | Text(data: string)
    | Comment(data: string)

  /** ASCII lower-casing; `toLowerCase` also maps some non-ASCII characters
      (see README, Left out). */
  function LowerChar(c: char): char {
    if 'A' <= c <= 'Z' then (c as int + 32) as char else c
  }

  function Lower(s: string): string {
    seq(|s|, i requires 0 <= i < |s| => LowerChar(s[i]))
  }

  /** The lower-cased tag name of an element, the key the converter switches on. */
  function Tag(n: Node): string
    requires n.Element?
  {
    Lower(n.tagName)
  }

  predicate IsLi(n: Node) {
    n.Element? && Tag(n) == "li"
  }

  /** The concatenated data of every text node below `ns`, in document order;
      comments contribute nothing. */
  function DescendantText(ns: seq<Node>): string
    decreases ns
  {
    if ns == [] then ""
    else
      var head := match ns[0]
        case Text(d) => d
        case Comment(_) => ""
        case Element(_, cs) => DescendantText(cs);
      head + DescendantText(ns[1..])
  }

  /** The DOM `textContent` of a node: the descendant text of an element,
      the data of a text or comment node. */
  function TextContent(n: Node): string {
    match n
    case Element(_, cs) => DescendantText(cs)
    case Text(d) => d
    case Comment(d) => d
  }

  lemma DescendantTextSingle(n: Node)
    requires !n.Comment?
    ensures DescendantText([n]) == TextContent(n)
  {
    assert [n][1..] == [];
  }

  lemma {:induction false} DescendantTextAppend(a: seq<Node>, b: seq<Node>)
    ensures DescendantText(a + b) == DescendantText(a) + DescendantText(b)
    decreases |a|
  {
    if a == [] {
      assert a + b == b;
    } else {
      assert (a + b)[0] == a[0];
      assert (a + b)[1..] == a[1..] + b;
      DescendantTextAppend(a[1..], b);
    }
  }

  /** Every node of the forest `ns`, each before its own descendants, in
      document order: the order in which a selector query visits them. */
  function Preorder(ns: seq<Node>): seq<Node>
    decreases ns
  {
    if ns == [] then []
    else
      var below := match ns[0]
        case Element(_, cs) => Preorder(cs)
        case _ => [];
      [ns[0]] + below + Preorder(ns[1..])
  }

  /** The `li` elements of a sequence, in order. */
  function FilterLi(s: seq<Node>): seq<Node>
    decreases |s|
  {
    if s == [] then []
    else (if IsLi(s[0]) then [s[0]] else []) + FilterLi(s[1..])
  }

  lemma {:induction false} FilterLiAppend(a: seq<Node>, b: seq<Node>)
    ensures FilterLi(a + b) == FilterLi(a) + FilterLi(b)
    decreases |a|
  {
    if a == [] {
      assert a + b == b;
    } else {
      var h := if IsLi(a[0]) then [a[0]] else [];
      assert (a + b)[0] == a[0];
      assert (a + b)[1..] == a[1..] + b;
      assert FilterLi(a + b) == h + FilterLi(a[1..] + b);
      FilterLiAppend(a[1..], b);
      assert FilterLi(a) == h + FilterLi(a[1..]);
    }
  }

  /** `element.querySelectorAll('li')` over the children `ns` of an element:
      every `li` strictly below the element, nested ones included. */
  function DescendantLis(ns: seq<Node>): (lis: seq<Node>)
    ensures forall i :: 0 <= i < |lis| ==> IsLi(lis[i])
    decreases ns
  {
    if ns == [] then []
    else
      var self := if IsLi(ns[0]) then [ns[0]] else [];
      var below := match ns[0]
        case Element(_, cs) => DescendantLis(cs)
        case _ => [];
      self + below + DescendantLis(ns[1..])
  }

  lemma DescendantLisSingle(n: Node)
    ensures DescendantLis([n])
         == (if IsLi(n) then [n] else []) + (if n.Element? then DescendantLis(n.children) else [])
  {
    assert [n][1..] == [];
  }

  /** The query returns exactly the `li` nodes of a preorder walk, in that order. */
  lemma {:induction false} DescendantLisIsPreorderFilter(ns: seq<Node>)
    ensures DescendantLis(ns) == FilterLi(Preorder(ns))
    decreases ns
  {
    if ns != [] {
      var below := match ns[0]
        case Element(_, cs) => Preorder(cs)
        case _ => [];
      match ns[0] {
        case Element(_, cs) => DescendantLisIsPreorderFilter(cs);
        case _ =>
      }
      DescendantLisIsPreorderFilter(ns[1..]);
      assert Preorder(ns) == [ns[0]] + below + Preorder(ns[1..]);
      FilterLiAppend([ns[0]] + below, Preorder(ns[1..]));
      FilterLiAppend([ns[0]], below);
      assert FilterLi([ns[0]]) == (if IsLi(ns[0]) then [ns[0]] else []) by {
        assert [ns[0]][1..] == [];
      }
    }
  }

  /** `a` occurs as a contiguous part of `b`. */
  ghost predicate IsInfix(a: string, b: string) {
    exists i, j :: 0 <= i <= j <= |b| && b[i..j] == a
  }

  lemma InfixAt(a: string, b: string, i: nat, j: nat)
    requires i <= j <= |b| && b[i..j] == a
    ensures IsInfix(a, b)
  {
  }

  /** A slice of a slice is a slice of the original. */
  lemma SliceOfSlice(c: string, i2: nat, j2: nat, i1: nat, j1: nat)
    requires i2 <= j2 <= |c| && i1 <= j1 <= j2 - i2
    ensures c[i2..j2][i1..j1] == c[i2 + i1..i2 + j1]
  {
    var inner := c[i2..j2][i1..j1];
    var outer := c[i2 + i1..i2 + j1];
    forall k | 0 <= k < j1 - i1
      ensures inner[k] == outer[k]
    {
      calc {
        inner[k];
        c[i2..j2][i1 + k];
        c[i2 + i1 + k];
        outer[k];
      }
    }
  }

  lemma InfixTransitive(a: string, b: string, c: string)
    requires IsInfix(a, b) && IsInfix(b, c)
    ensures IsInfix(a, c)
  {
    var i1, j1 :| 0 <= i1 <= j1 <= |b| && b[i1..j1] == a;
    var i2, j2 :| 0 <= i2 <= j2 <= |c| && c[i2..j2] == b;
    SliceOfSlice(c, i2, j2, i1, j1);
    InfixAt(a, c, i2 + i1, i2 + j1);
  }

  lemma InfixPrefix(a: string, b: string)
    ensures IsInfix(a, a + b)
  {
    assert (a + b)[0..|a|] == a;
  }

  lemma InfixSuffix(a: string, b: string)
    ensures IsInfix(b, a + b)
  {
    assert (a + b)[|a|..|a + b|] == b;
  }

  /** The text content of every element of a forest is a contiguous part of
      the forest's text. */
  lemma {:induction false} PreorderTextIncluded(ns: seq<Node>, x: Node)
    requires x in Preorder(ns) && x.Element?
    ensures IsInfix(TextContent(x), DescendantText(ns))
    decreases ns
  {
    var head := match ns[0]
      case Text(d) => d
      case Comment(_) => ""
      case Element(_, cs) => DescendantText(cs);
    var tail := DescendantText(ns[1..]);
    assert DescendantText(ns) == head + tail;
    var below := match ns[0]
      case Element(_, cs) => Preorder(cs)
      case _ => [];
    assert Preorder(ns) == [ns[0]] + below + Preorder(ns[1..]);
    if x == ns[0] {
      InfixPrefix(head, tail);
    } else if x in below {
      PreorderTextIncluded(ns[0].children, x);
      InfixPrefix(head, tail);
      InfixTransitive(TextContent(x), head, head + tail);
    } else {
      PreorderTextIncluded(ns[1..], x);
      InfixSuffix(head, tail);
      InfixTransitive(TextContent(x), tail, head + tail);
    }
  }

  lemma {:induction false} FilterLiMember(s: seq<Node>, x: Node)
    requires x in FilterLi(s)
    ensures x in s
    decreases |s|
  {
    if !IsLi(s[0]) || x != s[0] {
      FilterLiMember(s[1..], x);
    }
  }

  /** An `li` nested inside another `li` has its text included in the outer
      item's text. */
  lemma NestedLiTextIncluded(outer: Node, inner: Node)
    requires IsLi(outer) && inner in DescendantLis(outer.children)
    ensures IsInfix(TextContent(inner), TextContent(outer))
  {
    DescendantLisIsPreorderFilter(outer.children);
    FilterLiMember(Preorder(outer.children), inner);
    PreorderTextIncluded(outer.children, inner);
  }

  lemma {:induction false} DescendantLisAppend(a: seq<Node>, b: seq<Node>)
    ensures DescendantLis(a + b) == DescendantLis(a) + DescendantLis(b)
    decreases |a|
  {
    if a == [] {
      assert a + b == b;
    } else {
      assert (a + b)[0] == a[0];
      assert (a + b)[1..] == a[1..] + b;
      DescendantLisAppend(a[1..], b);
    }
  }

  /** Wherever an `li` sits among its siblings, the query returns it
      immediately followed by the `li`s nested in it. */
  lemma NestedLisFollowOuter(before: seq<Node>, li: Node, after: seq<Node>)
    requires IsLi(li)
    ensures DescendantLis(before + [li] + after)
         == DescendantLis(before) + [li] + DescendantLis(li.children) + DescendantLis(after)
  {
    var nested := DescendantLis(li.children);
    assert DescendantLis([li]) == [li] + nested by {
      assert [li][0] == li && [li][1..] == [];
      assert DescendantLis([li]) == [li] + nested + DescendantLis([]);
    }
    DescendantLisAppend(before + [li], after);
    DescendantLisAppend(before, [li]);
  }
}
