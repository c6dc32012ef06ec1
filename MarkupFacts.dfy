/** Properties of the note-body rendering. */
module MarkupFacts {
  import opened Wrappers
  import opened Strings
  import opened NoteTree
  import opened ZimMarkup

  /** Siblings contribute left to right: rendering a concatenation concatenates the renderings. */
  lemma {:induction false} RenderSeqAppend(a: seq<Node>, b: seq<Node>, d: nat)
    ensures RenderSeq(a + b, d) == RenderSeq(a, d) + RenderSeq(b, d)
    decreases |b|
  {
    if b == [] {
      assert a + b == a;
    } else {
      var last := b[|b| - 1];
      var b' := b[..|b| - 1];
      assert (a + b)[..|a + b| - 1] == a + b' && (a + b)[|a + b| - 1] == last;
      assert RenderSeq(a + b, d) == RenderSeq(a + b', d) + Render(last, d);
      RenderSeqAppend(a, b', d);
      assert RenderSeq(b, d) == RenderSeq(b', d) + Render(last, d);
    }
  }

  /** The unknown tags of a concatenation of siblings are those of each part, in order. */
  lemma {:induction false} WarningsSeqAppend(a: seq<Node>, b: seq<Node>)
    ensures WarningsSeq(a + b) == WarningsSeq(a) + WarningsSeq(b)
    decreases |b|
  {
    if b == [] {
      assert a + b == a;
    } else {
      var b' := b[..|b| - 1];
      assert (a + b)[..|a + b| - 1] == a + b';
      WarningsSeqAppend(a, b');
    }
  }

  /**
   * A list item renders as `depth` tabs, the marker "* ", its own text and its tail, and only
   * then whatever its children render at the same depth: the tail precedes a nested list.
   */
  lemma ListItemLayout(n: Node, d: nat)
    requires n.tag == ListItem
    ensures var head := Tabs(d) + "* " + Str(n.text) + Str(n.tail);
      |head| <= |Render(n, d)| && Render(n, d)[..|head|] == head && Render(n, d)[|head|..] == RenderSeq(n.children, d)
    ensures Render(n, d)[..d + 2] == Tabs(d) + "* "
  {
    var r := Render(n, d);
    var head := Tabs(d) + "* " + Str(n.text) + Str(n.tail);
    assert r == head + RenderSeq(n.children, d);
    assert head[..d + 2] == Tabs(d) + "* ";
  }

  /**
   * A path of child indices from `n` that only passes through lists and list items, the elements
   * whose children the walk descends into.
   */
  predicate ListPath(n: Node, path: seq<nat>)
    decreases |path|
  {
    path == [] ||
    ((n.tag == List || n.tag == ListItem) && path[0] < |n.children| && ListPath(n.children[path[0]], path[1..]))
  }

  /** The element a list path leads to. */
  function At(n: Node, path: seq<nat>): Node
    requires ListPath(n, path)
    decreases |path|
  {
    if path == [] then n else At(n.children[path[0]], path[1..])
  }

  /** How many lists a list path passes through (the element it leads to not included). */
  function ListsAbove(n: Node, path: seq<nat>): nat
    requires ListPath(n, path)
    decreases |path|
  {
    if path == [] then 0 else (if n.tag == List then 1 else 0) + ListsAbove(n.children[path[0]], path[1..])
  }

  /** Each sibling's own rendering appears, unchanged, in the rendering of the siblings. */
  lemma ChildContained(cs: seq<Node>, i: nat, d: nat)
    requires i < |cs|
    ensures Contains(RenderSeq(cs, d), Render(cs[i], d))
  {
    assert cs == cs[..i] + [cs[i]] + cs[i + 1..];
    RenderSeqAppend(cs[..i] + [cs[i]], cs[i + 1..], d);
    RenderSeqAppend(cs[..i], [cs[i]], d);
    assert [cs[i]][..0] == [];
    assert RenderSeq([cs[i]], d) == Render(cs[i], d);
    ContainsMiddle(RenderSeq(cs[..i], d), Render(cs[i], d), RenderSeq(cs[i + 1..], d));
  }

  /** The depth at which a list or list item renders its children: a list adds one level. */
  function ChildDepth(n: Node, d: nat): nat
  {
    if n.tag == List then d + 1 else d
  }

  /** A child's own rendering appears, unchanged, in the rendering of its list or list item. */
  lemma ChildInParent(n: Node, j: nat, d: nat)
    requires (n.tag == List || n.tag == ListItem) && j < |n.children|
    ensures Contains(Render(n, d), Render(n.children[j], ChildDepth(n, d)))
  {
    var d' := ChildDepth(n, d);
    var inner := RenderSeq(n.children, d');
    ChildContained(n.children, j, d');
    if n.tag == List {
      ContainsInPart("", inner, Str(n.tail), Render(n.children[j], d'));
      assert Render(n, d) == "" + inner + Str(n.tail);
    } else {
      ContainsInPart(Tabs(d) + "* " + Str(n.text) + Str(n.tail), inner, "", Render(n.children[j], d'));
      assert Render(n, d) == Tabs(d) + "* " + Str(n.text) + Str(n.tail) + inner + "";
    }
  }

  /**
   * Whatever a list path leads to is rendered, unchanged, inside the rendering of the element the
   * path starts from, at a depth greater by the number of lists passed on the way: a list item
   * keeps the depth, a list adds one.
   */
  lemma {:induction false} DescendantContained(n: Node, path: seq<nat>, d: nat)
    requires ListPath(n, path)
    ensures Contains(Render(n, d), Render(At(n, path), d + ListsAbove(n, path)))
    decreases |path|
  {
    if path == [] {
      ContainsMiddle("", Render(n, d), "");
      assert "" + Render(n, d) + "" == Render(n, d);
    } else {
      var c := n.children[path[0]];
      var d' := ChildDepth(n, d);
      DescendantContained(c, path[1..], d');
      ChildInParent(n, path[0], d);
      assert At(n, path) == At(c, path[1..]);
      assert d + ListsAbove(n, path) == d' + ListsAbove(c, path[1..]);
      ContainsTrans(Render(n, d), Render(c, d'), Render(At(c, path[1..]), d' + ListsAbove(c, path[1..])));
    }
  }

  /**
   * Nesting decides indentation: a list item reached from a top-level element of the note through
   * `k` lists (items between them keep the depth) contributes to the body its bullet line -- `k`
   * tabs, "* ", its own text and its tail -- whatever siblings the lists and items have.
   */
  lemma DeepItemTabs(cs: seq<Node>, i: nat, path: seq<nat>)
    requires i < |cs| && ListPath(cs[i], path) && At(cs[i], path).tag == ListItem
    ensures var item := At(cs[i], path);
      Contains(RenderSeq(cs, 0), Tabs(ListsAbove(cs[i], path)) + "* " + Str(item.text) + Str(item.tail))
  {
    var item := At(cs[i], path);
    var k := ListsAbove(cs[i], path);
    var head := Tabs(k) + "* " + Str(item.text) + Str(item.tail);
    ChildContained(cs, i, 0);
    DescendantContained(cs[i], path, 0);
    ContainsTrans(RenderSeq(cs, 0), Render(cs[i], 0), Render(item, k));
    ContainsMiddle("", head, RenderSeq(item.children, k));
    assert Render(item, k) == "" + head + RenderSeq(item.children, k);
    ContainsTrans(RenderSeq(cs, 0), Render(item, k), head);
  }

  /**
   * The tail of an element survives rendering unless the element goes through the inline
   * formatter with own text exactly "".
   */
  lemma TailKept(n: Node, d: nat)
    requires n.tail.Some?
    requires !IsInline(n.tag) || n.text != Some("")
    ensures Contains(Render(n, d), n.tail.value)
  {
    var t := n.tail.value;
    match n.tag {
      case List =>
        ContainsMiddle(RenderSeq(n.children, d + 1), t, "");
        assert Render(n, d) == RenderSeq(n.children, d + 1) + t + "";
      case ListItem =>
        ContainsMiddle(Tabs(d) + "* " + Str(n.text), t, RenderSeq(n.children, d));
      case LinkInternal =>
        ContainsMiddle(if n.text.Some? then "[[" + n.text.value + "]]" else "", t, "");
        assert Render(n, d) == (if n.text.Some? then "[[" + n.text.value + "]]" else "") + t + "";
      case LinkBroken =>
        ContainsMiddle(if n.text.Some? then "[[" + n.text.value + "]]" else "", t, "");
        assert Render(n, d) == (if n.text.Some? then "[[" + n.text.value + "]]" else "") + t + "";
      case _ =>
        var w := Wrapper(n.tag);
        var own := if n.text.Some? then w + n.text.value + w else "";
        ContainsMiddle(own, t, "");
        assert Render(n, d) == own + t + "";
    }
  }

  /**
   * The inline formatter's tail rule, seen through the walk: own text exactly "" renders nothing
   * at all, an absent own text renders exactly the tail.
   */
  lemma InlineTailRule(n: Node, d: nat)
    requires IsInline(n.tag)
    ensures n.text == Some("") ==> Render(n, d) == ""
    ensures n.text.None? ==> Render(n, d) == Str(n.tail)
  {
  }

  /** The five styles wrap their non-empty text in a two-character marker on both sides. */
  lemma StyledWrapped(n: Node, d: nat)
    requires n.tag in {Italic, Bold, Strikethrough, Highlight, Monospace}
    requires n.text.Some? && n.text.value != ""
    ensures var w := Wrapper(n.tag);
      |w| == 2 && Render(n, d) == w + n.text.value + w + Str(n.tail)
  {
  }

  /** An italic element with own text "x" and no tail renders as "//x//". */
  lemma ItalicExample(d: nat)
    ensures Render(Element(TagName(Italic), Some("x"), None, []), d) == "//x//"
  {
    ClassifyTagName(Italic);
  }

  /**
   * Underline, url links, size tags and unknown tags carry no markup: they render their own text
   * and tail verbatim (nothing at all when own text is exactly "").
   */
  lemma PlainUnmarked(n: Node, d: nat)
    requires IsPlain(n.tag)
    ensures Render(n, d) == if n.text == Some("") then "" else Str(n.text) + Str(n.tail)
  {
    if n.text.Some? && n.text.value != "" {
      assert Wrapper(n.tag) == "";
      assert Render(n, d) == "" + n.text.value + "" + Str(n.tail);
    }
  }

  /**
   * Internal and broken links keep their tail whatever their own text is, unlike the inline
   * formatter: with own text "" a link still renders "[[]]" and its tail.
   */
  lemma LinkRendering(n: Node, d: nat, w: string)
    requires n.tag == LinkInternal || n.tag == LinkBroken
    ensures n.text.None? ==> Render(n, d) == Str(n.tail)
    ensures n.text.Some? ==> Render(n, d) == "[[" + n.text.value + "]]" + Str(n.tail)
    ensures n.text == Some("") ==> Render(n, d) == "[[]]" + Str(n.tail) && FormatText(n, w) == ""
  {
  }

  /** Elements rendered inline ignore their children and the list depth. */
  lemma InlineIgnoresChildrenAndDepth(n: Node, cs: seq<Node>, d: nat, e: nat)
    requires n.tag != List && n.tag != ListItem
    ensures Render(n.(children := cs), d) == Render(n, e)
  {
  }

  /** In a well-tagged tree, every tag the walk warns about is indeed an unknown tag. */
  lemma {:induction false} WarningsAreUnknown(n: Node)
    requires WellTagged(n)
    ensures forall w :: w in Warnings(n) ==> Classify(w) == Unknown
    decreases n, 1
  {
    if n.tag == List || n.tag == ListItem {
      WarningsSeqAreUnknown(n.children);
    }
  }

  lemma {:induction false} WarningsSeqAreUnknown(cs: seq<Node>)
    requires forall c :: c in cs ==> WellTagged(c)
    ensures forall w :: w in WarningsSeq(cs) ==> Classify(w) == Unknown
    decreases cs, 0
  {
    if cs != [] {
      WarningsSeqAreUnknown(cs[..|cs| - 1]);
      WarningsAreUnknown(cs[|cs| - 1]);
    }
  }

  /** Every unknown child of an element the walk visits is warned about. */
  lemma UnknownChildWarned(cs: seq<Node>, i: nat)
    requires i < |cs| && cs[i].tag == Unknown
    ensures cs[i].name in WarningsSeq(cs)
  {
    assert cs == cs[..i] + [cs[i]] + cs[i + 1..];
    WarningsSeqAppend(cs[..i] + [cs[i]], cs[i + 1..]);
    WarningsSeqAppend(cs[..i], [cs[i]]);
    assert [cs[i]][..0] == [];
    assert WarningsSeq([cs[i]]) == [cs[i].name];
  }

  /** Stripping a body that starts with a non-empty title line gives back the rest of it. */
  lemma StripTitleLine(title: string, rest: string)
    requires title != "" && '\n' !in title
    ensures StripFirstLine(title + "\n" + rest) == rest
  {
    var s := title + "\n" + rest;
    var k := LineEnd(s);
    assert s[|title|] == '\n';
    assert s[k + 1..] == rest;
  }
}
