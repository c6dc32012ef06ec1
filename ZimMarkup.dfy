/**
 * Rendering of a note body into Zim wiki markup: the inline formatter (`format_text`), the
 * recursive walk over the children of an element (`iterate_elements`) and the top-level entry
 * (`parse_content`). Render and RenderSeq are the specification; IterateElements and
 * ParseContent are the accumulating procedures of the converter, proved against it.
 */
module ZimMarkup {
  import opened Wrappers
  import opened Strings
  import opened NoteTree

  /** The text of an optional field, "" when absent (`if x is not None: output += str(x)`). */
  function Str(o: Option<string>): string { o.GetOr("") }

  /** `d` indentation units, each a tab. */
  function Tabs(d: nat): (r: string)
    ensures |r| == d && forall i :: 0 <= i < d ==> r[i] == '\t'
  {
    seq(d, _ => '\t')
  }

  /** The wrapper the walk passes to the inline formatter for a tag; "" means no markup. */
  function Wrapper(t: Tag): (w: string)
    ensures w != "" <==> t in {Italic, Bold, Strikethrough, Highlight, Monospace}
    ensures w != "" ==> |w| == 2 && w[0] == w[1]
  {
    match t
    case Italic => "//"
    case Bold => "**"
    case Strikethrough => "~~"
    case Highlight => "__"
    case Monospace => "''"
    case _ => ""
  }

  /** Tags the walk hands to the inline formatter. */
  predicate IsInline(t: Tag) { t !in {List, ListItem, LinkInternal, LinkBroken} }

  /** Tags rendered by the inline formatter with an empty wrapper. */
  predicate IsPlain(t: Tag) { t in {Underline, LinkUrl, Size, Unknown} }

  /**
   * The inline formatter. Own text that is present and non-empty is wrapped; the tail is appended
   * whenever own text is not exactly "" -- so an absent own text keeps the tail, and an empty own
   * text drops it. The children are never looked at.
   */
  function FormatText(n: Node, wrapper: string): (r: string)
    ensures n.text == Some("") ==> r == ""
    ensures n.text.None? ==> r == Str(n.tail)
    ensures n.text.Some? && n.text.value != "" ==> r == wrapper + n.text.value + wrapper + Str(n.tail)
  {
    var own := if n.text.Some? && n.text.value != "" then wrapper + n.text.value + wrapper else "";
    if n.tail.Some? && n.text != Some("") then own + n.tail.value else own
  }

  /** What one child contributes to its parent's rendering, at list depth `d`. */
  function Render(n: Node, d: nat): (r: string)
    ensures n.tag == ListItem ==> |r| >= d + 2 && r[..d + 2] == Tabs(d) + "* "
    decreases n
  {
    match n.tag
    case List => RenderSeq(n.children, d + 1) + Str(n.tail)
    case ListItem => Tabs(d) + "* " + Str(n.text) + Str(n.tail) + RenderSeq(n.children, d)
    case LinkInternal => (if n.text.Some? then "[[" + n.text.value + "]]" else "") + Str(n.tail)
    case LinkBroken => (if n.text.Some? then "[[" + n.text.value + "]]" else "") + Str(n.tail)
    case _ => FormatText(n, Wrapper(n.tag))
  }

  /** The rendering of a sequence of siblings, in document order. */
  function RenderSeq(cs: seq<Node>, d: nat): (r: string)
    ensures |cs| == 1 ==> r == Render(cs[0], d)
    decreases cs
  {
    if cs == [] then "" else RenderSeq(cs[..|cs| - 1], d) + Render(cs[|cs| - 1], d)
  }

  /** The unknown tag names the walk warns about under `n`, in the order it meets them. */
  function Warnings(n: Node): (r: seq<string>)
    ensures IsInline(n.tag) ==> r == (if n.tag == Unknown then [n.name] else [])
    ensures n.tag == LinkInternal || n.tag == LinkBroken ==> r == []
    decreases n
  {
    match n.tag
    case List => WarningsSeq(n.children)
    case ListItem => WarningsSeq(n.children)
    case Unknown => [n.name]
    case _ => []
  }

  /** The unknown tag names the walk warns about under the siblings `cs`, in order. */
  function WarningsSeq(cs: seq<Node>): (r: seq<string>)
    ensures |cs| == 1 ==> r == Warnings(cs[0])
    decreases cs
  {
    if cs == [] then [] else WarningsSeq(cs[..|cs| - 1]) + Warnings(cs[|cs| - 1])
  }

  /** Extending a prefix of the siblings by one more sibling extends both renderings by its own. */
  lemma SnocStep(cs: seq<Node>, i: nat, d: nat)
    requires i < |cs|
    ensures RenderSeq(cs[..i + 1], d) == RenderSeq(cs[..i], d) + Render(cs[i], d)
    ensures WarningsSeq(cs[..i + 1]) == WarningsSeq(cs[..i]) + Warnings(cs[i])
  {
    assert cs[..i + 1][..i] == cs[..i];
  }

  /**
   * The walk over the children of `e`: appends each child's rendering to the accumulator in
   * document order and collects the tag names of unknown elements it meets (the converter prints
   * a warning for each). The incoming accumulator is always kept as a prefix.
   */
  method IterateElements(e: Node, output: string, depth: nat) returns (result: string, warnings: seq<string>)
    ensures result == output + RenderSeq(e.children, depth)
    ensures warnings == WarningsSeq(e.children)
    decreases e, 0
  {
    result, warnings := output, [];
    var i := 0;
    while i < |e.children|
      invariant i <= |e.children|
      invariant result == output + RenderSeq(e.children[..i], depth)
      invariant warnings == WarningsSeq(e.children[..i])
    {
      var w;
      result, w := AppendElement(e.children[i], result, depth);
      warnings := warnings + w;
      SnocStep(e.children, i, depth);
      i := i + 1;
    }
    assert e.children[..i] == e.children;
  }

  /**
   * One turn of the walk: appends what `element` contributes at list depth `depth` to the
   * accumulator, dispatching on its tag.
   */
  method AppendElement(element: Node, output: string, depth: nat) returns (result: string, warnings: seq<string>)
    ensures result == output + Render(element, depth)
    ensures warnings == Warnings(element)
    decreases element, 2
  {
    match element.tag {
      case List =>
        result, warnings := AppendList(element, output, depth);
      case ListItem =>
        result, warnings := AppendListItem(element, output, depth);
      case LinkInternal =>
        result := AppendLink(element, output, depth);
        warnings := [];
      case LinkBroken =>
        result := AppendLink(element, output, depth);
        warnings := [];
      case Unknown =>
        result, warnings := output + FormatText(element, ""), [element.name];
      case _ =>
        result, warnings := output + FormatText(element, Wrapper(element.tag)), [];
    }
  }

  /** A list: its items one level deeper, then its tail. */
  method AppendList(element: Node, output: string, depth: nat) returns (result: string, warnings: seq<string>)
    requires element.tag == List
    ensures result == output + Render(element, depth)
    ensures warnings == Warnings(element)
    decreases element, 1
  {
    result, warnings := IterateElements(element, output, depth + 1);
    if element.tail.Some? {
      result := result + element.tail.value;
    }
    assert result == output + (RenderSeq(element.children, depth + 1) + Str(element.tail));
  }

  /** A list item: its bullet line at the current depth, then its children at the same depth. */
  method AppendListItem(element: Node, output: string, depth: nat) returns (result: string, warnings: seq<string>)
    requires element.tag == ListItem
    ensures result == output + Render(element, depth)
    ensures warnings == Warnings(element)
    decreases element, 1
  {
    result := output + Tabs(depth) + "* ";
    if element.text.Some? {
      result := result + element.text.value;
    }
    if element.tail.Some? {
      result := result + element.tail.value;
    }
    var head := Tabs(depth) + "* " + Str(element.text) + Str(element.tail);
    assert result == output + head;
    result, warnings := IterateElements(element, result, depth);
    ListItemRender(element, depth);
  }

  /** A list item's bullet line, then its children at the same depth. */
  lemma ListItemRender(n: Node, d: nat)
    requires n.tag == ListItem
    ensures Render(n, d) == Tabs(d) + "* " + Str(n.text) + Str(n.tail) + RenderSeq(n.children, d)
  {
  }

  /** A note link, internal or broken: the link text in double brackets, then the tail. */
  method AppendLink(element: Node, output: string, depth: nat) returns (result: string)
    requires element.tag == LinkInternal || element.tag == LinkBroken
    ensures result == output + Render(element, depth)
  {
    result := output;
    if element.text.Some? {
      result := result + "[[" + element.text.value + "]]";
    }
    if element.tail.Some? {
      result := result + element.tail.value;
    }
  }

  /**
   * Python's `re.sub(r'^.+\n', '', s)`: removes the first line and its newline when that line
   * is non-empty and ends in a newline; otherwise `s` is returned unchanged.
   */
  function StripFirstLine(s: string): (r: string)
    ensures |r| <= |s| && r == s[|s| - |r|..]
    ensures r != s <==> |s| > 0 && s[0] != '\n' && '\n' in s
    ensures r != s ==> s[|s| - |r| - 1] == '\n' && forall j :: 0 <= j < |s| - |r| - 1 ==> s[j] != '\n'
  {
    var k := LineEnd(s);
    if 0 < k < |s| then s[k + 1..] else s
  }

  /** The index of the first newline of `s`, or `|s|` when it has none. */
  function LineEnd(s: string): (k: nat)
    ensures k <= |s|
    ensures k < |s| ==> s[k] == '\n'
    ensures forall j :: 0 <= j < k ==> s[j] != '\n'
  {
    if s == [] || s[0] == '\n' then 0 else 1 + LineEnd(s[1..])
  }

  /** The content root's leading text with the repeated title line removed. */
  function LeadingText(root: Node): string
  {
    if root.text.Some? then StripFirstLine(root.text.value) else ""
  }

  /**
   * The body of a note: the content root's leading text without its first line (a repeat of the
   * title), then the rendering of the root's children at depth 0, then the root's tail. A missing
   * content root is a failure (`None`), distinct from an empty body.
   */
  method ParseContent(content: Option<Node>) returns (body: Option<string>, warnings: seq<string>)
    ensures content.None? ==> body.None? && warnings == []
    ensures content.Some? ==> body == Some(LeadingText(content.value) + RenderSeq(content.value.children, 0) + Str(content.value.tail))
    ensures content.Some? ==> warnings == WarningsSeq(content.value.children)
  {
    if content.None? {
      return None, [];
    }
    var root := content.value;
    var output := "";
    if root.text.Some? {
      output := StripFirstLine(root.text.value);
    }
    var rendered;
    rendered, warnings := IterateElements(root, "", 0);
    assert rendered == RenderSeq(root.children, 0);
    output := output + rendered;
    if root.tail.Some? {
      output := output + root.tail.value;
    }
    assert output == LeadingText(root) + rendered + Str(root.tail);
    body := Some(output);
  }
}
