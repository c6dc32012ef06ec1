/**
 * The parsed body of a Tomboy/Gnote note: a mixed-content XML tree in which every element has
 * optional leading text (ElementTree's `text`), optional trailing text (`tail`) and ordered
 * children. Tag names are kept as ElementTree spells them, `{namespace}local`.
 */
module NoteTree {
  import opened Wrappers
  import opened Strings

  const TomboyNs: string := "{" + "http://beatniksoftware.com/tomboy}"
  const LinkNs: string := "{" + "http://beatniksoftware.com/tomboy/link}"
  const SizeNs: string := "{" + "http://beatniksoftware.com/tomboy/size}"

  /** The tag vocabulary the converter dispatches on. */
  datatype Tag =
    | List | ListItem
    | Italic | Bold | Strikethrough | Highlight | Monospace | Underline
    | LinkInternal | LinkBroken | LinkUrl
    | Size
    | Unknown

  /**
   * One element of the note body: its raw tag name, the tag that name classifies as (computed
   * once per element, when the tree is built), its own text, its tail and its children.
   */
  datatype Node = Node(name: string, tag: Tag, text: Option<string>, tail: Option<string>, children: seq<Node>)

  /** Builds an element, classifying its raw name. */
  function Element(name: string, text: Option<string>, tail: Option<string>, children: seq<Node>): (n: Node)
    ensures n.tag == Classify(name)
    ensures n.name == name && n.text == text && n.tail == tail && n.children == children
  {
    Node(name, Classify(name), text, tail, children)
  }

  /** Every element of the tree carries the tag its raw name classifies as. */
  predicate WellTagged(n: Node)
    decreases n
  {
    n.tag == Classify(n.name) && forall c :: c in n.children ==> WellTagged(c)
  }

  /** Tags recognised by comparing the whole name. */
  predicate IsExact(t: Tag) { t != Size && t != Unknown }

  /** The namespace of a tag that is recognised by equality. */
  function Namespace(t: Tag): string
    requires IsExact(t)
  {
    if t in {LinkInternal, LinkBroken, LinkUrl} then LinkNs else TomboyNs
  }

  /** The local part of the name of a tag that is recognised by equality. */
  function LocalName(t: Tag): string
    requires IsExact(t)
  {
    match t
    case List => "list"
    case ListItem => "list-item"
    case Italic => "italic"
    case Bold => "bold"
    case Strikethrough => "strikethrough"
    case Highlight => "highlight"
    case Monospace => "monospace"
    case Underline => "underline"
    case LinkInternal => "internal"
    case LinkBroken => "broken"
    case LinkUrl => "url"
  }

  /** The full name of a tag that is recognised by equality. */
  function TagName(t: Tag): string
    requires IsExact(t)
  {
    Namespace(t) + LocalName(t)
  }

  /** The equality tests of the dispatch chain, in the order the converter makes them. */
  function ExactTag(name: string): (r: Option<Tag>)
    ensures r.Some? ==> IsExact(r.value) && TagName(r.value) == name
  {
    if name == TagName(List) then Some(List)
    else if name == TagName(ListItem) then Some(ListItem)
    else if name == TagName(Italic) then Some(Italic)
    else if name == TagName(Bold) then Some(Bold)
    else if name == TagName(Strikethrough) then Some(Strikethrough)
    else if name == TagName(Highlight) then Some(Highlight)
    else if name == TagName(Monospace) then Some(Monospace)
    else if name == TagName(Underline) then Some(Underline)
    else if name == TagName(LinkInternal) then Some(LinkInternal)
    else if name == TagName(LinkBroken) then Some(LinkBroken)
    else if name == TagName(LinkUrl) then Some(LinkUrl)
    else None
  }

  /**
   * Classifies a raw tag name: the exact names first, then any name that merely CONTAINS the
   * size namespace, everything else is unknown.
   */
  function Classify(name: string): (t: Tag)
    ensures IsExact(t) ==> name == TagName(t)
    ensures t == Size <==> ExactTag(name).None? && Contains(name, SizeNs)
    ensures t == Unknown <==> ExactTag(name).None? && !Contains(name, SizeNs)
  {
    match ExactTag(name)
    case Some(t) => t
    case None => if Contains(name, SizeNs) then Size else Unknown
  }

  /** Every exactly-matched tag is recognised from its own name. */
  lemma ClassifyTagName(t: Tag)
    requires IsExact(t)
    ensures Classify(TagName(t)) == t
  {
    var c := Classify(TagName(t));
    ExactTagOwn(t);
    if c != t {
      NamesDistinct(c, t);
    }
  }

  /** The name of an exactly-matched tag passes one of the equality tests. */
  lemma ExactTagOwn(t: Tag)
    requires IsExact(t)
    ensures ExactTag(TagName(t)).Some?
  {
  }

  /** Different exactly-matched tags have different names. */
  lemma NamesDistinct(u: Tag, t: Tag)
    requires IsExact(u) && IsExact(t) && u != t
    ensures TagName(u) != TagName(t)
  {
    var a, b := TagName(u), TagName(t);
    if Namespace(u) != Namespace(t) {
      // the two namespaces part at their 35th character: '}' against '/'
      assert a[34] != b[34];
    } else if |LocalName(u)| == |LocalName(t)| {
      // same namespace and same length: the local names start with different letters
      var k := |Namespace(t)|;
      assert a[k] == LocalName(u)[0] && b[k] == LocalName(t)[0];
    }
  }

  /** Besides its first character, no namespaced tag name contains an opening brace. */
  lemma BraceOnlyFirst(u: Tag)
    requires IsExact(u)
    ensures '{' !in TagName(u)[1..]
  {
    assert TagName(u)[1..] == Namespace(u)[1..] + LocalName(u);
    NamespacesBrace();
    LocalNameBrace(u);
  }

  lemma NamespacesBrace()
    ensures '{' !in TomboyNs[1..] && '{' !in LinkNs[1..]
  {
    assert TomboyNs[1..] == "http://beatniksoftware.com/tomboy}";
    assert LinkNs[1..] == "http://beatniksoftware.com/tomboy/link}";
  }

  lemma LocalNameBrace(u: Tag)
    requires IsExact(u)
    ensures '{' !in LocalName(u)
  {
  }

  /**
   * Any name that CONTAINS the size namespace, wherever it stands (e.g. `size:large`), is a size
   * tag.
   */
  lemma ClassifySizeName(pre: string, local: string)
    ensures Classify(pre + SizeNs + local) == Size
  {
    var name := pre + SizeNs + local;
    forall u | IsExact(u) ensures TagName(u) != name {
      if pre == [] {
        // the size namespace parts from the tomboy one at index 34 and from the link one at 35
        assert name == SizeNs + local;
        var k := if Namespace(u) == TomboyNs then 34 else 35;
        assert TagName(u)[k] != name[k];
      } else {
        // the size namespace opens with a brace at index |pre| > 0, where no exact name has one
        assert name[|pre|] == '{';
        BraceOnlyFirst(u);
        if |pre| < |TagName(u)| {
          assert TagName(u)[|pre|] == TagName(u)[1..][|pre| - 1];
        }
      }
    }
    assert ExactTag(name).None?;
    assert name[|pre|..|pre| + |SizeNs|] == SizeNs;
    assert OccursAt(name, SizeNs, |pre|);
  }
}
