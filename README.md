# tzim in Dafny

A model of the core of `tzim.py`, a one-shot converter from Tomboy/Gnote notes (XML) to Zim wiki
pages. The core is the renderer of a note's body: a walk over the mixed-content XML tree in which
every element has its own leading text, a tail and ordered children. The walk maps list
containers, list items, links and inline styles to Zim markup. It keeps an append-only output
accumulator and a list depth. Around it sit the pure string helpers of the main loop: the output
file name, the timestamp reformatting, the notebook folder and the page layout.

Modules:

- `Wrappers`: `Option`, the model of Python's `None`.
- `Strings`: leftmost substring search, used for `in` and for `re.search` on a literal.
- `NoteTree`: the element tree (`Node`), the closed tag vocabulary (`Tag`) and the
  classification of raw `{namespace}local` tag names into it.
- `ZimMarkup`: the inline formatter `FormatText` and the specification of the walk (`Render`,
  `RenderSeq`, `Warnings`, `WarningsSeq`). It also holds the accumulating procedures
  `IterateElements` / `AppendElement` (with one helper per list, list item and link case), proved
  against that specification, `StripFirstLine` and `ParseContent`.
- `MarkupFacts`: properties of the rendering.
- `NoteFile`: sanitisation and output path, timestamp reformatting, notebook folder, page layout.

Each element stores its tag next to its raw name. The tag is computed once per element by
`Classify`, and `WellTagged` states that the two agree. The walk dispatches on the stored tag,
which keeps the dispatch a single `match`. `Classify` reproduces the order of the converter's
`elif` chain: eleven names compared by equality, then any name that merely contains the size
namespace, then "unknown".

In `format_text` the test `element.text != ""` is true for an absent text, so an inline element
without own text renders exactly its tail; only own text that is exactly `""` drops the tail
(`FormatText`, `InlineTailRule`).

The walk's fidelity to the converter's `elif` chain holds on well-tagged trees (`WellTagged`):
there the stored tag is the one `Classify` computes from the raw name, which is what the
converter tests. `ParseContent` and `IterateElements` do not require it, since their contracts are
stated against `RenderSeq`, which reads only the stored tags.

## Model

| member | source | states |
|---|---|---|
| `NoteTree.Classify` | tzim.py:165-206 | a recognised tag's raw name equals its full namespaced name; the size tag is the one that matches no exact name but contains the size namespace; unknown is what neither matches |
| `NoteTree.ClassifyTagName` | tzim.py:165-199 | each of the eleven exactly-matched tags is recognised from its own name (the names are pairwise distinct) |
| `NoteTree.ClassifySizeName` | tzim.py:201-203 | any name that contains the size namespace anywhere, with anything before and after it (e.g. `size:large`), is a size tag |
| `ZimMarkup.Wrapper` | tzim.py:176-206 | exactly italic, bold, strikethrough, highlight and monospace get a wrapper, and each wrapper is one character doubled; every other tag passes "" |
| `ZimMarkup.Render` | tzim.py:164-206 | what one child contributes at a depth; a list item's contribution starts with `depth` tabs and `* ` |
| `ZimMarkup.RenderSeq` | tzim.py:164-208 | the contributions of siblings in document order; a single child contributes exactly its own rendering |
| `ZimMarkup.Warnings` | tzim.py:204-206 | an element handed to the inline formatter is warned about exactly when its tag is unknown, and then by its own name; links are never warned about |
| `ZimMarkup.WarningsSeq` | tzim.py:164-206 | the warnings for siblings in document order; a single child gives exactly its own |
| `ZimMarkup.FormatText` | tzim.py:211-220 | own text exactly "" gives ""; absent own text gives exactly the tail; non-empty own text gives wrapper, text, wrapper, then the tail; the children never contribute |
| `ZimMarkup.IterateElements` | tzim.py:163-208 | the result is the incoming accumulator followed by the rendering of the element's children in document order; the warnings are the unknown tag names met, in order |
| `ZimMarkup.AppendElement` | tzim.py:164-206 | one loop turn appends exactly the child's own rendering at the current depth and reports its unknown tags |
| `ZimMarkup.AppendList` | tzim.py:165-168 | a list appends its children's rendering one level deeper, then its tail |
| `ZimMarkup.AppendListItem` | tzim.py:169-175 | a list item appends its bullet line, then its children's rendering at the same depth |
| `ZimMarkup.AppendLink` | tzim.py:189-198 | an internal or broken link appends `[[text]]` when it has text, then its tail, exactly what `Render` gives it at any depth |
| `ZimMarkup.StripFirstLine` | tzim.py:150-153 | the result is a suffix of the input; it differs from the input exactly when the input starts with a non-empty line that ends in a newline; then precisely that line and its newline are removed |
| `ZimMarkup.ParseContent` | tzim.py:142-160 | a missing content root fails (None), distinct from an empty body; otherwise the body is the stripped leading text, the rendering of the root's children at depth 0, then the root's tail |
| `MarkupFacts.RenderSeqAppend` | tzim.py:164-208 | siblings contribute left to right: rendering a concatenation of siblings concatenates their renderings |
| `MarkupFacts.ListItemLayout` | tzim.py:169-175 | a list item renders `depth` tabs, `* `, its own text, its tail, and only then its children at the same depth, so the tail precedes any nested list |
| `MarkupFacts.ChildContained` | tzim.py:164-208 | every sibling's own rendering occurs unchanged in the rendering of the siblings |
| `MarkupFacts.ChildInParent` | tzim.py:165-175 | a child of a list occurs rendered one level deeper in the list's rendering, a child of a list item at the item's own depth |
| `MarkupFacts.DescendantContained` | tzim.py:163-175 | anything reached through lists and list items occurs rendered inside the element it is reached from, deeper by the number of lists passed |
| `MarkupFacts.DeepItemTabs` | tzim.py:155-175 | a list item reached from a top-level element of the note through k lists, with any siblings along the way (Tomboy's list, list-item, list, list-item nesting included), puts its bullet line, k tabs, `* `, its text and its tail, into the body |
| `MarkupFacts.TailKept` | tzim.py:163-220 | an element's tail occurs in its rendering unless it goes through the inline formatter with own text exactly "" (that includes unknown tags) |
| `MarkupFacts.InlineTailRule` | tzim.py:211-220 | for elements rendered inline, own text "" renders nothing and absent own text renders exactly the tail |
| `MarkupFacts.StyledWrapped` | tzim.py:176-185 | italic, bold, strikethrough, highlight and monospace wrap non-empty text in a two-character marker on both sides, then append the tail |
| `MarkupFacts.ItalicExample` | tzim.py:176-177 | an italic element with text "x" and no tail renders as `//x//` |
| `MarkupFacts.PlainUnmarked` | tzim.py:186-206 | underline, url links, size tags and unknown tags render their text and tail with no markup |
| `MarkupFacts.LinkRendering` | tzim.py:189-198 | internal and broken links render `[[text]]` only when text is present and always keep the tail, even with own text "" where the inline formatter returns "" |
| `MarkupFacts.InlineIgnoresChildrenAndDepth` | tzim.py:176-206 | an element that is neither a list nor a list item renders the same whatever its children and whatever the depth |
| `MarkupFacts.WarningsAreUnknown` | tzim.py:204-206 | in a well-tagged tree, every tag name the walk warns about classifies as unknown |
| `MarkupFacts.WarningsSeqAreUnknown` | tzim.py:164-206 | the same for a sequence of siblings |
| `MarkupFacts.UnknownChildWarned` | tzim.py:204-206 | every unknown child of a visited element is warned about |
| `MarkupFacts.StripTitleLine` | tzim.py:150-153 | a body that starts with a non-empty title line and a newline gives back exactly the rest |
| `NoteFile.Sanitize` | tzim.py:122-123 | same length; each of `/&<>:; ` becomes `_`, every other character is unchanged |
| `NoteFile.SanitizeIdempotent` | tzim.py:123 | sanitising twice is sanitising once |
| `NoteFile.SanitizeAppend` | tzim.py:123 | sanitising distributes over concatenation |
| `NoteFile.OutputPath` | tzim.py:122-128 | the path is `folder/` (only when the folder is non-empty), then exactly the sanitised title, which has no dangerous character, then `.txt` |
| `NoteFile.FindStamp` | tzim.py:98 | finds the leftmost position where `YYYY-MM-DDTHH:MM:SS` matches, or proves there is none |
| `NoteFile.ReformatDate` | tzim.py:96-105 | with a match, the result is the match's date, a space and its time (19 characters, surroundings dropped); with none, the input unchanged |
| `NoteFile.ReformatDateIdempotent` | tzim.py:98-100 | reformatting a reformatted timestamp changes nothing |
| `NoteFile.ReformatDateOfStamp` | tzim.py:98-100 | `date T time rest` becomes `date time` |
| `NoteFile.NotebookFolder` | tzim.py:106-115 | a non-empty folder is everything after the first `system:notebook:`; an empty folder means no marker has anything after it; a tag without text gives no folder |
| `NoteFile.NotebookOfMarker` | tzim.py:109-111 | `system:notebook:Work` files the note under `Work` |
| `NoteFile.Page` | tzim.py:130-133 | the page is the `====== title ======` line, the body, then a blank line and the two date lines, and the body can be cut back out of it |
| `Strings.FindFrom` | tzim.py:201 | the leftmost occurrence at or after a position, or proof that there is none |

## Left out

- Command-line parsing, path normalisation, the source-file glob, creating the destination and
  notebook directories, and changing directory (tzim.py:31-64, 126-127): operating-system I/O.
- Reading, parsing and writing files, and the XML searches (`ET.fromstring`, `find('.//…')`,
  tzim.py:71-77, 107, 129-135, 143). The model takes the already-built element tree and the
  text of the first `tag` element as inputs.
- Console output. The unknown-tag warning is modelled as the returned list of tag names; the
  other messages are not modelled.
- The main loop's orchestration (tzim.py:68-120, 136): the version warning, the error counter,
  `sys.exit` on a missing title, and the reuse of a stale or unbound `root` after a parse failure.
- A missing content root ends the whole run in the source (`sys.exit`, tzim.py:146-148). The model
  returns `None` and leaves to the caller what happens next.
- Title and date elements whose text is absent. The source passes `None` on to `re.sub` /
  `re.search`, which raises; the model takes strings.
- `\d` in the date pattern matches any Unicode decimal digit in Python. The model accepts only
  ASCII `0`-`9`.
- Several `tags` elements in one note: only the first `tag` of a `tags` element is looked at,
  and the model takes that one tag's text.
