/**
 * The per-note string logic of the converter's main loop: the output file name, the timestamps,
 * the notebook folder and the layout of the written Zim page.
 */
module NoteFile {
  import opened Wrappers
  import opened Strings

  /** Characters a title may not carry into a file name. */
  const Dangerous: set<char> := {'/', '&', '<', '>', ':', ';', ' '}

  /** Python's `re.sub("[/&<>:; ]", "_", title)`. */
  function Sanitize(title: string): (r: string)
    ensures |r| == |title|
    ensures forall i :: 0 <= i < |title| ==> r[i] == (if title[i] in Dangerous then '_' else title[i])
  {
    if title == [] then []
    else [if title[0] in Dangerous then '_' else title[0]] + Sanitize(title[1..])
  }

  /** Sanitising twice is sanitising once. */
  lemma SanitizeIdempotent(title: string)
    ensures Sanitize(Sanitize(title)) == Sanitize(title)
  {
    var once := Sanitize(title);
    assert forall i :: 0 <= i < |once| ==> once[i] !in Dangerous;
  }

  /** The file the note is written to, relative to the destination directory. */
  function OutputPath(title: string, folder: string): (p: string)
    ensures var dir := if folder == "" then 0 else |folder| + 1;
      |p| == dir + |title| + 4 && p[..dir] == (if folder == "" then "" else folder + "/")
    ensures p[|p| - 4 - |title|..|p| - 4] == Sanitize(title)
    ensures forall i :: |p| - 4 - |title| <= i < |p| - 4 ==> p[i] !in Dangerous
    ensures p[|p| - 4..] == ".txt"
  {
    var name := Sanitize(title) + ".txt";
    if folder != "" then folder + "/" + name else name
  }

  /** Sanitising distributes over concatenation. */
  lemma SanitizeAppend(a: string, b: string)
    ensures Sanitize(a + b) == Sanitize(a) + Sanitize(b)
  {
    assert forall i :: 0 <= i < |a + b| ==> Sanitize(a + b)[i] == (Sanitize(a) + Sanitize(b))[i];
  }

  predicate IsDigit(c: char) { '0' <= c <= '9' }

  /** `s` at index `i` matches `\d{4}-\d{2}-\d{2}T\d{2}:\d{2}:\d{2}` (19 characters). */
  predicate StampAt(s: string, i: nat)
  {
    i + 19 <= |s| &&
    IsDigit(s[i]) && IsDigit(s[i + 1]) && IsDigit(s[i + 2]) && IsDigit(s[i + 3]) && s[i + 4] == '-' &&
    IsDigit(s[i + 5]) && IsDigit(s[i + 6]) && s[i + 7] == '-' && IsDigit(s[i + 8]) && IsDigit(s[i + 9]) &&
    s[i + 10] == 'T' &&
    IsDigit(s[i + 11]) && IsDigit(s[i + 12]) && s[i + 13] == ':' && IsDigit(s[i + 14]) && IsDigit(s[i + 15]) &&
    s[i + 16] == ':' && IsDigit(s[i + 17]) && IsDigit(s[i + 18])
  }

  /** The leftmost timestamp in `s` at or after `from`, as `re.search` finds it. */
  function FindStamp(s: string, from: nat): (r: Option<nat>)
    ensures r.Some? ==> from <= r.value && StampAt(s, r.value)
    ensures r.Some? ==> forall j :: from <= j < r.value ==> !StampAt(s, j)
    ensures r.None? ==> forall j :: from <= j ==> !StampAt(s, j)
    decreases |s| - from
  {
    if from + 19 > |s| then None
    else if StampAt(s, from) then Some(from)
    else FindStamp(s, from + 1)
  }

  /**
   * A Tomboy timestamp such as "2021-03-04T10:11:12.0000000+00:00" becomes "2021-03-04 10:11:12":
   * the date and time of the leftmost match, joined by a space (everything around the match is
   * dropped). A string without a match is kept as it is.
   */
  function ReformatDate(s: string): (r: string)
    ensures FindStamp(s, 0).None? ==> r == s
    ensures FindStamp(s, 0).Some? ==> var i := FindStamp(s, 0).value;
      |r| == 19 && r[..10] == s[i..i + 10] && r[10] == ' ' && r[11..] == s[i + 11..i + 19]
  {
    match FindStamp(s, 0)
    case None => s
    case Some(i) => s[i..i + 10] + " " + s[i + 11..i + 19]
  }

  /** Reformatting a reformatted timestamp changes nothing. */
  lemma ReformatDateIdempotent(s: string)
    ensures ReformatDate(ReformatDate(s)) == ReformatDate(s)
  {
    var r := ReformatDate(s);
    if FindStamp(s, 0).Some? {
      // the only place a 19-character stamp could start is 0, where a space stands instead of 'T'
      assert !StampAt(r, 0);
    }
  }

  /** A date `YYYY-MM-DD` and time `HH:MM:SS` joined by 'T' come back joined by a space. */
  lemma ReformatDateOfStamp(date: string, time: string, rest: string)
    requires |date| == 10 && |time| == 8
    requires forall i :: 0 <= i < 10 ==> (if i == 4 || i == 7 then date[i] == '-' else IsDigit(date[i]))
    requires forall i :: 0 <= i < 8 ==> (if i == 2 || i == 5 then time[i] == ':' else IsDigit(time[i]))
    ensures ReformatDate(date + "T" + time + rest) == date + " " + time
  {
    var s := date + "T" + time + rest;
    assert forall i :: 0 <= i < 10 ==> s[i] == date[i];
    assert forall i :: 0 <= i < 8 ==> s[11 + i] == time[i];
    assert StampAt(s, 0);
    assert s[..10] == date;
    assert s[11..19] == time;
  }

  const NotebookMarker: string := "system:notebook:"

  /**
   * The notebook named by the text of a note's first tag, as `re.search("system:notebook:(.+)$",
   * str(text), re.S)`: everything after the first marker, when that is not empty; "" (no folder)
   * otherwise, including when the tag has no text (`str(None)` is "None").
   */
  function NotebookFolder(text: Option<string>): (folder: string)
    ensures text.None? ==> folder == ""
    ensures text.Some? && folder != "" ==> var s := text.value; var k := |s| - |folder| - |NotebookMarker|;
      0 <= k && OccursAt(s, NotebookMarker, k) && s[k + |NotebookMarker|..] == folder &&
      forall j :: 0 <= j < k ==> !OccursAt(s, NotebookMarker, j)
    ensures text.Some? && folder == "" ==>
      forall j: nat :: OccursAt(text.value, NotebookMarker, j) ==> j + |NotebookMarker| == |text.value|
  {
    var s := if text.Some? then text.value else "None";
    match Find(s, NotebookMarker)
    case None => ""
    case Some(k) => s[k + |NotebookMarker|..]
  }

  /** The tag "system:notebook:Work" files the note in the folder "Work". */
  lemma NotebookOfMarker(name: string)
    requires name != ""
    ensures NotebookFolder(Some(NotebookMarker + name)) == name
  {
    var s := NotebookMarker + name;
    assert s[..|NotebookMarker|] == NotebookMarker;
    assert OccursAt(s, NotebookMarker, 0);
  }

  /** The first line of the written page. */
  function HeaderLine(title: string): string { "====== " + title + " ======\n" }

  /** What follows the body on the written page: a blank line and the two dates. */
  function Footer(lastChange: string, created: string): string
  {
    "\n\nLast changed (in Tomboy/Gnote): " + lastChange + "\nNote created (in Tomboy/Gnote): " + created + "\n"
  }

  lemma ThreeParts(a: string, b: string, c: string)
    ensures var s := a + b + c;
      s[..|a|] == a && s[|a|..|s| - |c|] == b && s[|s| - |c|..] == c
  {
    var s := a + b + c;
    assert s[..|a|] == a;
    assert s[|a|..|s| - |c|] == b;
    assert s[|s| - |c|..] == c;
  }

  /** The Zim page written for a note: the title as a level-1 heading, the body, then the dates. */
  function Page(title: string, body: string, lastChange: string, created: string): (page: string)
    ensures |page| == |HeaderLine(title)| + |body| + |Footer(lastChange, created)|
    ensures page[..|HeaderLine(title)|] == HeaderLine(title)
    ensures page[|HeaderLine(title)|..|page| - |Footer(lastChange, created)|] == body
    ensures page[|page| - |Footer(lastChange, created)|..] == Footer(lastChange, created)
  {
    ThreeParts(HeaderLine(title), body, Footer(lastChange, created));
    HeaderLine(title) + body + Footer(lastChange, created)
  }
}
