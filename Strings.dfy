/** Substring search on strings, as Python's `in` operator and `re.search` scan for a literal. */
module Strings {
  import opened Wrappers

  /** `pat` occurs in `s` starting at index `i`. */
  predicate OccursAt(s: string, pat: string, i: nat)
  {
    i + |pat| <= |s| && s[i..i + |pat|] == pat
  }

  /** The leftmost occurrence of `pat` in `s` at or after index `from`, if any. */
  function FindFrom(s: string, pat: string, from: nat): (r: Option<nat>)
    ensures r.Some? ==> from <= r.value && OccursAt(s, pat, r.value)
    ensures r.Some? ==> forall j :: from <= j < r.value ==> !OccursAt(s, pat, j)
    ensures r.None? ==> forall j :: from <= j ==> !OccursAt(s, pat, j)
    decreases |s| - from
  {
    if from + |pat| > |s| then None
    else if s[from..from + |pat|] == pat then Some(from)
    else FindFrom(s, pat, from + 1)
  }

  /** The leftmost occurrence of `pat` in `s`, if any. */
  function Find(s: string, pat: string): (r: Option<nat>)
    ensures r.Some? ==> OccursAt(s, pat, r.value)
    ensures r.Some? ==> forall j :: 0 <= j < r.value ==> !OccursAt(s, pat, j)
    ensures r.None? ==> forall j :: 0 <= j ==> !OccursAt(s, pat, j)
  {
    FindFrom(s, pat, 0)
  }

  /** Python's `pat in s`. */
  predicate Contains(s: string, pat: string)
  {
    Find(s, pat).Some?
  }

  /** `Contains` holds exactly when some index is an occurrence. */
  lemma ContainsIff(s: string, pat: string)
    ensures Contains(s, pat) <==> exists i: nat :: OccursAt(s, pat, i)
  {
    if !Contains(s, pat) {
      assert forall i: nat :: !OccursAt(s, pat, i);
    }
  }

  /** Whatever surrounds it, a string contains itself. */
  lemma ContainsMiddle(p: string, t: string, q: string)
    ensures Contains(p + t + q, t)
  {
    var s := p + t + q;
    assert s[|p|..|p| + |t|] == t;
    assert OccursAt(s, t, |p|);
  }

  /** A string contained in a part of a concatenation is contained in the whole. */
  lemma ContainsInPart(p: string, m: string, q: string, t: string)
    requires Contains(m, t)
    ensures Contains(p + m + q, t)
  {
    ContainsIff(m, t);
    var i: nat :| OccursAt(m, t, i);
    var s := p + m + q;
    assert s[|p| + i..|p| + i + |t|] == m[i..i + |t|];
    assert OccursAt(s, t, |p| + i);
    ContainsIff(s, t);
  }

  /** Containment is transitive. */
  lemma ContainsTrans(s: string, m: string, t: string)
    requires Contains(s, m) && Contains(m, t)
    ensures Contains(s, t)
  {
    ContainsIff(s, m);
    var i: nat :| OccursAt(s, m, i);
    assert s == s[..i] + m + s[i + |m|..];
    ContainsInPart(s[..i], m, s[i + |m|..], t);
  }
}
