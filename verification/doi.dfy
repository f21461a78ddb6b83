/** `convertDOIsToLinks` (utils/content-parser.ts): every `[doi: X]` citation marker
    becomes a markdown link to https://doi.org/X. */
module Doi {
  import opened Wrappers
  import opened Strings

  /** `[doi:` starts at `p`, the three letters compared case-insensitively. */
  predicate DoiOpensAt(s: string, p: nat) {
    && p + 5 <= |s|
    && s[p] == '['
    && LowerChar(s[p + 1]) == 'd'
    && LowerChar(s[p + 2]) == 'o'
    && LowerChar(s[p + 3]) == 'i'
    && s[p + 4] == ':'
  }

  /** First index at or after `i` holding `c`. */
  function FindChar(s: string, c: char, i: nat): (r: Option<nat>)
    requires i <= |s|
    ensures r.Some? ==> i <= r.value < |s| && s[r.value] == c
    ensures r.Some? ==> forall k :: i <= k < r.value ==> s[k] != c
    ensures r.None? ==> forall k :: i <= k < |s| ==> s[k] != c
    decreases |s| - i
  {
    if i == |s| then None else if s[i] == c then Some(i) else FindChar(s, c, i + 1)
  }

  /** Where the regex `/\[doi:\s*([^\]]+)\]/i` matches at `p`, the index of its closing ']'.
      `\s*([^\]]+)` accepts exactly a non-empty run free of ']', so the match closes at the
      first ']' after the colon, which must not follow it directly. Since `\s*` only
      takes leading white space, the trimmed capture equals the trimmed run. */
  function DoiMatchAt(s: string, p: nat): (r: Option<nat>)
    ensures r.Some? ==> DoiOpensAt(s, p) && p + 5 < r.value < |s| && s[r.value] == ']'
    ensures r.Some? ==> forall k :: p + 5 <= k < r.value ==> s[k] != ']'
    ensures r.None? && DoiOpensAt(s, p) ==>
      (p + 5 < |s| && s[p + 5] == ']') || forall k :: p + 5 <= k < |s| ==> s[k] != ']'
  {
    if !DoiOpensAt(s, p) then None
    else
      var close := FindChar(s, ']', p + 5);
      if close.Some? && close.value > p + 5 then close else None
  }

  /** The replacement text `[doi: X](https://doi.org/X)`. */
  function Link(doi: string): string {
    "[doi: " + doi + "](https://doi.org/" + doi + ")"
  }

  /** The global replace from position `p` on: try the regex at each position left to
      right, and after a match resume right behind it. */
  function ConvertFrom(s: string, p: nat): (r: string)
    requires p <= |s|
    ensures p < |s| ==> r != []
    decreases |s| - p
  {
    if p == |s| then []
    else
      var m := DoiMatchAt(s, p);
      if m.Some? then Link(Trim(s[p + 5..m.value])) + ConvertFrom(s, m.value + 1)
      else [s[p]] + ConvertFrom(s, p + 1)
  }

  function ConvertDOIsToLinks(s: string): (r: string)
    ensures s != [] ==> r != []
  {
    ConvertFrom(s, 0)
  }

  /** Text without a citation marker (from `p` on) passes through unchanged. */
  lemma {:induction false} ConvertWithoutMatch(s: string, p: nat)
    requires p <= |s|
    requires forall k :: p <= k < |s| ==> DoiMatchAt(s, k).None?
    ensures ConvertFrom(s, p) == s[p..]
    decreases |s| - p
  {
    if p < |s| {
      ConvertWithoutMatch(s, p + 1);
      assert s[p..] == [s[p]] + s[p + 1..];
    }
  }

  /** One step of the scan at a position where the regex does not match. */
  lemma ConvertStepCopies(s: string, p: nat)
    requires p < |s| && DoiMatchAt(s, p).None?
    ensures ConvertFrom(s, p) == [s[p]] + ConvertFrom(s, p + 1)
  {
  }

  /** One step of the scan at a position where the regex matches. */
  lemma ConvertStepLinks(s: string, p: nat, q: nat)
    requires p < |s| && DoiMatchAt(s, p) == Some(q)
    ensures ConvertFrom(s, p) == Link(Trim(s[p + 5..q])) + ConvertFrom(s, q + 1)
  {
  }

  /** `[c] + a` followed by `b`, regrouped. */
  lemma ConsAppend(c: char, a: string, b: string, ca: string)
    requires ca == [c] + a
    ensures [c] + (a + b) == ca + b
  {
  }

  /** Positions where the regex does not match are copied one character at a time. */
  lemma {:induction false} ConvertCopiesPrefix(s: string, p: nat, m: nat)
    requires p <= m <= |s|
    requires forall k :: p <= k < m ==> DoiMatchAt(s, k).None?
    ensures ConvertFrom(s, p) == s[p..m] + ConvertFrom(s, m)
    decreases m - p
  {
    if p < m {
      var rest := ConvertFrom(s, m);
      calc {
        ConvertFrom(s, p);
        { ConvertStepCopies(s, p); }
        [s[p]] + ConvertFrom(s, p + 1);
        { ConvertCopiesPrefix(s, p + 1, m); }
        [s[p]] + (s[p + 1..m] + rest);
        { assert s[p..m] == [s[p]] + s[p + 1..m];
          ConsAppend(s[p], s[p + 1..m], rest, s[p..m]); }
        s[p..m] + rest;
      }
    }
  }

  /** Everything before the leftmost marker is copied, the marker becomes a link with the
      trimmed identifier, and the scan resumes right behind the marker's ']'. */
  lemma ConvertAtFirstMatch(s: string, p: nat, m: nat, q: nat)
    requires p <= m < |s|
    requires DoiMatchAt(s, m) == Some(q)
    requires forall k :: p <= k < m ==> DoiMatchAt(s, k).None?
    ensures ConvertFrom(s, p) == s[p..m] + Link(Trim(s[m + 5..q])) + ConvertFrom(s, q + 1)
  {
    ConvertCopiesPrefix(s, p, m);
    ConvertStepLinks(s, m, q);
  }

  /** Text with no `[doi:...]` marker is returned unchanged. */
  lemma ConvertIdentityWithoutMarkers(s: string)
    requires forall k :: 0 <= k < |s| ==> DoiMatchAt(s, k).None?
    ensures ConvertDOIsToLinks(s) == s
  {
    ConvertWithoutMatch(s, 0);
  }
}
