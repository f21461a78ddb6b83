/** `parseTaggedContent` and `getSectionTitle` (utils/content-parser.ts): split text into
    ordered, typed sections at `<name>...</name>` tags. */
module TagParser {
  import opened Wrappers
  import opened Strings
  import opened SectionTypes
  import opened Sections
  import Doi

  /** A piece of the input in reading order: untagged text, or one match of the tag
      regex `/<(\w+)>([\s\S]*?)<\/\1>/g`. */
  datatype Segment = Plain(raw: string) | Tagged(name: string, inner: string)

  function Opening(name: string): string { "<" + name + ">" }

  function Closing(name: string): string { "</" + name + ">" }

  /** The input text a segment was cut from. */
  function RawText(g: Segment): string {
    if g.Plain? then g.raw else Opening(g.name) + g.inner + Closing(g.name)
  }

  function Flatten(gs: seq<Segment>): string {
    if gs == [] then [] else RawText(gs[0]) + Flatten(gs[1..])
  }

  /** `pat` occurs in `s` at index `k`. */
  predicate OccursAt(s: string, pat: string, k: int) {
    0 <= k && k + |pat| <= |s| && s[k..k + |pat|] == pat
  }

  /** First occurrence of `pat` in `s` at or after `i`. */
  function FindFrom(s: string, pat: string, i: nat): (r: Option<nat>)
    requires i <= |s|
    ensures r.Some? ==> i <= r.value && OccursAt(s, pat, r.value)
    ensures r.Some? ==> forall k :: i <= k < r.value ==> !OccursAt(s, pat, k)
    ensures r.None? ==> forall k :: i <= k ==> !OccursAt(s, pat, k)
    decreases |s| - i
  {
    if i + |pat| > |s| then None
    else if s[i..i + |pat|] == pat then Some(i)
    else FindFrom(s, pat, i + 1)
  }

  lemma SliceSplit3(s: string, a: nat, b: nat, c: nat, d: nat)
    requires a <= b <= c <= d <= |s|
    ensures s[a..d] == s[a..b] + s[b..c] + s[c..d]
  {
  }

  lemma SuffixSplit3(s: string, a: nat, b: nat, c: nat)
    requires a <= b <= c <= |s|
    ensures s[a..] == s[a..b] + s[b..c] + s[c..]
  {
  }

  /** An infix free of `pat` between `lo` and `hi` holds no occurrence of `pat`. */
  lemma NoOccurrenceInInfix(s: string, pat: string, lo: nat, hi: nat)
    requires lo <= hi <= |s| && pat != []
    requires forall k :: lo <= k < hi ==> !OccursAt(s, pat, k)
    ensures forall k :: 0 <= k ==> !OccursAt(s[lo..hi], pat, k)
  {
    forall k | 0 <= k ensures !OccursAt(s[lo..hi], pat, k) {
      if OccursAt(s[lo..hi], pat, k) {
        forall j | 0 <= j < |pat| ensures s[lo + k..lo + k + |pat|][j] == pat[j] {
          assert pat[j] == s[lo..hi][k + j];
        }
        assert s[lo + k..lo + k + |pat|] == pat;
        assert OccursAt(s, pat, lo + k) && lo + k < hi;
      }
    }
  }

  /** End of the maximal run of `\w` characters that starts at `i`. */
  function WordRunEnd(s: string, i: nat): (j: nat)
    requires i <= |s|
    ensures i <= j <= |s|
    ensures forall k :: i <= k < j ==> IsWordChar(s[k])
    ensures j == |s| || !IsWordChar(s[j])
    decreases |s| - i
  {
    if i < |s| && IsWordChar(s[i]) then WordRunEnd(s, i + 1) else i
  }

  /** A match of the tag regex: the tag name, the text between the tags, and the index
      just past the closing tag. */
  datatype TagMatch = TagMatch(name: string, inner: string, end: nat)

  /** Whether the tag regex matches at `p`. Since `>` is not a word character, `(\w+)>`
      can only take the maximal word run; the lazy body then stops at the first
      `</name>`, compared case-sensitively. Without such a closer there is no match at `p`. */
  function MatchAt(text: string, p: nat): (r: Option<TagMatch>)
    requires p < |text|
    ensures r.Some? ==> p < r.value.end <= |text|
    ensures r.Some? ==> text[p..r.value.end] == RawText(Tagged(r.value.name, r.value.inner))
    ensures r.Some? ==> r.value.name != [] && forall k :: 0 <= k < |r.value.name| ==> IsWordChar(r.value.name[k])
    ensures r.Some? ==> forall k :: 0 <= k ==> !OccursAt(r.value.inner, Closing(r.value.name), k)
    ensures r.None? ==> forall name, inner :: IsWordName(name) ==> !TagOccursAt(text, p, name, inner)
    ensures r.Some? ==> forall name, inner :: IsWordName(name) && TagOccursAt(text, p, name, inner) ==>
      r.value.name == name && r.value.inner <= inner
  {
    if text[p] != '<' then NoTagAt(text, p); None
    else
      var n := WordRunEnd(text, p + 1);
      if n == p + 1 || n == |text| || text[n] != '>' then NoTagAt(text, p); None
      else
        var name := text[p + 1..n];
        var close := FindFrom(text, Closing(name), n + 1);
        if close.None? then NoTagAt(text, p); None
        else
          var q := close.value;
          TagMatchShape(text, p, n, q, name, text[n + 1..q], Closing(name));
          LazyTagAt(text, p, n, q);
          Some(TagMatch(name, text[n + 1..q], q + |name| + 3))
  }

  /** An opening tag at `p` ending at `n` and the first closer of the same name at `q` cut
      out exactly one tagged segment, whose inner text holds no such closer. */
  lemma TagMatchShape(text: string, p: nat, n: nat, q: nat, name: string, inner: string, closer: string)
    requires p < n < q && q + |closer| <= |text| && text[p] == '<' && text[n] == '>'
    requires name == text[p + 1..n] && inner == text[n + 1..q] && closer == Closing(name)
    requires OccursAt(text, closer, q) && forall k :: n + 1 <= k < q ==> !OccursAt(text, closer, k)
    ensures text[p..q + |closer|] == Opening(name) + inner + closer
    ensures forall k :: 0 <= k ==> !OccursAt(inner, closer, k)
  {
    OpeningAt(text, p, n);
    SliceSplit3(text, p, n + 1, q, q + |closer|);
    NoOccurrenceInInfix(text, closer, n + 1, q);
  }

  /** The text from a '<' to the next '>' is the opening tag of the name between them. */
  lemma OpeningAt(text: string, p: nat, n: nat)
    requires p < n < |text| && text[p] == '<' && text[n] == '>'
    ensures text[p..n + 1] == Opening(text[p + 1..n])
  {
    var o := Opening(text[p + 1..n]);
    forall k | 0 <= k <= n - p ensures text[p..n + 1][k] == o[k] {
      if 0 < k < n - p {
        assert o[k] == text[p + 1..n][k - 1];
      }
    }
  }

  /** A non-empty run of `\w` characters, as `(\w+)` captures. */
  predicate IsWordName(name: string) {
    name != [] && forall k :: 0 <= k < |name| ==> IsWordChar(name[k])
  }

  /** `<name>inner</name>` occurs in `text` at `p`: text the tag regex could match there,
      read as the opening tag, the body and the closing tag one after another. */
  predicate TagOccursAt(text: string, p: nat, name: string, inner: string) {
    && OccursAt(text, Opening(name), p)
    && OccursAt(text, inner, p + |Opening(name)|)
    && OccursAt(text, Closing(name), p + |Opening(name)| + |inner|)
  }

  /** The three consecutive pieces are one occurrence of the whole tagged text. */
  lemma TagOccursAtWhole(text: string, p: nat, name: string, inner: string)
    ensures TagOccursAt(text, p, name, inner) <==> OccursAt(text, Opening(name) + inner + Closing(name), p)
  {
    if OccursAt(text, Opening(name) + inner + Closing(name), p) {
      SplitOccurrence(text, p, Opening(name) + inner, Closing(name));
      SplitOccurrence(text, p, Opening(name), inner);
    }
    if TagOccursAt(text, p, name, inner) {
      var a := |Opening(name)|;
      var b := a + |inner|;
      var c := b + |Closing(name)|;
      SliceSplit3(text, p, p + a, p + b, p + c);
    }
  }

  /** A run of word characters from `i` that stops at `j` is the maximal one. */
  lemma {:induction false} WordRunEndAt(s: string, i: nat, j: nat)
    requires i <= j <= |s|
    requires forall k :: i <= k < j ==> IsWordChar(s[k])
    requires j == |s| || !IsWordChar(s[j])
    ensures WordRunEnd(s, i) == j
    decreases j - i
  {
    if i < j {
      WordRunEndAt(s, i + 1, j);
    }
  }

  /** The pieces of an occurrence of `<name>inner</name>` at `p`, where `n` is the index
      of its first `>` and `q` that of its closer. */
  lemma TagOccurrenceParts(text: string, p: nat, name: string, inner: string)
    requires TagOccursAt(text, p, name, inner)
    ensures var n := p + 1 + |name|; var q := n + 1 + |inner|;
      && q + |Closing(name)| <= |text| && text[p] == '<' && text[n] == '>'
      && text[p + 1..n] == name && text[n + 1..q] == inner && OccursAt(text, Closing(name), q)
  {
    assert |Opening(name)| == |name| + 2;
    OpeningParts(text, p, name);
  }

  /** An occurrence of `a + b` is one of `a` followed by one of `b`. */
  lemma SplitOccurrence(text: string, p: nat, a: string, b: string)
    requires OccursAt(text, a + b, p)
    ensures OccursAt(text, a, p) && OccursAt(text, b, p + |a|)
    ensures text[p..p + |a|] == a && text[p + |a|..p + |a| + |b|] == b
  {
    SubSlice(text, p, p + |a| + |b|, 0, |a|);
    SubSlice(text, p, p + |a| + |b|, |a|, |a| + |b|);
    ConcatPart([], a, b);
  }

  /** An occurrence of `<name>` at `p`: '<', then the name, then '>'. */
  lemma OpeningParts(text: string, p: nat, name: string)
    requires OccursAt(text, "<" + name + ">", p)
    ensures text[p] == '<' && text[p + 1..p + 1 + |name|] == name && text[p + 1 + |name|] == '>'
  {
    var o := "<" + name + ">";
    assert text[p..p + |o|] == o;
    assert text[p] == o[0];
    assert text[p + 1 + |name|] == o[1 + |name|];
    SubSlice(text, p, p + |o|, 1, 1 + |name|);
    ConcatPart("<", name, ">");
  }

  lemma SubSlice(s: string, a: nat, b: nat, c: nat, d: nat)
    requires a <= b <= |s| && c <= d <= b - a
    ensures s[a..b][c..d] == s[a + c..a + d]
  {
    forall k | 0 <= k < d - c ensures s[a..b][c..d][k] == s[a + c..a + d][k] {
      assert s[a..b][c..d][k] == s[a..b][c + k];
    }
  }

  lemma ConcatPart(a: string, b: string, c: string)
    ensures (a + b + c)[|a|..|a| + |b|] == b
    ensures (a + b + c)[|a| + |b|..|a + b + c|] == c
  {
  }

  /** Every occurrence of `<name>inner</name>` at `p` with a word name pins down the parts
      MatchAt reads: the word run from `p + 1` ends at the '>' that closes the name, and a
      closer of that name follows the body. */
  lemma TagOccurrenceDetermines(text: string, p: nat, name: string, inner: string)
    requires p < |text| && IsWordName(name) && TagOccursAt(text, p, name, inner)
    ensures var n := p + 1 + |name|; var q := n + 1 + |inner|;
      && n < |text| && text[p] == '<' && WordRunEnd(text, p + 1) == n && text[n] == '>'
      && text[p + 1..n] == name && q + |Closing(name)| <= |text| && text[n + 1..q] == inner
      && OccursAt(text, Closing(name), q)
  {
    var n := p + 1 + |name|;
    TagOccurrenceParts(text, p, name, inner);
    forall k | p + 1 <= k < n ensures IsWordChar(text[k]) {
      assert text[k] == text[p + 1..n][k - p - 1];
    }
    WordRunEndAt(text, p + 1, n);
  }

  /** Where MatchAt gives up (no '<', no word run closed by '>', or no closer of that name
      after it), no `<name>inner</name>` occurs at `p`. */
  lemma NoTagAt(text: string, p: nat)
    requires p < |text|
    requires || text[p] != '<'
             || WordRunEnd(text, p + 1) == p + 1 || WordRunEnd(text, p + 1) == |text|
             || text[WordRunEnd(text, p + 1)] != '>'
             || FindFrom(text, Closing(text[p + 1..WordRunEnd(text, p + 1)]), WordRunEnd(text, p + 1) + 1).None?
    ensures forall name, inner :: IsWordName(name) ==> !TagOccursAt(text, p, name, inner)
  {
    forall name, inner | IsWordName(name) ensures !TagOccursAt(text, p, name, inner) {
      if TagOccursAt(text, p, name, inner) {
        TagOccurrenceDetermines(text, p, name, inner);
      }
    }
  }

  /** Where MatchAt succeeds, any `<name>inner</name>` at `p` has its name, and the body
      it takes, ending at the first closer, is a prefix of `inner`. */
  lemma LazyTagAt(text: string, p: nat, n: nat, q: nat)
    requires p + 1 < n < |text| && text[p] == '<' && WordRunEnd(text, p + 1) == n && text[n] == '>'
    requires FindFrom(text, Closing(text[p + 1..n]), n + 1) == Some(q)
    ensures forall name, inner :: IsWordName(name) && TagOccursAt(text, p, name, inner) ==>
      text[p + 1..n] == name && text[n + 1..q] <= inner
  {
    forall name, inner | IsWordName(name) && TagOccursAt(text, p, name, inner)
      ensures text[p + 1..n] == name && text[n + 1..q] <= inner
    {
      LazyTagInstance(text, p, n, q, name, inner);
    }
  }

  lemma LazyTagInstance(text: string, p: nat, n: nat, q: nat, name: string, inner: string)
    requires p + 1 < n < |text| && WordRunEnd(text, p + 1) == n
    requires FindFrom(text, Closing(text[p + 1..n]), n + 1) == Some(q)
    requires IsWordName(name) && TagOccursAt(text, p, name, inner)
    ensures text[p + 1..n] == name && text[n + 1..q] <= inner
  {
    LazyCloserFirst(text, p, n, q, name, inner);
    TagOccurrenceDetermines(text, p, name, inner);
    SlicePrefix(text, n + 1, q, n + 1 + |inner|);
  }

  /** The lazy body stops at or before the end of any body a tag at `p` could have. */
  lemma LazyCloserFirst(text: string, p: nat, n: nat, q: nat, name: string, inner: string)
    requires p + 1 < n < |text| && WordRunEnd(text, p + 1) == n
    requires FindFrom(text, Closing(text[p + 1..n]), n + 1) == Some(q)
    requires IsWordName(name) && TagOccursAt(text, p, name, inner)
    ensures q <= n + 1 + |inner|
  {
    TagOccurrenceDetermines(text, p, name, inner);
    var c := Closing(text[p + 1..n]);
    assert c == Closing(name);
    FirstOccurrence(text, c, n + 1, q, n + 1 + |inner|);
  }

  /** FindFrom's answer comes no later than any occurrence from the start on. */
  lemma FirstOccurrence(s: string, pat: string, i: nat, q: nat, q': nat)
    requires i <= q' && i <= |s| && FindFrom(s, pat, i) == Some(q) && OccursAt(s, pat, q')
    ensures q <= q'
  {
  }

  lemma SlicePrefix(s: string, a: nat, b: nat, c: nat)
    requires a <= b <= c <= |s|
    ensures s[a..b] <= s[a..c]
  {
  }

  /** The regex matches at `p` exactly when some `<name>inner</name>` with a word name
      occurs there. */
  lemma MatchAtIffTag(text: string, p: nat)
    requires p < |text|
    ensures MatchAt(text, p).Some? <==> exists name, inner :: IsWordName(name) && TagOccursAt(text, p, name, inner)
  {
    if MatchAt(text, p).Some? {
      var m := MatchAt(text, p).value;
      TagOccursAtWhole(text, p, m.name, m.inner);
    }
  }

  /** The global regex scan from position `p`, where `text[last..p]` is untagged text not
      yet emitted. The source first collects all matches and then walks them, emitting the
      untagged text between consecutive matches only when it is non-empty; this one pass
      visits the same matches: it tries the regex at each position from `p` on and resumes
      after each match's end, as the global regex does. ScanSegmentsFit states what it
      finds: tags where the regex matches and untagged spans where it matches nowhere. */
  function Scan(text: string, last: nat, p: nat): (gs: seq<Segment>)
    requires last <= p <= |text|
    decreases |text| - p
  {
    if p == |text| then Pending(text, last, p)
    else
      var m := MatchAt(text, p);
      if m.Some? then
        Pending(text, last, p) + [Tagged(m.value.name, m.value.inner)]
        + Scan(text, m.value.end, m.value.end)
      else Scan(text, last, p + 1)
  }

  /** The segments of the whole input. */
  function Segments(text: string): seq<Segment> {
    Scan(text, 0, 0)
  }

  /** A section before it is numbered. */
  datatype SectionBody = SectionBody(kind: SectionType, title: string, content: string, isCollapsed: bool)

  /** `getSectionTitle`: an unknown tag is titled by its name with the first character
      upper-cased; a known type takes its configured title, else the raw name. */
  function GetSectionTitle(t: SectionType, rawTag: string): (title: string)
    ensures t == Unknown ==> |title| == |rawTag| && (rawTag != [] ==> title[0] == UpperChar(rawTag[0]) && title[1..] == rawTag[1..])
    ensures t != Unknown && t != Answer ==> title == SectionConfigTable[TypeName(t)].title
    ensures t == Answer ==> title == rawTag
  {
    if t == Unknown then (if rawTag == [] then [] else [UpperChar(rawTag[0])] + rawTag[1..])
    else
      var c := LookupConfig(TypeName(t));
      if c.Some? then c.value.title else rawTag
  }

  /** `mapping?.type ?? 'unknown'` for the lower-cased tag name. */
  function TagKind(name: string): SectionType {
    var c := LookupConfig(Lower(name));
    if c.Some? then c.value.kind else Unknown
  }

  /** `mapping?.title ?? getSectionTitle(sectionType, tagName)`. */
  function TagTitle(name: string): string {
    var c := LookupConfig(Lower(name));
    if c.Some? then c.value.title else GetSectionTitle(Unknown, name)
  }

  /** An untagged span, already trimmed, as an "Answer" section. */
  function AnswerBody(trimmed: string): SectionBody {
    SectionBody(Answer, "Answer", Doi.ConvertDOIsToLinks(trimmed), false)
  }

  /** The sections a segment contributes: blank untagged text contributes none; a tag
      match always contributes one, even with empty content. */
  function SegmentBodies(g: Segment): seq<SectionBody> {
    if g.Plain? then
      var t := Trim(g.raw);
      if t == [] then [] else [AnswerBody(t)]
    else
      var kind := TagKind(g.name);
      [SectionBody(kind, TagTitle(g.name), Doi.ConvertDOIsToLinks(Trim(g.inner)), DefaultCollapseState(kind))]
  }

  /** What every emitted section satisfies: "Answer" sections are titled "Answer", open
      and non-empty; tagged ones are collapsed as `DEFAULT_COLLAPSE_STATE` says. */
  predicate WellFormedBody(b: SectionBody) {
    if b.kind == Answer then b.title == "Answer" && !b.isCollapsed && b.content != []
    else b.isCollapsed == DefaultCollapseState(b.kind)
  }

  function Bodies(gs: seq<Segment>): (bs: seq<SectionBody>)
    ensures forall i :: 0 <= i < |bs| ==> WellFormedBody(bs[i])
  {
    if gs == [] then [] else SegmentBodies(gs[0]) + Bodies(gs[1..])
  }

  /** Numbers the sections: the one at position `i` gets id `${type}-${i}`. */
  function Number(bs: seq<SectionBody>): (r: seq<Section>)
    ensures |r| == |bs|
    ensures forall i :: 0 <= i < |r| ==> r[i] == Section(SectionId(bs[i].kind, i), bs[i].kind, bs[i].title, bs[i].content, bs[i].isCollapsed)
  {
    seq(|bs|, i requires 0 <= i < |bs| => Section(SectionId(bs[i].kind, i), bs[i].kind, bs[i].title, bs[i].content, bs[i].isCollapsed))
  }

  /** `parseTaggedContent`. */
  function ParseTaggedContent(text: string): (r: seq<Section>)
    ensures r == [] <==> IsBlank(text)
    ensures forall i :: 0 <= i < |r| ==> r[i].id == SectionId(r[i].kind, i)
    ensures forall i :: 0 <= i < |r| && r[i].kind == Answer ==>
      r[i].title == "Answer" && !r[i].isCollapsed && r[i].content != []
    ensures forall i :: 0 <= i < |r| ==> DefaultCollapsed(r[i])
  {
    TrimEmptyIffBlank(text);
    if Trim(text) == [] then []
    else
      var bodies := Bodies(Segments(text));
      // the source's "no tags found" fallback, never taken: see ParseFollowsSegments
      var all := if |bodies| == 0 && Trim(text) != [] then [AnswerBody(Trim(text))] else bodies;
      Number(all)
  }

  lemma AppendAssoc<T>(x: seq<T>, y: seq<T>, z: seq<T>)
    ensures x + (y + z) == (x + y) + z
  {
  }

  lemma {:induction false} FlattenAppend(a: seq<Segment>, b: seq<Segment>)
    ensures Flatten(a + b) == Flatten(a) + Flatten(b)
    decreases |a|
  {
    if a != [] {
      calc {
        Flatten(a + b);
        { assert (a + b)[0] == a[0]; assert (a + b)[1..] == a[1..] + b; }
        RawText(a[0]) + Flatten(a[1..] + b);
        { FlattenAppend(a[1..], b); }
        RawText(a[0]) + (Flatten(a[1..]) + Flatten(b));
        { AppendAssoc(RawText(a[0]), Flatten(a[1..]), Flatten(b)); }
        Flatten(a) + Flatten(b);
      }
    } else {
      assert a + b == b;
    }
  }

  /** One step of the scan at a position where the tag regex matches. */
  lemma ScanStepMatch(text: string, last: nat, p: nat)
    requires last <= p < |text| && MatchAt(text, p).Some?
    ensures var m := MatchAt(text, p).value;
      Scan(text, last, p) == Pending(text, last, p) + [Tagged(m.name, m.inner)] + Scan(text, m.end, m.end)
  {
  }

  /** Three consecutive pieces of `text` read back as one. */
  lemma TileJoin(text: string, last: nat, p: nat, e: nat, pre: seq<Segment>, tag: seq<Segment>, rest: seq<Segment>)
    requires last <= p <= e <= |text|
    requires Flatten(pre) == text[last..p] && Flatten(tag) == text[p..e] && Flatten(rest) == text[e..]
    ensures Flatten(pre + tag + rest) == text[last..]
  {
    calc {
      Flatten(pre + tag + rest);
      { FlattenAppend(pre + tag, rest); }
      Flatten(pre + tag) + Flatten(rest);
      { FlattenAppend(pre, tag); }
      text[last..p] + text[p..e] + text[e..];
      { SuffixSplit3(text, last, p, e); }
      text[last..];
    }
  }

  /** The untagged span before a match, as a list of at most one segment. */
  function Pending(text: string, last: nat, p: nat): (pre: seq<Segment>)
    requires last <= p <= |text|
    ensures Flatten(pre) == text[last..p]
  {
    if p > last then
      assert Flatten([Plain(text[last..p])]) == text[last..p] + [];
      [Plain(text[last..p])]
    else []
  }

  /** The scan from `p` cuts `text[last..]` into pieces without losing or reordering a
      character: untagged spans and whole tag matches tile the rest of the input. */
  lemma {:induction false} ScanTiles(text: string, last: nat, p: nat)
    requires last <= p <= |text|
    ensures Flatten(Scan(text, last, p)) == text[last..]
    decreases |text| - p
  {
    if p == |text| {
      assert Flatten(Pending(text, last, |text|)) == text[last..];
    } else if MatchAt(text, p).None? {
      ScanTiles(text, last, p + 1);
    } else {
      var m := MatchAt(text, p).value;
      var tag := [Tagged(m.name, m.inner)];
      ScanStepMatch(text, last, p);
      ScanTiles(text, m.end, m.end);
      assert Flatten(tag) == text[p..m.end] + [];
      TileJoin(text, last, p, m.end, Pending(text, last, p), tag, Scan(text, m.end, m.end));
    }
  }

  /** Every untagged span the scan emits is non-empty. */
  lemma {:induction false} ScanPlainNonEmpty(text: string, last: nat, p: nat)
    requires last <= p <= |text|
    ensures forall i :: 0 <= i < |Scan(text, last, p)| && Scan(text, last, p)[i].Plain? ==> Scan(text, last, p)[i].raw != []
    decreases |text| - p
  {
    if p < |text| {
      if MatchAt(text, p).None? {
        ScanPlainNonEmpty(text, last, p + 1);
      } else {
        var m := MatchAt(text, p).value;
        ScanStepMatch(text, last, p);
        ScanPlainNonEmpty(text, m.end, m.end);
      }
    }
  }

  /** Untagged text is emitted only in front of a tag or at the end, so no two untagged
      segments are ever adjacent. */
  predicate PlainThenTag(gs: seq<Segment>) {
    forall i :: 0 <= i < |gs| - 1 && gs[i].Plain? ==> gs[i + 1].Tagged?
  }

  lemma {:induction false} ScanPlainThenTag(text: string, last: nat, p: nat)
    requires last <= p <= |text|
    ensures PlainThenTag(Scan(text, last, p))
    decreases |text| - p
  {
    if p < |text| {
      if MatchAt(text, p).None? {
        ScanPlainThenTag(text, last, p + 1);
      } else {
        var m := MatchAt(text, p).value;
        ScanStepMatch(text, last, p);
        ScanPlainThenTag(text, m.end, m.end);
        JoinPlainThenTag(Pending(text, last, p), Tagged(m.name, m.inner), Scan(text, m.end, m.end));
      }
    }
  }

  /** At most one untagged segment, a tag, then a list without adjacent untagged
      segments has none either. */
  lemma JoinPlainThenTag(pre: seq<Segment>, t: Segment, rest: seq<Segment>)
    requires |pre| <= 1 && t.Tagged? && PlainThenTag(rest)
    ensures PlainThenTag(pre + [t] + rest)
  {
    var gs := pre + [t] + rest;
    forall i | 0 <= i < |gs| - 1 && gs[i].Plain?
      ensures gs[i + 1].Tagged?
    {
      if i >= |pre| + 1 {
        assert gs[i] == rest[i - |pre| - 1] && gs[i + 1] == rest[i - |pre|];
      }
    }
  }

  /** The segments of the input, read back in order, are the input; no untagged segment
      is empty, and none is followed by another. */
  lemma SegmentsTile(text: string)
    ensures Flatten(Segments(text)) == text
    ensures forall i :: 0 <= i < |Segments(text)| && Segments(text)[i].Plain? ==> Segments(text)[i].raw != []
    ensures PlainThenTag(Segments(text))
  {
    ScanTiles(text, 0, 0);
    ScanPlainNonEmpty(text, 0, 0);
    ScanPlainThenTag(text, 0, 0);
  }

  /** The regex, run at `off`, finds exactly the tagged segment `g`. */
  predicate MatchesSegment(text: string, off: nat, g: Segment) {
    off < |text| && IsMatchOf(MatchAt(text, off), off, g)
  }

  /** `m`, a regex result at `off`, is the tagged segment `g`. */
  predicate IsMatchOf(m: Option<TagMatch>, off: nat, g: Segment) {
    && g.Tagged? && m.Some?
    && m.value.name == g.name && m.value.inner == g.inner && m.value.end == off + |RawText(g)|
  }

  /** No regex result in `ms[lo..hi]`. */
  predicate NoneIn(ms: seq<Option<TagMatch>>, lo: nat, hi: nat) {
    hi <= |ms| && forall k :: lo <= k < hi ==> NoMatchAt(ms, k)
  }

  predicate NoMatchAt(ms: seq<Option<TagMatch>>, k: nat)
    requires k < |ms|
  {
    ms[k].None?
  }

  /** The regex result at every position of `text`. */
  function Matches(text: string): (ms: seq<Option<TagMatch>>)
    ensures |ms| == |text| && forall k :: 0 <= k < |text| ==> ms[k] == MatchAt(text, k)
  {
    seq(|text|, k requires 0 <= k < |text| => MatchAt(text, k))
  }

  /** Segment `g`, laid out at `off`, agrees with the regex results `ms`: a tagged segment
      is the match at its offset, and no match starts inside an untagged one. */
  predicate Fits(ms: seq<Option<TagMatch>>, off: nat, g: Segment) {
    if g.Tagged? then off < |ms| && IsMatchOf(ms[off], off, g)
    else NoneIn(ms, off, off + |g.raw|)
  }

  /** `Fits` against the regex results `ms`, as a test of one laid-out segment. */
  function FitIn(ms: seq<Option<TagMatch>>): (nat, Segment) -> bool {
    (off: nat, g: Segment) => Fits(ms, off, g)
  }

  /** Every segment of `gs`, laid out from `off` on, passes `fit` at its offset. */
  predicate FitsFrom(fit: (nat, Segment) -> bool, off: nat, gs: seq<Segment>)
    decreases |gs|
  {
    || gs == []
    || (fit(off, gs[0]) && FitsFrom(fit, off + |RawText(gs[0])|, gs[1..]))
  }

  /** The scan agrees with the regex: each tagged segment it emits is the match the regex
      finds at its offset, and every untagged span it emits is one where the regex matches
      nowhere, given that it matched nowhere in the pending `text[last..p]`. */
  lemma {:induction false} ScanSegmentsFit(text: string, last: nat, p: nat)
    requires last <= p <= |text| && NoneIn(Matches(text), last, p)
    ensures FitsFrom(FitIn(Matches(text)), last, Scan(text, last, p))
    decreases |text| - p
  {
    var ms := Matches(text);
    if p == |text| {
      PendingFits(ms, text, last, p, Pending(text, last, p));
    } else if MatchAt(text, p).None? {
      assert NoMatchAt(ms, p);
      ScanSegmentsFit(text, last, p + 1);
    } else {
      var m := MatchAt(text, p).value;
      var pre := Pending(text, last, p);
      var t := Tagged(m.name, m.inner);
      ScanStepMatch(text, last, p);
      MatchedHere(text, p);
      assert IsMatchOf(ms[p], p, t);
      PendingFits(ms, text, last, p, pre);
      ScanSegmentsFit(text, m.end, m.end);
      assert FitIn(ms)(p, t);
      JoinFits(FitIn(ms), last, p, pre, t, Scan(text, m.end, m.end), Scan(text, last, p));
    }
  }

  /** Untagged text, a match, and fitting segments after it, laid end to end. */
  lemma JoinFits(fit: (nat, Segment) -> bool, last: nat, p: nat, pre: seq<Segment>, t: Segment,
                 rest: seq<Segment>, gs: seq<Segment>)
    requires gs == pre + [t] + rest && last + |Flatten(pre)| == p
    requires FitsFrom(fit, last, pre) && fit(p, t)
    requires FitsFrom(fit, p + |RawText(t)|, rest)
    ensures FitsFrom(fit, last, gs)
  {
    AppendAssoc(pre, [t], rest);
    ConsFits(fit, p, t, rest);
    AppendFits(fit, last, pre, [t] + rest);
  }

  lemma SameFits(fit: (nat, Segment) -> bool, off: nat, gs: seq<Segment>, off': nat, gs': seq<Segment>)
    requires FitsFrom(fit, off, gs) && off == off' && gs == gs'
    ensures FitsFrom(fit, off', gs')
  {
  }

  /** The pending untagged text, where the regex matched nowhere, fits. */
  lemma PendingFits(ms: seq<Option<TagMatch>>, text: string, last: nat, p: nat, pre: seq<Segment>)
    requires last <= p <= |text| && pre == Pending(text, last, p) && NoneIn(ms, last, p)
    ensures FitsFrom(FitIn(ms), last, pre) && |Flatten(pre)| == p - last
  {
    if pre != [] {
      assert pre[1..] == [];
      assert FitIn(ms)(last, pre[0]);
    }
  }

  lemma ConsFits(fit: (nat, Segment) -> bool, off: nat, t: Segment, rest: seq<Segment>)
    requires fit(off, t)
    requires FitsFrom(fit, off + |RawText(t)|, rest)
    ensures FitsFrom(fit, off, [t] + rest)
  {
    assert ([t] + rest)[0] == t && ([t] + rest)[1..] == rest;
  }

  lemma {:induction false} AppendFits(fit: (nat, Segment) -> bool, off: nat, a: seq<Segment>, b: seq<Segment>)
    requires FitsFrom(fit, off, a) && FitsFrom(fit, off + |Flatten(a)|, b)
    ensures FitsFrom(fit, off, a + b)
    decreases |a|
  {
    if a != [] {
      var g := a[0];
      var o := off + |RawText(g)|;
      assert FitsFrom(fit, o, a[1..]) && FitsFrom(fit, o + |Flatten(a[1..])|, b) by {
        FitsTail(fit, off, a);
        assert o + |Flatten(a[1..])| == off + |Flatten(a)|;
        SameFits(fit, off + |Flatten(a)|, b, o + |Flatten(a[1..])|, b);
      }
      AppendFits(fit, o, a[1..], b);
      assert FitsFrom(fit, off, [g] + (a[1..] + b)) by {
        FitsTail(fit, off, a);
        ConsFits(fit, off, g, a[1..] + b);
      }
      ConsAppend(a, b);
      SameFits(fit, off, [g] + (a[1..] + b), off, a + b);
    } else {
      assert a + b == b;
    }
  }

  lemma FitsTail(fit: (nat, Segment) -> bool, off: nat, a: seq<Segment>)
    requires a != [] && FitsFrom(fit, off, a)
    ensures fit(off, a[0]) && FitsFrom(fit, off + |RawText(a[0])|, a[1..])
  {
  }

  lemma ConsAppend<T>(a: seq<T>, b: seq<T>)
    requires a != []
    ensures [a[0]] + (a[1..] + b) == a + b
  {
    assert a == [a[0]] + a[1..];
  }

  lemma PrefixHeadTail<T>(s: seq<T>, i: nat)
    requires 0 < i < |s|
    ensures s[1..][i - 1] == s[i] && s[..i][0] == s[0] && s[..i][1..] == s[1..][..i - 1]
  {
  }

  /** The segment at index `i` fits at the offset the segments before it span. */
  lemma {:induction false} FitsAt(fit: (nat, Segment) -> bool, off: nat, gs: seq<Segment>, i: nat)
    requires FitsFrom(fit, off, gs) && i < |gs|
    ensures fit(off + |Flatten(gs[..i])|, gs[i])
    decreases i
  {
    if i == 0 {
      assert gs[..i] == [];
    } else {
      PrefixHeadTail(gs, i);
      FitsAt(fit, off + |RawText(gs[0])|, gs[1..], i - 1);
    }
  }

  /** The match the regex finds at `p` is a tagged segment as long as its text. */
  lemma MatchedHere(text: string, p: nat)
    requires p < |text| && MatchAt(text, p).Some?
    ensures var m := MatchAt(text, p).value;
      IsMatchOf(MatchAt(text, p), p, Tagged(m.name, m.inner)) && m.end == p + |RawText(Tagged(m.name, m.inner))|
  {
  }

  /** The tagged segments of the whole text, read against the regex. */
  lemma SegmentsAreMatches(text: string, i: nat)
    requires i < |Segments(text)| && Segments(text)[i].Tagged?
    ensures MatchesSegment(text, |Flatten(Segments(text)[..i])|, Segments(text)[i])
  {
    SegmentsFit(text, i);
  }

  /** The regex matches nowhere inside an untagged segment of the whole text: a match the
      source finds is never left behind in answer text. */
  lemma PlainSegmentsHaveNoMatch(text: string, i: nat, k: nat)
    requires i < |Segments(text)| && Segments(text)[i].Plain?
    requires var o := |Flatten(Segments(text)[..i])|; o <= k < o + |Segments(text)[i].raw|
    ensures k < |text| && MatchAt(text, k).None?
  {
    SegmentsFit(text, i);
    assert NoMatchAt(Matches(text), k);
  }

  /** Each segment of the whole text, read against the regex. */
  lemma SegmentsFit(text: string, i: nat)
    requires i < |Segments(text)|
    ensures Fits(Matches(text), |Flatten(Segments(text)[..i])|, Segments(text)[i])
  {
    ScanSegmentsFit(text, 0, 0);
    FitsAt(FitIn(Matches(text)), 0, Segments(text), i);
  }

  /** Each tag match becomes one section, in order: the section after those the earlier
      segments give. Its type and title come from the lower-cased name (or Unknown with
      the name capitalised), its content is the trimmed body with citations linked, even
      when empty, and it takes its type's default collapse state. */
  lemma TaggedSegmentSection(text: string, i: nat)
    requires i < |Segments(text)| && Segments(text)[i].Tagged?
    ensures var g := Segments(text)[i]; var j := |Bodies(Segments(text)[..i])|; var r := ParseTaggedContent(text);
      && j < |r| && r[j].id == SectionId(r[j].kind, j)
      && r[j].content == Doi.ConvertDOIsToLinks(Trim(g.inner))
      && r[j].isCollapsed == DefaultCollapseState(r[j].kind)
      && (Lower(g.name) in StreamTags ==>
            TypeName(r[j].kind) == Lower(g.name) && r[j].title == SectionConfigTable[Lower(g.name)].title)
      && (Lower(g.name) !in StreamTags ==> r[j].kind == Unknown && r[j].title == GetSectionTitle(Unknown, g.name))
  {
    var gs := Segments(text);
    var g := gs[i];
    var bs := Bodies(gs);
    var j := |Bodies(gs[..i])|;
    ParseFollowsSegments(text);
    BodyAt(gs, i);
    TagClassification(g.name);
    NumberedBody(bs, j);
  }

  /** A tagged segment's section follows those of the segments before it. */
  lemma BodyAt(gs: seq<Segment>, i: nat)
    requires i < |gs| && gs[i].Tagged?
    ensures var j := |Bodies(gs[..i])|; j < |Bodies(gs)| && Bodies(gs)[j] == SegmentBodies(gs[i])[0]
  {
    var g := gs[i];
    assert gs == (gs[..i] + [g]) + gs[i + 1..];
    BodiesAppend(gs[..i] + [g], gs[i + 1..]);
    BodiesAppend(gs[..i], [g]);
    assert Bodies([g]) == SegmentBodies(g) + Bodies([]);
  }

  lemma NumberedBody(bs: seq<SectionBody>, j: nat)
    requires j < |bs|
    ensures var b := bs[j]; j < |Number(bs)| && Number(bs)[j] == Section(SectionId(b.kind, j), b.kind, b.title, b.content, b.isCollapsed)
  {
  }

  /** Without a tag match from `p` on, the scan emits the pending text as one untagged span. */
  lemma {:induction false} ScanWithoutMatch(text: string, last: nat, p: nat)
    requires last <= p <= |text|
    requires forall k :: p <= k < |text| ==> MatchAt(text, k).None?
    ensures Scan(text, last, p) == Pending(text, last, |text|)
    decreases |text| - p
  {
    if p < |text| {
      ScanWithoutMatch(text, last, p + 1);
    }
  }

  lemma {:induction false} BodiesAppend(a: seq<Segment>, b: seq<Segment>)
    ensures Bodies(a + b) == Bodies(a) + Bodies(b)
    decreases |a|
  {
    if a != [] {
      calc {
        Bodies(a + b);
        { assert (a + b)[0] == a[0]; assert (a + b)[1..] == a[1..] + b; }
        SegmentBodies(a[0]) + Bodies(a[1..] + b);
        { BodiesAppend(a[1..], b); }
        SegmentBodies(a[0]) + (Bodies(a[1..]) + Bodies(b));
        { AppendAssoc(SegmentBodies(a[0]), Bodies(a[1..]), Bodies(b)); }
        Bodies(a) + Bodies(b);
      }
    } else {
      assert a + b == b;
    }
  }

  /** A segment yields no section exactly when its text is blank: a tag match never is,
      since it starts with '<'. */
  lemma {:induction false} BodiesEmptyIffBlank(gs: seq<Segment>)
    ensures Bodies(gs) == [] <==> IsBlank(Flatten(gs))
    decreases |gs|
  {
    if gs != [] {
      BodiesEmptyIffBlank(gs[1..]);
      BlankAppend(RawText(gs[0]), Flatten(gs[1..]));
      var g := gs[0];
      if g.Plain? {
        TrimEmptyIffBlank(g.raw);
      } else {
        assert RawText(g)[0] == '<';
        assert !IsBlank(RawText(g));
      }
    }
  }

  /** The source's fallback for text with no tags never fires: non-blank input always
      yields a section from the scan, so the parse is exactly the numbered sections of
      the segments. */
  lemma ParseFollowsSegments(text: string)
    ensures ParseTaggedContent(text) == Number(Bodies(Segments(text)))
  {
    SegmentsTile(text);
    BodiesEmptyIffBlank(Segments(text));
    TrimEmptyIffBlank(text);
  }

  /** Section ids within one parse are pairwise distinct. */
  lemma ParseIdsDistinct(text: string, i: nat, j: nat)
    requires i < j < |ParseTaggedContent(text)|
    ensures ParseTaggedContent(text)[i].id != ParseTaggedContent(text)[j].id
  {
    var r := ParseTaggedContent(text);
    if r[i].id == r[j].id {
      SectionIdInjective(r[i].kind, i, r[j].kind, j);
    }
  }

  /** Non-blank text without any tag match becomes one open "Answer" section holding
      the trimmed text with its citations linked. */
  lemma ParseWithoutTags(text: string)
    requires !IsBlank(text)
    requires forall k :: 0 <= k < |text| ==> MatchAt(text, k).None?
    ensures ParseTaggedContent(text) == [Section("answer-0", Answer, "Answer", Doi.ConvertDOIsToLinks(Trim(text)), false)]
  {
    var g := Plain(text);
    assert Segments(text) == [g] by {
      ScanWithoutMatch(text, 0, 0);
      assert |text| > 0 && text[0..|text|] == text;
    }
    assert Bodies([g]) == [AnswerBody(Trim(text))] by {
      TrimEmptyIffBlank(text);
      assert Bodies([g]) == SegmentBodies(g) + Bodies([]);
    }
    ParseFollowsSegments(text);
    assert SectionId(Answer, 0) == "answer-0";
  }

  /** How a tag name is classified: case-insensitively, "guideline", "drug" and "think"
      select their types and titles; every other name, "answer" included, is unknown,
      collapsed, and titled by the name with its first character upper-cased. */
  lemma TagClassification(name: string)
    ensures TagKind(name) != Answer
    ensures TagKind(name) == Unknown <==> Lower(name) !in StreamTags
    ensures TagKind(name) != Unknown ==>
      TypeName(TagKind(name)) == Lower(name) && TagTitle(name) == SectionConfigTable[Lower(name)].title
    ensures TagKind(name) == Unknown ==> TagTitle(name) == GetSectionTitle(Unknown, name)
  {
  }
}
