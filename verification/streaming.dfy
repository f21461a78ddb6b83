/** `sanitizeStreamingText`, `ensureBalancedStreamingTags` and `parseStreamingSections`
    (utils/content-parser.ts): prepare a text that is still arriving for the tag parser. */
module StreamingText {
  import opened Wrappers
  import opened Strings
  import opened SectionTypes
  import opened Sections
  import opened TagParser

  // The sanitizer: the regex `/<\/?([a-zA-Z]+)?$/` and what is done with its match.

  /** From `lo` to the end, `s` holds only ASCII letters. */
  predicate LettersFrom(s: string, lo: nat) {
    forall k :: lo <= k < |s| ==> IsAsciiLetter(s[k])
  }

  /** Where the letters of a partial tag opening at `i` begin: behind `</`, else behind `<`. */
  function NameStart(s: string, i: nat): nat {
    if i + 1 < |s| && s[i + 1] == '/' then i + 2 else i + 1
  }

  /** The regex matches at `i`: a `<`, an optional `/`, then letters up to the end. When
      `/` follows, the letters can only start behind it, since `/` is not a letter. */
  predicate PartialTagAt(s: string, i: nat) {
    i < |s| && s[i] == '<' && LettersFrom(s, NameStart(s, i))
  }

  /** `STREAM_TAGS.some(tag => tag.startsWith(partial))`. */
  predicate MatchesKnown(partial: string) {
    exists k :: 0 <= k < |StreamTags| && partial <= StreamTags[k]
  }

  /** The partial tag at `i` is one the sanitizer removes: its lower-cased letters (possibly
      none) begin a stream tag. */
  predicate DroppableAt(s: string, i: nat) {
    PartialTagAt(s, i) && MatchesKnown(Lower(s[NameStart(s, i)..]))
  }

  /** Start of the run of ASCII letters that ends at `j`. */
  function LetterRunStart(s: string, j: nat): (k: nat)
    requires j <= |s|
    ensures k <= j && forall i :: k <= i < j ==> IsAsciiLetter(s[i])
    ensures k == 0 || !IsAsciiLetter(s[k - 1])
  {
    if j > 0 && IsAsciiLetter(s[j - 1]) then LetterRunStart(s, j - 1) else j
  }

  /** Where the regex matches; there is at most one such place. */
  function PartialTagStart(s: string): (r: Option<nat>)
    ensures r.Some? ==> PartialTagAt(s, r.value)
    ensures forall i: nat :: PartialTagAt(s, i) ==> r == Some(i)
  {
    var j := LetterRunStart(s, |s|);
    if j >= 1 && s[j - 1] == '<' then Some(j - 1)
    else if j >= 2 && s[j - 1] == '/' && s[j - 2] == '<' then Some(j - 2)
    else None
  }

  /** `sanitizeStreamingText`: the text with a half-arrived trailing stream tag removed.
      Everything else, an unknown partial tag included, is kept. */
  function Sanitize(text: string): (r: string)
    ensures r <= text
    ensures |r| < |text| ==> DroppableAt(text, |r|)
    ensures |r| == |text| ==> forall i: nat :: !DroppableAt(text, i)
  {
    var m := PartialTagStart(text);
    if m.Some? && MatchesKnown(Lower(text[NameStart(text, m.value)..])) then text[..m.value] else text
  }

  /** At most `</` and the nine letters of "guideline" are ever removed, and what is
      removed holds no `>`, so no complete tag is cut. */
  lemma SanitizeDropsOnlyPartialTag(text: string)
    ensures |text| - |Sanitize(text)| <= 11
    ensures forall k :: |Sanitize(text)| <= k < |text| ==> text[k] != '>'
  {
    var r := Sanitize(text);
    var i := |r|;
    if i < |text| {
      assert DroppableAt(text, i);
      var n := NameStart(text, i);
      var name := Lower(text[n..]);
      assert MatchesKnown(name);
      var t :| 0 <= t < |StreamTags| && name <= StreamTags[t];
      assert |StreamTags[t]| <= 9;
      assert |text| - i <= 2 + |name|;
      forall k | i <= k < |text| ensures text[k] != '>' {
        if k >= n {
          assert IsAsciiLetter(text[k]);
        }
      }
    }
  }

  // The balancer.

  /** The regex for the lower-case literal `pat` with the `i` flag matches at `i`. Without
      the unicode flag only ASCII letters fold, so this is exact. */
  predicate MatchCI(s: string, pat: string, i: nat) {
    i + |pat| <= |s| && forall k :: 0 <= k < |pat| ==> LowerChar(s[i + k]) == pat[k]
  }

  /** Matches of the global regex in `s` from `i` on: the scan resumes behind each match. */
  function CountFrom(s: string, pat: string, i: nat): nat
    requires pat != []
    decreases |s| - i
  {
    if i + |pat| > |s| then 0
    else if MatchCI(s, pat, i) then 1 + CountFrom(s, pat, i + |pat|)
    else CountFrom(s, pat, i + 1)
  }

  /** `(s.match(new RegExp(pat, 'gi')) || []).length`. */
  function CountCI(s: string, pat: string): nat
    requires pat != []
  {
    CountFrom(s, pat, 0)
  }

  /** `s` repeated `n` times, `String.prototype.repeat`. */
  function Repeat(s: string, n: nat): (r: string)
    ensures |r| == n * |s|
  {
    if n == 0 then [] else s + Repeat(s, n - 1)
  }

  /** How many closers of `tag` the balancer appends to `s`: openings minus closings, when
      positive. */
  function Deficit(s: string, tag: string): nat {
    var opens := CountCI(s, Opening(tag));
    var closes := CountCI(s, Closing(tag));
    if opens > closes then opens - closes else 0
  }

  /** The balancer's work for one tag. */
  function CloseTag(s: string, tag: string): string {
    s + Repeat(Closing(tag), Deficit(s, tag))
  }

  /** The `forEach` over `tags`, each step counting on the text the earlier steps produced. */
  function BalanceWith(s: string, tags: seq<string>): (r: string)
    ensures s <= r
    decreases |tags|
  {
    if tags == [] then s else BalanceWith(CloseTag(s, tags[0]), tags[1..])
  }

  /** `ensureBalancedStreamingTags`. */
  function Balance(s: string): (r: string)
    ensures s <= r
  {
    BalanceWith(s, StreamTags)
  }

  /** A pattern whose only `<` is its first character: two of its matches cannot overlap,
      and none can start inside it and end behind it in a text that continues with `<`. */
  predicate AngleFirst(pat: string) {
    pat != [] && pat[0] == '<' && forall k :: 1 <= k < |pat| ==> pat[k] != '<'
  }

  /** Matching lines up under a shift of the text. */
  lemma {:induction false} CountShift(a: string, b: string, pat: string, j: nat)
    requires pat != [] && j <= |b|
    ensures CountFrom(a + b, pat, |a| + j) == CountFrom(b, pat, j)
    decreases |b| - j
  {
    if j + |pat| <= |b| {
      assert MatchCI(a + b, pat, |a| + j) <==> MatchCI(b, pat, j) by {
        forall m | |a| + j <= m < |a| + j + |pat| ensures (a + b)[m] == b[m - |a|] {
        }
      }
      if MatchCI(b, pat, j) {
        CountShift(a, b, pat, j + |pat|);
      } else {
        CountShift(a, b, pat, j + 1);
      }
    }
  }

  /** No match starts in `a` and ends in `b` when `b` begins with `<`. */
  lemma {:induction false} CountAcross(a: string, b: string, pat: string, i: nat)
    requires AngleFirst(pat) && i <= |a| && (b == [] || b[0] == '<')
    requires |a| < i + |pat|
    ensures CountFrom(a + b, pat, i) == CountFrom(a + b, pat, |a|)
    decreases |a| - i
  {
    if i < |a| && i + |pat| <= |a + b| {
      assert !MatchCI(a + b, pat, i) by {
        var k := |a| - i;
        assert b != [] && (a + b)[i + k] == b[0];
        assert LowerChar((a + b)[i + k]) == '<' != pat[k];
      }
      CountAcross(a, b, pat, i + 1);
    }
  }

  /** Counting is additive over a cut in front of a `<`. */
  lemma {:induction false} CountAppendFrom(a: string, b: string, pat: string, i: nat)
    requires AngleFirst(pat) && i <= |a| && (b == [] || b[0] == '<')
    ensures CountFrom(a + b, pat, i) == CountFrom(a, pat, i) + CountFrom(b, pat, 0)
    decreases |a| - i
  {
    if i + |pat| > |a| {
      CountAcross(a, b, pat, i);
      CountShift(a, b, pat, 0);
    } else {
      assert MatchCI(a + b, pat, i) <==> MatchCI(a, pat, i) by {
        forall m | i <= m < i + |pat| ensures (a + b)[m] == a[m] {
        }
      }
      if MatchCI(a, pat, i) {
        CountAppendFrom(a, b, pat, i + |pat|);
      } else {
        CountAppendFrom(a, b, pat, i + 1);
      }
    }
  }

  lemma CountAppend(a: string, b: string, pat: string)
    requires AngleFirst(pat) && (b == [] || b[0] == '<')
    ensures CountCI(a + b, pat) == CountCI(a, pat) + CountCI(b, pat)
  {
    CountAppendFrom(a, b, pat, 0);
  }

  /** A text with no `<` from `i` on has no match there. */
  lemma {:induction false} CountWithoutAngle(s: string, pat: string, i: nat)
    requires AngleFirst(pat)
    requires forall k :: i <= k < |s| ==> s[k] != '<'
    ensures CountFrom(s, pat, i) == 0
    decreases |s| - i
  {
    if i + |pat| <= |s| {
      assert !MatchCI(s, pat, i) by {
        assert LowerChar(s[i + 0]) != '<';
      }
      CountWithoutAngle(s, pat, i + 1);
    }
  }

  /** Openings and closings of stream tags start with their only `<`. */
  lemma TagPatterns(t: string)
    requires t in StreamTags
    ensures AngleFirst(Opening(t)) && AngleFirst(Closing(t))
  {
    StreamTagShapes();
  }

  /** A text whose only `<` is its first character matches an angle-first pattern at
      most once, at its start. */
  lemma CountSingle(c: string, pat: string)
    requires AngleFirst(c) && AngleFirst(pat)
    ensures CountCI(c, pat) == if MatchCI(c, pat, 0) then 1 else 0
  {
    CountWithoutAngle(c, pat, 1);
    CountWithoutAngle(c, pat, |pat|);
  }

  /** A closer never matches an opening pattern: its second character is `/`. */
  lemma CloserIsNoOpening(g: string, t: string)
    requires g in StreamTags && t in StreamTags
    ensures !MatchCI(Closing(g), Opening(t), 0)
  {
    StreamTagShapes();
    assert Opening(t)[1] == t[0] && IsAsciiLower(t[0]);
    assert Closing(g)[1] == '/';
  }

  /** A closer matches the closing pattern of a stream tag exactly when the tags agree. */
  lemma CloserMatchesOwnTag(g: string, t: string)
    requires g in StreamTags && t in StreamTags
    ensures MatchCI(Closing(g), Closing(t), 0) <==> g == t
  {
    StreamTagShapes();
    var c := Closing(g);
    if g == t {
      forall k | 0 <= k < |c| ensures LowerChar(c[k]) == c[k] {
        if 2 <= k < |c| - 1 {
          assert c[k] == g[k - 2];
        }
      }
    } else if |t| < |g| {
      var k := |t| + 2;
      assert c[k] == g[|t|] && IsAsciiLower(g[|t|]);
      assert Closing(t)[k] == '>';
    }
  }

  /** A lone closer of `g` matches the closing pattern of `g` once, and no other stream
      tag pattern. */
  lemma CountInCloser(g: string, t: string)
    requires g in StreamTags && t in StreamTags
    ensures CountCI(Closing(g), Opening(t)) == 0
    ensures CountCI(Closing(g), Closing(t)) == if g == t then 1 else 0
  {
    TagPatterns(g);
    TagPatterns(t);
    CountSingle(Closing(g), Opening(t));
    CountSingle(Closing(g), Closing(t));
    CloserIsNoOpening(g, t);
    CloserMatchesOwnTag(g, t);
  }

  /** Appending closers of `g` raises the closing count of `g` by their number and leaves
      every other count of a stream tag as it was. */
  lemma {:induction false} CountAfterClosers(s: string, g: string, t: string, n: nat)
    requires g in StreamTags && t in StreamTags
    ensures CountCI(s + Repeat(Closing(g), n), Opening(t)) == CountCI(s, Opening(t))
    ensures CountCI(s + Repeat(Closing(g), n), Closing(t)) == CountCI(s, Closing(t)) + (if g == t then n else 0)
    decreases n
  {
    TagPatterns(t);
    if n == 0 {
      assert s + Repeat(Closing(g), n) == s;
    } else {
      var rest := Repeat(Closing(g), n - 1);
      CountAfterClosers(s + Closing(g), g, t, n - 1);
      assert s + Repeat(Closing(g), n) == (s + Closing(g)) + rest;
      CountAppend(s, Closing(g), Opening(t));
      CountAppend(s, Closing(g), Closing(t));
      CountInCloser(g, t);
    }
  }

  /** The balancer appends, in `STREAM_TAGS` order, the closers each tag lacks in the
      INPUT: closers appended for one tag change no count of a later one. */
  lemma BalanceAppendsDeficits(s: string)
    ensures Balance(s) == s + Repeat(Closing(GuidelineTag), Deficit(s, GuidelineTag))
      + Repeat(Closing(DrugTag), Deficit(s, DrugTag))
      + Repeat(Closing(ThinkTag), Deficit(s, ThinkTag))
  {
    var g, d, t := GuidelineTag, DrugTag, ThinkTag;
    var b1 := CloseTag(s, g);
    CountAfterClosers(s, g, d, Deficit(s, g));
    CountAfterClosers(s, g, t, Deficit(s, g));
    assert Deficit(b1, d) == Deficit(s, d);
    var b2 := CloseTag(b1, d);
    CountAfterClosers(b1, d, t, Deficit(b1, d));
    assert Deficit(b2, t) == Deficit(s, t);
    assert StreamTags[1..] == [d, t] && [d, t][1..] == [t];
    assert Balance(s) == BalanceWith(b1, [d, t]) == BalanceWith(b2, [t]) == CloseTag(b2, t);
  }

  /** After balancing, every stream tag has as many closings as openings, or more when
      the input already had more; the openings are those of the input. */
  lemma BalanceClosesEveryTag(s: string, tag: string)
    requires tag in StreamTags
    ensures CountCI(Balance(s), Opening(tag)) == CountCI(s, Opening(tag))
    ensures CountCI(Balance(s), Closing(tag)) == CountCI(s, Closing(tag)) + Deficit(s, tag)
    ensures CountCI(Balance(s), Closing(tag)) >= CountCI(Balance(s), Opening(tag))
  {
    var g, d, t := GuidelineTag, DrugTag, ThinkTag;
    var b1 := s + Repeat(Closing(g), Deficit(s, g));
    var b2 := b1 + Repeat(Closing(d), Deficit(s, d));
    BalanceAppendsDeficits(s);
    CountAfterClosers(s, g, tag, Deficit(s, g));
    CountAfterClosers(b1, d, tag, Deficit(s, d));
    CountAfterClosers(b2, t, tag, Deficit(s, t));
  }

  /** Text in which no stream tag lacks a closer is left as it is. */
  lemma BalanceKeepsBalanced(s: string)
    requires forall tag :: tag in StreamTags ==> CountCI(s, Opening(tag)) <= CountCI(s, Closing(tag))
    ensures Balance(s) == s
  {
    BalanceAppendsDeficits(s);
    assert Deficit(s, GuidelineTag) == 0 && Deficit(s, DrugTag) == 0 && Deficit(s, ThinkTag) == 0;
  }

  // Composition.

  /** `parseStreamingSections`. */
  function ParseStreamingSections(text: string): (r: seq<Section>)
    ensures r == [] <==> IsBlank(Sanitize(text))
    ensures forall i :: 0 <= i < |r| ==> DefaultCollapsed(r[i])
  {
    var sanitized := Sanitize(text);
    TrimEmptyIffBlank(sanitized);
    if sanitized == [] || Trim(sanitized) == [] then []
    else
      var balanced := Balance(sanitized);
      assert balanced == sanitized + balanced[|sanitized|..];
      BlankAppend(sanitized, balanced[|sanitized|..]);
      ParseTaggedContent(balanced)
  }

  /** Unless the sanitized text is blank, the result is the tag parser's reading of the
      sanitized, balanced text. */
  lemma ParseStreamingOfNonBlank(text: string)
    requires !IsBlank(Sanitize(text))
    ensures ParseStreamingSections(text) == ParseTaggedContent(Balance(Sanitize(text)))
  {
    TrimEmptyIffBlank(Sanitize(text));
  }

  /** Text that has fully arrived (no partial stream tag at its end, no stream tag left
      open) is parsed exactly as the tag parser parses it. */
  lemma ParseStreamingOfCompleteText(text: string)
    requires forall i: nat :: !DroppableAt(text, i)
    requires forall tag :: tag in StreamTags ==> CountCI(text, Opening(tag)) <= CountCI(text, Closing(tag))
    ensures ParseStreamingSections(text) == ParseTaggedContent(text)
  {
    BalanceKeepsBalanced(text);
  }

  lemma MixedCaseSanitize()
    ensures Sanitize("<Drug>X") == "<Drug>X"
  {
    assert LetterRunStart("<Drug>X", 7) == 6;
  }

  lemma MixedCaseBalance()
    ensures Balance("<Drug>X") == "<Drug>X</drug>"
  {
    var s := "<Drug>X";
    TagPatterns(DrugTag);
    assert CountCI(s, Opening(GuidelineTag)) == 0;
    assert MatchCI(s, Opening(DrugTag), 0);
    assert CountCI(s, Opening(DrugTag)) == 1;
    assert !MatchCI(s, Closing(DrugTag), 0) by {
      assert LowerChar(s[0 + 1]) != Closing(DrugTag)[1];
    }
    CountWithoutAngle(s, Closing(DrugTag), 1);
    assert !MatchCI(s, Opening(ThinkTag), 0) by {
      assert LowerChar(s[0 + 1]) != Opening(ThinkTag)[1];
    }
    assert CountCI(s, Opening(ThinkTag)) == 0;
    BalanceAppendsDeficits(s);
    assert Repeat(Closing(DrugTag), 1) == "</drug>";
  }

  lemma MixedCaseNoCloser()
    ensures FindFrom("<Drug>X</drug>", "</Drug>", 6).None?
  {
    var full := "<Drug>X</drug>";
    var c := "</Drug>";
    assert FindFrom(full, c, 8).None?;
    assert full[7..14] != c by { assert full[9] != c[2]; }
    assert FindFrom(full, c, 7) == FindFrom(full, c, 8);
    assert full[6..13] != c by { assert full[6] != c[0]; }
  }

  lemma MixedCaseOpenerUnmatched()
    ensures MatchAt("<Drug>X</drug>", 0).None?
  {
    var full := "<Drug>X</drug>";
    assert IsWordChar(full[1]) && IsWordChar(full[2]) && IsWordChar(full[3]) && IsWordChar(full[4]);
    assert !IsWordChar(full[5]);
    var n := WordRunEnd(full, 1);
    assert n == 5;
    assert full[1..5] == "Drug" && Closing("Drug") == "</Drug>";
    MixedCaseNoCloser();
  }

  lemma MixedCaseCloserUnmatched()
    ensures MatchAt("<Drug>X</drug>", 7).None?
  {
    assert WordRunEnd("<Drug>X</drug>", 8) == 8;
  }

  lemma MixedCaseHasNoTagMatch()
    ensures forall k :: 0 <= k < 14 ==> MatchAt("<Drug>X</drug>", k).None?
  {
    var full := "<Drug>X</drug>";
    forall k | 0 <= k < 14 ensures MatchAt(full, k).None? {
      if k == 0 {
        MixedCaseOpenerUnmatched();
      } else if k == 7 {
        MixedCaseCloserUnmatched();
      } else {
        assert full[k] != '<';
      }
    }
  }

  lemma MixedCaseHasNoMarker()
    ensures forall k :: 0 <= k < 14 ==> Doi.DoiMatchAt("<Drug>X</drug>", k).None?
  {
    var full := "<Drug>X</drug>";
    forall k | 0 <= k < 14 ensures Doi.DoiMatchAt(full, k).None? {
      assert full[k] != '[';
    }
  }

  lemma MixedCaseTrimmed()
    ensures Trim("<Drug>X</drug>") == "<Drug>X</drug>"
  {
    var full := "<Drug>X</drug>";
    assert full[0] == '<' && full[|full| - 1] == '>';
    TrimOfTrimmed(full);
  }

  lemma MixedCaseParse()
    ensures ParseTaggedContent("<Drug>X</drug>") == [Section("answer-0", Answer, "Answer", "<Drug>X</drug>", false)]
  {
    var full := "<Drug>X</drug>";
    MixedCaseHasNoTagMatch();
    assert !IsBlank(full) by { assert !IsWhitespace(full[0]); }
    ParseWithoutTags(full);
    MixedCaseTrimmed();
    MixedCaseHasNoMarker();
    Doi.ConvertIdentityWithoutMarkers(full);
  }

  /** The balancer counts `<Drug>` as an opening of "drug" but appends the lower-case
      closer, which the case-sensitive back-reference of the tag regex does not accept: the
      text stays one "Answer" section, tags and all. */
  lemma MixedCaseOpenerStaysAnswer()
    ensures ParseStreamingSections("<Drug>X") == [Section("answer-0", Answer, "Answer", "<Drug>X</drug>", false)]
  {
    var s := "<Drug>X";
    MixedCaseSanitize();
    assert !IsBlank(s) by { assert !IsWhitespace(s[0]); }
    ParseStreamingOfNonBlank(s);
    MixedCaseBalance();
    MixedCaseParse();
  }
}
