/** Whole-input consequences of `parseTaggedContent` (utils/content-parser.ts): what a
    single `<name>...</name>` tag parses to, the design's `<drug>X</drug>` example, and why
    a closer that differs from its opener leaves the text an answer. */
module TagProperties {
  import opened Strings
  import opened SectionTypes
  import opened Sections
  import opened TagParser
  import Doi

  /** A closer cannot start inside a body free of '<'. */
  lemma NoCloserInBody(text: string, n: nat, inner: string, name: string, k: nat)
    requires n + |inner| <= |text| && text[n..n + |inner|] == inner
    requires forall c :: 0 <= c < |inner| ==> inner[c] != '<'
    requires n <= k < n + |inner|
    ensures !OccursAt(text, Closing(name), k)
  {
    assert text[k] == inner[k - n];
  }

  /** A match's text is an occurrence of its tag. */
  lemma MatchOccurs(text: string, p: nat, name: string, inner: string, end: nat)
    requires p < end <= |text| && text[p..end] == RawText(Tagged(name, inner))
    ensures TagOccursAt(text, p, name, inner)
  {
    TagOccursAtWhole(text, p, name, inner);
  }

  /** A tag that follows `pre` occurs at `|pre|`. */
  lemma TagAfter(pre: string, name: string, inner: string, text: string)
    requires text == pre + Opening(name) + inner + Closing(name)
    ensures |pre| < |text| && TagOccursAt(text, |pre|, name, inner)
    ensures |text| == |pre| + |RawText(Tagged(name, inner))|
  {
    var p := |pre|;
    var w := Opening(name) + inner + Closing(name);
    assert text == pre + w;
    assert text[p..p + |w|] == w;
    TagOccursAtWhole(text, p, name, inner);
  }

  /** The regex matches at a tag that follows `pre`, with its name and at most its body. */
  lemma TagFound(pre: string, name: string, inner: string, text: string)
    requires IsWordName(name)
    requires text == pre + Opening(name) + inner + Closing(name)
    ensures |pre| < |text| && MatchAt(text, |pre|).Some?
    ensures var m := MatchAt(text, |pre|).value; m.name == name && m.inner <= inner
    ensures var m := MatchAt(text, |pre|).value; TagOccursAt(text, |pre|, m.name, m.inner)
  {
    var p := |pre|;
    TagAfter(pre, name, inner, text);
    MatchAtIffTag(text, p);
    var m := MatchAt(text, p).value;
    MatchOccurs(text, p, m.name, m.inner, m.end);
  }

  /** With no '<' in the body, the shortest body ending at a closer is the whole body. */
  lemma ShortestIsWhole(p: nat, name: string, inner: string, text: string, mi: string)
    requires forall c :: 0 <= c < |inner| ==> inner[c] != '<'
    requires TagOccursAt(text, p, name, inner) && TagOccursAt(text, p, name, mi) && mi <= inner
    ensures mi == inner
  {
    TagOccurrenceParts(text, p, name, inner);
    TagOccurrenceParts(text, p, name, mi);
    if |mi| < |inner| {
      NoCloserInBody(text, p + |name| + 2, inner, name, p + |name| + 2 + |mi|);
    }
  }

  /** A tag whose body holds no '<' is matched whole, up to the end of the text. */
  lemma TagMatch(pre: string, name: string, inner: string, text: string)
    requires IsWordName(name) && forall c :: 0 <= c < |inner| ==> inner[c] != '<'
    requires text == pre + Opening(name) + inner + Closing(name)
    ensures |pre| < |text| && MatchAt(text, |pre|).Some?
    ensures var m := MatchAt(text, |pre|).value; m.name == name && m.inner == inner && m.end == |text|
  {
    var p := |pre|;
    TagFound(pre, name, inner, text);
    TagAfter(pre, name, inner, text);
    var m := MatchAt(text, p).value;
    ShortestIsWhole(p, name, inner, text, m.inner);
    assert m.end - p == |RawText(Tagged(m.name, m.inner))|;
  }

  /** A lone tag whose body holds no '<' is matched whole. */
  lemma SingleTagMatch(name: string, inner: string, text: string)
    requires IsWordName(name) && forall c :: 0 <= c < |inner| ==> inner[c] != '<'
    requires text == Opening(name) + inner + Closing(name)
    ensures MatchAt(text, 0).Some? && MatchAt(text, 0).value.name == name && MatchAt(text, 0).value.inner == inner
    ensures MatchAt(text, 0).value.end == |text|
  {
    assert text == [] + Opening(name) + inner + Closing(name);
    TagMatch([], name, inner, text);
  }

  /** Scanning over positions where the regex does not match changes nothing. */
  lemma {:induction false} ScanSkips(text: string, last: nat, i: nat, p: nat)
    requires last <= i <= p <= |text|
    requires forall k :: i <= k < p ==> MatchAt(text, k).None?
    ensures Scan(text, last, i) == Scan(text, last, p)
    decreases p - i
  {
    if i < p {
      ScanSkips(text, last, i + 1, p);
    }
  }

  /** Text free of '<' followed by one tag: the regex matches nowhere before the tag, so
      the text is the untagged span before it (if any) and the tag. */
  lemma PrefixedTagSegments(pre: string, name: string, inner: string, text: string)
    requires IsWordName(name) && forall c :: 0 <= c < |inner| ==> inner[c] != '<'
    requires forall c :: 0 <= c < |pre| ==> pre[c] != '<'
    requires text == pre + Opening(name) + inner + Closing(name)
    ensures Segments(text) == (if pre == [] then [] else [Plain(pre)]) + [Tagged(name, inner)]
  {
    var p := |pre|;
    TagMatch(pre, name, inner, text);
    forall k | 0 <= k < p ensures MatchAt(text, k).None? {
      assert text[k] == pre[k];
      NoMatchWithoutAngle(text, k);
    }
    ScanSkips(text, 0, 0, p);
    ScanStepMatch(text, 0, p);
    assert text[0..p] == pre;
  }

  /** ...and parses to the answer section of the trimmed prefix, unless it is blank, then
      the tag's section: type and title from the tag name, the trimmed body with citations
      linked as content, `${type}-${n}` as id where n counts the sections before it, and
      its type's default collapse state. */
  lemma ParsePrefixedTag(pre: string, name: string, inner: string, text: string)
    requires IsWordName(name) && forall c :: 0 <= c < |inner| ==> inner[c] != '<'
    requires forall c :: 0 <= c < |pre| ==> pre[c] != '<'
    requires text == pre + Opening(name) + inner + Closing(name)
    ensures var k := TagKind(name);
      var answer := if Trim(pre) == [] then [] else [Section("answer-0", Answer, "Answer", Doi.ConvertDOIsToLinks(Trim(pre)), false)];
      ParseTaggedContent(text) == answer + [Section(SectionId(k, |answer|), k, TagTitle(name), Doi.ConvertDOIsToLinks(Trim(inner)), DefaultCollapseState(k))]
  {
    var g := Tagged(name, inner);
    var bs := PrefixBodies(pre) + SegmentBodies(g);
    assert Bodies(Segments(text)) == bs by {
      var ps := if pre == [] then [] else [Plain(pre)];
      PrefixedTagSegments(pre, name, inner, text);
      BodiesAppend(ps, [g]);
      assert Bodies([g]) == SegmentBodies(g) + Bodies([]);
      PrefixBodiesOf(pre);
    }
    ParseFollowsSegments(text);
    NumberPrefixed(pre, g, bs);
  }

  /** The sections the untagged prefix contributes. */
  function PrefixBodies(pre: string): seq<SectionBody> {
    if Trim(pre) == [] then [] else [AnswerBody(Trim(pre))]
  }

  lemma PrefixBodiesOf(pre: string)
    ensures Bodies(if pre == [] then [] else [Plain(pre)]) == PrefixBodies(pre)
  {
    if pre != [] {
      assert Bodies([Plain(pre)]) == SegmentBodies(Plain(pre)) + Bodies([]);
    } else {
      TrimEmptyIffBlank(pre);
    }
  }

  lemma NumberPrefixed(pre: string, g: Segment, bs: seq<SectionBody>)
    requires g.Tagged? && bs == PrefixBodies(pre) + SegmentBodies(g)
    ensures var k := TagKind(g.name);
      var answer := if Trim(pre) == [] then [] else [Section("answer-0", Answer, "Answer", Doi.ConvertDOIsToLinks(Trim(pre)), false)];
      Number(bs) == answer + [Section(SectionId(k, |answer|), k, TagTitle(g.name), Doi.ConvertDOIsToLinks(Trim(g.inner)), DefaultCollapseState(k))]
  {
    var b := TagBody(g);
    if Trim(pre) == [] {
      assert bs == [b];
      NumberOne(b);
    } else {
      var a := AnswerBody(Trim(pre));
      assert bs == [a, b];
      NumberTwo(a, b);
      AnswerId();
    }
  }

  /** The one section body of a tagged segment. */
  lemma TagBody(g: Segment) returns (b: SectionBody)
    requires g.Tagged?
    ensures SegmentBodies(g) == [b]
    ensures var k := TagKind(g.name);
      b == SectionBody(k, TagTitle(g.name), Doi.ConvertDOIsToLinks(Trim(g.inner)), DefaultCollapseState(k))
  {
    b := SegmentBodies(g)[0];
  }

  lemma AnswerId()
    ensures SectionId(Answer, 0) == "answer-0"
  {
  }

  lemma NumberOne(b: SectionBody)
    ensures Number([b]) == [Section(SectionId(b.kind, 0), b.kind, b.title, b.content, b.isCollapsed)]
  {
  }

  lemma NumberTwo(a: SectionBody, b: SectionBody)
    ensures Number([a, b]) == [Section(SectionId(a.kind, 0), a.kind, a.title, a.content, a.isCollapsed),
                               Section(SectionId(b.kind, 1), b.kind, b.title, b.content, b.isCollapsed)]
  {
  }

  /** A lone tag becomes exactly one section: its type and title come from the tag name,
      its content is the trimmed body with citations linked, its id is `${type}-0`, and
      it takes its type's default collapse state. */
  lemma ParseSingleTag(name: string, inner: string, text: string)
    requires IsWordName(name) && forall c :: 0 <= c < |inner| ==> inner[c] != '<'
    requires text == Opening(name) + inner + Closing(name)
    ensures var k := TagKind(name);
      ParseTaggedContent(text) == [Section(SectionId(k, 0), k, TagTitle(name), Doi.ConvertDOIsToLinks(Trim(inner)), DefaultCollapseState(k))]
  {
    assert text == [] + Opening(name) + inner + Closing(name);
    ParsePrefixedTag([], name, inner, text);
    assert Trim([]) == [];
  }

  /** "drug" is a word name that selects the Drug type titled "Drug Information". */
  lemma DrugTagFacts()
    ensures IsWordName("drug") && TagKind("drug") == Drug && TagTitle("drug") == "Drug Information"
    ensures SectionId(Drug, 0) == "drug-0"
  {
    assert Lower("drug") == "drug";
    KnownTagTable();
  }

  /** A body with nothing to trim or link stays as it is. */
  lemma PlainBodyFacts()
    ensures Doi.ConvertDOIsToLinks(Trim("X")) == "X"
  {
    TrimOfTrimmed("X");
    Doi.ConvertIdentityWithoutMarkers("X");
  }

  /** `<drug>X</drug>` parses to one open "Drug Information" section with id "drug-0". */
  lemma ParseDrugExample()
    ensures ParseTaggedContent("<drug>X</drug>") == [Section("drug-0", Drug, "Drug Information", "X", false)]
  {
    DrugTagFacts();
    PlainBodyFacts();
    ParseSingleTag("drug", "X", "<drug>X</drug>");
  }

  /** "Intro " trims to "Intro", which holds no citation to link. */
  lemma IntroFacts()
    ensures Doi.ConvertDOIsToLinks(Trim("Intro ")) == "Intro"
    ensures forall c :: 0 <= c < |"Intro "| ==> "Intro "[c] != '<'
  {
    var s := "Intro ";
    assert SkipBlanks(s, 0) == 0;
    assert SkipBlanksBack(s, 0, 6) == 5;
    assert Trim(s) == s[0..5] == "Intro";
    TrimOfTrimmed("Intro");
    Doi.ConvertIdentityWithoutMarkers("Intro");
  }

  lemma IntroLayout()
    ensures "Intro <drug>X</drug>" == "Intro " + Opening("drug") + "X" + Closing("drug")
  {
    assert Opening("drug") == "<drug>";
    assert Closing("drug") == "</drug>";
  }

  /** The second section of type drug has id "drug-1". */
  lemma DrugIdFacts()
    ensures SectionId(Drug, 1) == "drug-1"
  {
  }

  /** `Intro <drug>X</drug>` parses to the answer section "Intro" and then the drug
      section, numbered after it as "drug-1": a tag after untagged text is found. */
  lemma ParseIntroDrugExample()
    ensures ParseTaggedContent("Intro <drug>X</drug>") ==
      [Section("answer-0", Answer, "Answer", "Intro", false), Section("drug-1", Drug, "Drug Information", "X", false)]
  {
    DrugTagFacts();
    PlainBodyFacts();
    IntroFacts();
    DrugIdFacts();
    IntroLayout();
    ParsePrefixedTag("Intro ", "drug", "X", "Intro <drug>X</drug>");
  }

  /** The regex can only match where a '<' is. */
  lemma NoMatchWithoutAngle(text: string, p: nat)
    requires p < |text| && text[p] != '<'
    ensures MatchAt(text, p).None?
  {
  }

  /** ...and never at the start of a closing tag. */
  lemma NoMatchAtCloser(text: string, p: nat)
    requires p + 1 < |text| && text[p + 1] == '/'
    ensures MatchAt(text, p).None?
  {
    assert !IsWordChar('/');
  }

  /** Where `<v>x</t>` lays out its pieces. */
  lemma MismatchLayout(v: string, t: string, x: string, text: string)
    requires text == Opening(v) + x + Closing(t)
    ensures var c := |v| + 2 + |x|;
      && |text| == c + |t| + 3 && text[0] == '<' && text[1..1 + |v|] == v && text[1 + |v|] == '>'
      && text[|v| + 2..c] == x && text[c..] == Closing(t)
  {
    var c := |v| + 2 + |x|;
    assert text[1..1 + |v|] == v by {
      forall k | 0 <= k < |v| ensures text[1..1 + |v|][k] == v[k] {
        assert text[1 + k] == Opening(v)[1 + k];
      }
    }
    assert text[|v| + 2..c] == x by {
      forall k | 0 <= k < |x| ensures text[|v| + 2..c][k] == x[k] {
        assert text[|v| + 2 + k] == (Opening(v) + x)[|v| + 2 + k];
      }
    }
    assert text[c..] == Closing(t);
  }

  /** The word run of an opening tag `<v>` at the start of `text` ends at its '>'. */
  lemma OpenerRun(text: string, v: string)
    requires IsWordName(v)
    requires 1 + |v| < |text| && text[1..1 + |v|] == v && text[1 + |v|] == '>'
    ensures WordRunEnd(text, 1) == 1 + |v|
  {
    forall k | 1 <= k < 1 + |v| ensures IsWordChar(text[k]) {
      assert text[k] == text[1..1 + |v|][k - 1];
    }
    WordRunEndAt(text, 1, 1 + |v|);
  }

  /** With no '<' in `x`, the only '<' after `<v>` is the one that starts `</t>`. */
  lemma AngleOnlyAtCloser(text: string, v: string, x: string, t: string)
    requires IsWordName(t) && forall k :: 0 <= k < |x| ==> x[k] != '<'
    requires var c := |v| + 2 + |x|; c <= |text| && text[|v| + 2..c] == x && text[c..] == Closing(t)
    ensures forall q :: |v| + 2 <= q < |text| && text[q] == '<' ==> q == |v| + 2 + |x|
  {
    var c := |v| + 2 + |x|;
    forall q | |v| + 2 <= q < |text| && q != c ensures text[q] != '<' {
      if q < c {
        assert text[q] == text[|v| + 2..c][q - |v| - 2];
      } else {
        assert text[q] == Closing(t)[q - c];
      }
    }
  }

  /** `</v>` is no prefix of `</t>` for distinct word names. */
  lemma ClosersDiffer(text: string, v: string, t: string, c: nat)
    requires IsWordName(v) && IsWordName(t) && v != t
    requires c <= |text| && text[c..] == Closing(t)
    ensures !OccursAt(text, Closing(v), c)
  {
    if |v| < |t| {
      assert text[c + 2 + |v|] == Closing(t)[2 + |v|] == t[|v|];
      assert Closing(v)[2 + |v|] == '>';
    } else if |v| == |t| {
      var j :| 0 <= j < |v| && v[j] != t[j];
      assert text[c + 2 + j] == Closing(t)[2 + j] == t[j];
      assert Closing(v)[2 + j] == v[j];
    }
  }

  /** `<v>x</t>` with `v != t` and no '<' in `x` holds no tag at its start. */
  lemma MismatchHasNoTag(v: string, t: string, x: string, text: string, name: string, inner: string)
    requires IsWordName(v) && IsWordName(t) && v != t && forall k :: 0 <= k < |x| ==> x[k] != '<'
    requires text == Opening(v) + x + Closing(t) && IsWordName(name)
    ensures !TagOccursAt(text, 0, name, inner)
  {
    MismatchLayout(v, t, x, text);
    if TagOccursAt(text, 0, name, inner) {
      TagOccurrenceDetermines(text, 0, name, inner);
      OpenerRun(text, v);
      assert name == v;
      var q := |v| + 2 + |inner|;
      assert text[q] == Closing(v)[0];
      AngleOnlyAtCloser(text, v, x, t);
      ClosersDiffer(text, v, t, q);
    }
  }

  /** Hence the regex does not match there. */
  lemma MismatchNoMatchAtStart(v: string, t: string, x: string, text: string)
    requires IsWordName(v) && IsWordName(t) && v != t && forall k :: 0 <= k < |x| ==> x[k] != '<'
    requires text == Opening(v) + x + Closing(t)
    ensures MatchAt(text, 0).None?
  {
    if MatchAt(text, 0).Some? {
      var m := MatchAt(text, 0).value;
      MatchOccurs(text, 0, m.name, m.inner, m.end);
      MismatchHasNoTag(v, t, x, text, m.name, m.inner);
    }
  }

  /** The regex matches nowhere in `<v>x</t>`: a '<' starts only the opener and the
      closer, and neither begins a tag. */
  lemma NoMatchInMismatch(v: string, t: string, x: string, text: string)
    requires IsWordName(v) && IsWordName(t) && v != t && forall k :: 0 <= k < |x| ==> x[k] != '<'
    requires text == Opening(v) + x + Closing(t)
    ensures forall k :: 0 <= k < |text| ==> MatchAt(text, k).None?
  {
    MismatchLayout(v, t, x, text);
    var c := |v| + 2 + |x|;
    AngleOnlyAtCloser(text, v, x, t);
    forall k | 0 <= k < |text| ensures MatchAt(text, k).None? {
      if k == 0 {
        MismatchNoMatchAtStart(v, t, x, text);
      } else if k == c {
        assert text[c + 1] == Closing(t)[1];
        NoMatchAtCloser(text, k);
      } else {
        if k <= |v| {
          assert text[k] == text[1..1 + |v|][k - 1];
        }
        NoMatchWithoutAngle(text, k);
      }
    }
  }

  /** A closer whose name differs from the opener's, say `<Drug>X</drug>`, leaves the
      whole text one "Answer" section. */
  lemma MismatchedTagStaysAnswer(v: string, t: string, x: string, text: string)
    requires IsWordName(v) && IsWordName(t) && v != t && forall k :: 0 <= k < |x| ==> x[k] != '<'
    requires text == Opening(v) + x + Closing(t)
    ensures ParseTaggedContent(text) == [Section("answer-0", Answer, "Answer", Doi.ConvertDOIsToLinks(Trim(text)), false)]
  {
    NoMatchInMismatch(v, t, x, text);
    assert text[0] == '<';
    assert !IsBlank(text) by { assert !IsWhitespace(text[0]); }
    ParseWithoutTags(text);
  }
}
