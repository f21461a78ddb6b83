/** The closed section vocabulary and its lookup tables (constants/section-types.ts). */
module SectionTypes {
  import opened Wrappers
  import opened Strings

  /** `SectionType`: the four known kinds plus the fallback for unrecognised tags. */
  datatype SectionType = Answer | Guideline | Drug | Think | Unknown

  /** The string spelling of a section type, as it appears in section ids and merge keys. */
  function TypeName(t: SectionType): string {
    match t
    case Answer => "answer"
    case Guideline => "guideline"
    case Drug => "drug"
    case Think => "think"
    case Unknown => "unknown"
  }

  /** One entry of `SECTION_CONFIG`. */
  datatype SectionConfig = SectionConfig(kind: SectionType, title: string, defaultCollapsed: bool)

  /** `SECTION_TAGS` values, in the order `STREAM_TAGS` lists them. */
  const GuidelineTag: string := "guideline"
  const DrugTag: string := "drug"
  const ThinkTag: string := "think"

  /** `STREAM_TAGS`: the tags the streaming balancer and sanitizer know about. */
  const StreamTags: seq<string> := [GuidelineTag, DrugTag, ThinkTag]

  /** `SECTION_CONFIG`, keyed by lower-case tag name. */
  const SectionConfigTable: map<string, SectionConfig> := map[
    GuidelineTag := SectionConfig(Guideline, "Guidelines", false),
    DrugTag := SectionConfig(Drug, "Drug Information", false),
    ThinkTag := SectionConfig(Think, "Reasoning", false)
  ]

  /** `SECTION_CONFIG[key]`, `undefined` when the key is absent. Keys such as
      "constructor" that a plain object inherits carry no `type` or `title`, so they
      behave exactly like absent keys; the map models that. */
  function LookupConfig(key: string): (r: Option<SectionConfig>)
    ensures r.Some? <==> key in StreamTags
    ensures r.Some? ==> TypeName(r.value.kind) == key && r.value.kind != Answer && r.value.kind != Unknown
  {
    if key in SectionConfigTable then Some(SectionConfigTable[key]) else None
  }

  /** `DEFAULT_COLLAPSE_STATE`. */
  function DefaultCollapseState(t: SectionType): (collapsed: bool)
    ensures collapsed <==> t == Unknown
  {
    match t
    case Unknown => true
    case _ => false
  }

  /** The tag table maps guideline, drug and think to their types and display titles. */
  lemma KnownTagTable()
    ensures LookupConfig("guideline") == Some(SectionConfig(Guideline, "Guidelines", false))
    ensures LookupConfig("drug") == Some(SectionConfig(Drug, "Drug Information", false))
    ensures LookupConfig("think") == Some(SectionConfig(Think, "Reasoning", false))
  {
  }

  /** `STREAM_TAGS` lists exactly the keys of `SECTION_CONFIG`, once each, all lower case. */
  lemma StreamTagsAreConfigKeys()
    ensures forall t :: t in StreamTags <==> t in SectionConfigTable
    ensures |StreamTags| == |SectionConfigTable.Keys|
    ensures forall i, j :: 0 <= i < j < |StreamTags| ==> StreamTags[i] != StreamTags[j]
    ensures forall t :: t in StreamTags ==> IsLowerCase(t) && t != []
  {
    assert SectionConfigTable.Keys == {GuidelineTag, DrugTag, ThinkTag};
  }

  /** Every configured default agrees with `DEFAULT_COLLAPSE_STATE` and is "expanded". */
  lemma ConfigDefaultsAgree()
    ensures forall k :: k in SectionConfigTable ==>
      !SectionConfigTable[k].defaultCollapsed
      && SectionConfigTable[k].defaultCollapsed == DefaultCollapseState(SectionConfigTable[k].kind)
  {
  }

  /** Type names contain no '-' and determine the type. */
  lemma TypeNameProperties(t: SectionType, u: SectionType)
    ensures forall i :: 0 <= i < |TypeName(t)| ==> TypeName(t)[i] != '-'
    ensures TypeName(t) == TypeName(u) ==> t == u
  {
  }

  /** Stream tags are non-empty runs of lower-case ASCII letters of at most nine
      characters, and no two have the same length. */
  lemma StreamTagShapes()
    ensures forall t :: t in StreamTags ==> 1 <= |t| <= 9 && forall k :: 0 <= k < |t| ==> IsAsciiLower(t[k])
    ensures forall t, u :: t in StreamTags && u in StreamTags && |t| == |u| ==> t == u
  {
  }
}
