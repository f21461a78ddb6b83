/** `mergeSections` (utils/content-parser.ts): a new parse takes over the collapse state
    the reader chose for sections with the same type and title. */
module SectionMerge {
  import opened Strings
  import opened SectionTypes
  import opened Sections
  import opened Wrappers

  /** The map key `${type}-${title}`. */
  function MergeKey(s: Section): string {
    TypeName(s.kind) + "-" + s.title
  }

  /** Type and title agree with the given ones. */
  predicate SameHeading(s: Section, kind: SectionType, title: string) {
    s.kind == kind && s.title == title
  }

  /** Keys agree exactly when type and title do: type names hold no '-'. */
  lemma MergeKeyInjective(a: Section, b: Section)
    ensures MergeKey(a) == MergeKey(b) <==> SameHeading(a, b.kind, b.title)
  {
    if MergeKey(a) == MergeKey(b) {
      TypeNameProperties(a.kind, b.kind);
      TypeNameProperties(b.kind, a.kind);
      DashJoinInjective(TypeName(a.kind), a.title, TypeName(b.kind), b.title);
    }
  }

  /** The last position in `ss` holding a section with this type and title. */
  function LastWithHeading(ss: seq<Section>, kind: SectionType, title: string): (r: Option<nat>)
    ensures r.Some? ==> r.value < |ss| && SameHeading(ss[r.value], kind, title)
    ensures r.Some? ==> forall j :: r.value < j < |ss| ==> !SameHeading(ss[j], kind, title)
    ensures r.None? ==> forall j :: 0 <= j < |ss| ==> !SameHeading(ss[j], kind, title)
  {
    if ss == [] then None
    else if SameHeading(ss[|ss| - 1], kind, title) then Some(|ss| - 1)
    else LastWithHeading(ss[..|ss| - 1], kind, title)
  }

  /** `existingMap`: each section is stored under its key in list order, so a later
      section replaces an earlier one with the same key. */
  function IndexByKey(existing: seq<Section>): map<string, Section> {
    if existing == [] then map[]
    else
      var last := existing[|existing| - 1];
      IndexByKey(existing[..|existing| - 1])[MergeKey(last) := last]
  }

  /** The map finds, for a type and title, the last existing section that has them. */
  lemma {:induction false} IndexByKeyFindsLast(existing: seq<Section>, s: Section)
    ensures MergeKey(s) in IndexByKey(existing) <==> LastWithHeading(existing, s.kind, s.title).Some?
    ensures MergeKey(s) in IndexByKey(existing) ==>
      IndexByKey(existing)[MergeKey(s)] == existing[LastWithHeading(existing, s.kind, s.title).value]
    decreases |existing|
  {
    if existing != [] {
      var last := existing[|existing| - 1];
      IndexByKeyFindsLast(existing[..|existing| - 1], s);
      MergeKeyInjective(last, s);
    }
  }

  /** One new section with the collapse state of its stored counterpart, if any. */
  function Carry(index: map<string, Section>, s: Section): Section {
    var key := MergeKey(s);
    if key in index then s.(isCollapsed := index[key].isCollapsed) else s
  }

  /** `mergeSections`. */
  function MergeSections(existing: seq<Section>, incoming: seq<Section>): (r: seq<Section>)
    ensures existing == [] ==> r == incoming
    ensures |r| == |incoming|
    ensures forall i :: 0 <= i < |r| ==>
      r[i].id == incoming[i].id && r[i].kind == incoming[i].kind && r[i].title == incoming[i].title && r[i].content == incoming[i].content
  {
    if |existing| == 0 then incoming
    else
      var index := IndexByKey(existing);
      seq(|incoming|, i requires 0 <= i < |incoming| => Carry(index, incoming[i]))
  }

  /** The collapse state of each merged section: that of the last existing section with
      the same type and title when there is one, else the new section's own. */
  lemma MergeCarriesLastCollapse(existing: seq<Section>, incoming: seq<Section>, i: nat)
    requires existing != [] && i < |incoming|
    ensures var j := LastWithHeading(existing, incoming[i].kind, incoming[i].title);
      MergeSections(existing, incoming)[i].isCollapsed == if j.Some? then existing[j.value].isCollapsed else incoming[i].isCollapsed
  {
    IndexByKeyFindsLast(existing, incoming[i]);
  }

  /** Merging the same existing sections twice changes nothing more. */
  lemma MergeIdempotent(existing: seq<Section>, incoming: seq<Section>)
    ensures MergeSections(existing, MergeSections(existing, incoming)) == MergeSections(existing, incoming)
  {
    var once := MergeSections(existing, incoming);
    if existing != [] {
      forall i | 0 <= i < |once| ensures MergeSections(existing, once)[i] == once[i] {
        MergeCarriesLastCollapse(existing, incoming, i);
        MergeCarriesLastCollapse(existing, once, i);
      }
    }
  }

  /** Where every section keeps its type's default collapse state, a merge is the new list
      itself: the state carried over is the one the new section already has. */
  lemma MergeOverDefaults(existing: seq<Section>, incoming: seq<Section>)
    requires forall i :: 0 <= i < |existing| ==> DefaultCollapsed(existing[i])
    requires forall i :: 0 <= i < |incoming| ==> DefaultCollapsed(incoming[i])
    ensures MergeSections(existing, incoming) == incoming
  {
    var merged := MergeSections(existing, incoming);
    if existing != [] {
      forall i | 0 <= i < |incoming| ensures merged[i] == incoming[i] {
        MergeCarriesLastCollapse(existing, incoming, i);
      }
    }
  }
}
