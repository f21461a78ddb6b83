/** The records of types.d.ts: sections, progress steps and finished question/answer pairs. */
module Sections {
  import opened Strings
  import opened SectionTypes
  import opened JsValues

  /** `Section`; the source's `type` field is called `kind` here. */
  datatype Section = Section(id: string, kind: SectionType, title: string, content: string, isCollapsed: bool)

  /** The section's collapse state is the one `DEFAULT_COLLAPSE_STATE` gives its type. */
  predicate DefaultCollapsed(sec: Section) {
    sec.isCollapsed == DefaultCollapseState(sec.kind)
  }

  /** `ProgressStep`. Its fields keep the raw decoded values: the source copies
      `step.isCompleted || false` and later compares it with `=== true`, so a truthy
      non-boolean flag is stored as is and does not count as completed. */
  datatype ProgressStep = ProgressStep(text: Js, isActive: Js, isCompleted: Js, extraInfo: Js)

  /** `step.isCompleted === true`. */
  predicate IsCompleted(step: ProgressStep) {
    step.isCompleted == Bool(true)
  }

  /** `QAPair`; `id` is the opaque timestamp string the source takes from the clock. */
  datatype QAPair = QAPair(id: string, question: string, sections: seq<Section>, progressSteps: seq<ProgressStep>)

  /** The id `${type}-${index}` given to the section at position `index` of a parse. */
  function SectionId(t: SectionType, index: nat): string {
    TypeName(t) + "-" + NatToString(index)
  }

  /** Ids name their position: two ids are equal only for the same type and index. */
  lemma SectionIdInjective(t: SectionType, i: nat, u: SectionType, j: nat)
    requires SectionId(t, i) == SectionId(u, j)
    ensures t == u && i == j
  {
    TypeNameProperties(t, u);
    TypeNameProperties(u, t);
    DashJoinInjective(TypeName(t), NatToString(i), TypeName(u), NatToString(j));
    NatToStringInjective(i, j);
  }
}
