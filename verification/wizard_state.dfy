/** The wizard's state holder (src/pages/Builder.tsx): the shallow
    `{ ...prev, ...partial }` merge every step's `onChange` goes through,
    and the merge of a loaded record over the current state. */
module WizardState {
  import opened Wrappers
  import opened WizardTypes

  /** `updateData(partial)`: a top-level shallow merge. Exactly the keys
      present in `p` take `p`'s values (a nested object is replaced whole);
      every other key keeps its value from `d`. */
  function UpdateData(d: WizardData, p: WizardPatch): (r: WizardData)
    ensures forall k :: Field(r, k) == (if k in Keys(p) then PatchField(p, k).value else Field(d, k))
  {
    WizardData(
      p.personalDetails.GetOr(d.personalDetails),
      p.education.GetOr(d.education),
      p.targetRole.GetOr(d.targetRole),
      p.skills.GetOr(d.skills),
      p.projects.GetOr(d.projects),
      p.experiences.GetOr(d.experiences),
      p.certifications.GetOr(d.certifications),
      p.documentType.GetOr(d.documentType),
      p.resumeTemplate.GetOr(d.resumeTemplate),
      p.portfolioTemplate.GetOr(d.portfolioTemplate))
  }

  /** `{ ...prev, ...(stored as Partial<WizardData>), <template key>: template }`:
      a loaded record's stored data is merged over the current state at top
      level only, then the record kind's template field is forced to the
      record's template column. */
  function MergeRecord(prev: WizardData, stored: WizardPatch, kind: RecordKind, template: string): (r: WizardData)
    ensures Field(r, TemplateKey(kind)) == TextValue(template)
    ensures forall k :: k != TemplateKey(kind) ==>
              Field(r, k) == (if k in Keys(stored) then PatchField(stored, k).value else Field(prev, k))
  {
    var merged := UpdateData(prev, stored);
    match kind
    case ResumeKind => merged.(resumeTemplate := template)
    case PortfolioKind => merged.(portfolioTemplate := template)
  }

  /** The template a record of `kind` saved from `d` carries. */
  function TemplateOf(d: WizardData, kind: RecordKind): string
  {
    match kind
    case ResumeKind => d.resumeTemplate
    case PortfolioKind => d.portfolioTemplate
  }

  // ----- Lemmas -------------------------------------------------------------

  /** An empty partial changes nothing. */
  lemma UpdateEmpty(d: WizardData)
    ensures UpdateData(d, EmptyPatch) == d
  {
  }

  /** Applying the same partial twice is applying it once. */
  lemma UpdateIdempotent(d: WizardData, p: WizardPatch)
    ensures UpdateData(UpdateData(d, p), p) == UpdateData(d, p)
  {
    FieldExtensionality(UpdateData(UpdateData(d, p), p), UpdateData(d, p));
  }

  /** Partials with disjoint keys commute. */
  lemma UpdateCommute(d: WizardData, p: WizardPatch, q: WizardPatch)
    requires Keys(p) !! Keys(q)
    ensures UpdateData(UpdateData(d, p), q) == UpdateData(UpdateData(d, q), p)
  {
    FieldExtensionality(UpdateData(UpdateData(d, p), q), UpdateData(UpdateData(d, q), p));
  }

  /** A partial holding every key replaces the whole state. */
  lemma UpdateWithComplete(d: WizardData, e: WizardData)
    ensures UpdateData(d, PatchOf(e)) == e
  {
    FieldExtensionality(UpdateData(d, PatchOf(e)), e);
  }

  /** Loading a record that holds a complete profile, with the template it
      was saved with, restores that profile whatever the state was before. */
  lemma MergeSavedRecord(prev: WizardData, d: WizardData, kind: RecordKind)
    ensures MergeRecord(prev, PatchOf(d), kind, TemplateOf(d, kind)) == d
  {
    UpdateWithComplete(prev, d);
  }

  /** A stored nested object replaces the current one wholesale: no field of
      the current personal details, education or skills survives. */
  lemma MergeReplacesNestedObjects(prev: WizardData, stored: WizardPatch, kind: RecordKind, template: string)
    ensures var r := MergeRecord(prev, stored, kind, template);
      && (stored.personalDetails.Some? ==> r.personalDetails == stored.personalDetails.value)
      && (stored.education.Some? ==> r.education == stored.education.value)
      && (stored.skills.Some? ==> r.skills == stored.skills.value)
  {
  }
}
