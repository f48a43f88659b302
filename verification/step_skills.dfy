/** The Skills step (src/components/wizard/StepSkills.tsx):
    `update(field, value)` emits `{ skills: { ...current, [field]: value } }`.
    The comma-separated text is stored as typed; it is only split when a
    document is rendered. */
module StepSkills {
  import opened Wrappers
  import opened WizardTypes
  import opened WizardState

  /** `keyof WizardData["skills"]`. */
  datatype SkillsField = Languages | MlSkills | Tools | Frameworks | Databases

  function GetSkills(s: Skills, f: SkillsField): string
  {
    match f
    case Languages => s.languages
    case MlSkills => s.mlSkills
    case Tools => s.tools
    case Frameworks => s.frameworks
    case Databases => s.databases
  }

  /** `{ ...s, [f]: v }`. */
  function SetSkills(s: Skills, f: SkillsField, v: string): (r: Skills)
    ensures GetSkills(r, f) == v
    ensures forall g :: g != f ==> GetSkills(r, g) == GetSkills(s, g)
  {
    match f
    case Languages => s.(languages := v)
    case MlSkills => s.(mlSkills := v)
    case Tools => s.(tools := v)
    case Frameworks => s.(frameworks := v)
    case Databases => s.(databases := v)
  }

  /** The partial `update(f, v)` hands to `onChange`: only the `skills` key,
      with category `f` set to `v` unsplit and the other categories kept. */
  function Update(d: WizardData, f: SkillsField, v: string): (p: WizardPatch)
    ensures Keys(p) == {SkillsKey}
    ensures p.skills.Some?
    ensures GetSkills(p.skills.value, f) == v
    ensures forall g :: g != f ==> GetSkills(p.skills.value, g) == GetSkills(d.skills, g)
  {
    EmptyPatch.(skills := Some(SetSkills(d.skills, f, v)))
  }

  /** The state after the step's edit has gone through `updateData`. */
  function Edit(d: WizardData, f: SkillsField, v: string): WizardData
  {
    UpdateData(d, Update(d, f, v))
  }

  // ----- Lemmas -------------------------------------------------------------

  lemma SkillsExtensionality(a: Skills, b: Skills)
    requires forall g :: GetSkills(a, g) == GetSkills(b, g)
    ensures a == b
  {
    assert GetSkills(a, Languages) == GetSkills(b, Languages);
    assert GetSkills(a, MlSkills) == GetSkills(b, MlSkills);
    assert GetSkills(a, Tools) == GetSkills(b, Tools);
    assert GetSkills(a, Frameworks) == GetSkills(b, Frameworks);
    assert GetSkills(a, Databases) == GetSkills(b, Databases);
  }

  /** After the edit, category `f` holds `v`, every other category and every
      other top-level key is unchanged. */
  lemma EditEffect(d: WizardData, f: SkillsField, v: string)
    ensures GetSkills(Edit(d, f, v).skills, f) == v
    ensures forall g :: g != f ==> GetSkills(Edit(d, f, v).skills, g) == GetSkills(d.skills, g)
    ensures forall k :: k != SkillsKey ==> Field(Edit(d, f, v), k) == Field(d, k)
  {
  }

  /** Repeating an edit changes nothing more. */
  lemma EditIdempotent(d: WizardData, f: SkillsField, v: string)
    ensures Edit(Edit(d, f, v), f, v) == Edit(d, f, v)
  {
    SkillsExtensionality(Edit(d, f, v).skills, Edit(Edit(d, f, v), f, v).skills);
  }

  /** Edits to different categories commute. */
  lemma EditsCommute(d: WizardData, f: SkillsField, v: string, g: SkillsField, w: string)
    requires f != g
    ensures Edit(Edit(d, f, v), g, w) == Edit(Edit(d, g, w), f, v)
  {
    SkillsExtensionality(Edit(Edit(d, f, v), g, w).skills, Edit(Edit(d, g, w), f, v).skills);
  }
}
