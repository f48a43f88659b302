/** The Education step (src/components/wizard/StepEducation.tsx):
    `update(field, value)` emits `{ education: { ...current, [field]: value } }`.
    Graduation year and CGPA are raw strings: nothing checks that they are
    numbers, and no field is required. */
module StepEducation {
  import opened Wrappers
  import opened WizardTypes
  import opened WizardState

  /** `keyof Education`. */
  datatype EducationField = Degree | College | GradYear | Cgpa

  function GetEducation(e: Education, f: EducationField): string
  {
    match f
    case Degree => e.degree
    case College => e.college
    case GradYear => e.gradYear
    case Cgpa => e.cgpa
  }

  /** `{ ...e, [f]: v }`. */
  function SetEducation(e: Education, f: EducationField, v: string): (r: Education)
    ensures GetEducation(r, f) == v
    ensures forall g :: g != f ==> GetEducation(r, g) == GetEducation(e, g)
  {
    match f
    case Degree => e.(degree := v)
    case College => e.(college := v)
    case GradYear => e.(gradYear := v)
    case Cgpa => e.(cgpa := v)
  }

  /** The partial `update(f, v)` hands to `onChange`: only the `education`
      key, with field `f` set to `v` verbatim and the other fields kept. */
  function Update(d: WizardData, f: EducationField, v: string): (p: WizardPatch)
    ensures Keys(p) == {EducationKey}
    ensures p.education.Some?
    ensures GetEducation(p.education.value, f) == v
    ensures forall g :: g != f ==> GetEducation(p.education.value, g) == GetEducation(d.education, g)
  {
    EmptyPatch.(education := Some(SetEducation(d.education, f, v)))
  }

  /** The state after the step's edit has gone through `updateData`. */
  function Edit(d: WizardData, f: EducationField, v: string): WizardData
  {
    UpdateData(d, Update(d, f, v))
  }

  // ----- Lemmas -------------------------------------------------------------

  lemma EducationExtensionality(a: Education, b: Education)
    requires forall g :: GetEducation(a, g) == GetEducation(b, g)
    ensures a == b
  {
    assert GetEducation(a, Degree) == GetEducation(b, Degree);
    assert GetEducation(a, College) == GetEducation(b, College);
    assert GetEducation(a, GradYear) == GetEducation(b, GradYear);
    assert GetEducation(a, Cgpa) == GetEducation(b, Cgpa);
  }

  /** After the edit, field `f` holds `v`, every other education field and
      every other top-level key is unchanged. */
  lemma EditEffect(d: WizardData, f: EducationField, v: string)
    ensures GetEducation(Edit(d, f, v).education, f) == v
    ensures forall g :: g != f ==> GetEducation(Edit(d, f, v).education, g) == GetEducation(d.education, g)
    ensures forall k :: k != EducationKey ==> Field(Edit(d, f, v), k) == Field(d, k)
  {
  }

  /** Repeating an edit changes nothing more. */
  lemma EditIdempotent(d: WizardData, f: EducationField, v: string)
    ensures Edit(Edit(d, f, v), f, v) == Edit(d, f, v)
  {
    EducationExtensionality(Edit(d, f, v).education, Edit(Edit(d, f, v), f, v).education);
  }

  /** Edits to different fields commute. */
  lemma EditsCommute(d: WizardData, f: EducationField, v: string, g: EducationField, w: string)
    requires f != g
    ensures Edit(Edit(d, f, v), g, w) == Edit(Edit(d, g, w), f, v)
  {
    EducationExtensionality(Edit(Edit(d, f, v), g, w).education, Edit(Edit(d, g, w), f, v).education);
  }
}
