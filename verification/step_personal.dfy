/** The Personal Details step (src/components/wizard/StepPersonal.tsx):
    `update(field, value)` emits `{ personalDetails: { ...current, [field]: value } }`.
    Values are stored verbatim: nothing is trimmed and nothing is rejected,
    whatever the `*` on a label suggests. */
module StepPersonal {
  import opened Wrappers
  import opened WizardTypes
  import opened WizardState

  /** `keyof PersonalDetails`. */
  datatype PersonalField = FullName | Email | Phone | Location | Linkedin | Github | PortfolioLink

  /** The value of one field; only the portfolio link can be absent. */
  function GetPersonal(pd: PersonalDetails, f: PersonalField): Option<string>
  {
    match f
    case FullName => Some(pd.fullName)
    case Email => Some(pd.email)
    case Phone => Some(pd.phone)
    case Location => Some(pd.location)
    case Linkedin => Some(pd.linkedin)
    case Github => Some(pd.github)
    case PortfolioLink => pd.portfolioLink
  }

  /** `{ ...pd, [f]: v }`. */
  function SetPersonal(pd: PersonalDetails, f: PersonalField, v: string): (r: PersonalDetails)
    ensures GetPersonal(r, f) == Some(v)
    ensures forall g :: g != f ==> GetPersonal(r, g) == GetPersonal(pd, g)
  {
    match f
    case FullName => pd.(fullName := v)
    case Email => pd.(email := v)
    case Phone => pd.(phone := v)
    case Location => pd.(location := v)
    case Linkedin => pd.(linkedin := v)
    case Github => pd.(github := v)
    case PortfolioLink => pd.(portfolioLink := Some(v))
  }

  /** The partial `update(f, v)` hands to `onChange`: it holds only the
      `personalDetails` key, with field `f` set to `v` verbatim and every
      other field as it was. */
  function Update(d: WizardData, f: PersonalField, v: string): (p: WizardPatch)
    ensures Keys(p) == {PersonalDetailsKey}
    ensures p.personalDetails.Some?
    ensures GetPersonal(p.personalDetails.value, f) == Some(v)
    ensures forall g :: g != f ==> GetPersonal(p.personalDetails.value, g) == GetPersonal(d.personalDetails, g)
  {
    EmptyPatch.(personalDetails := Some(SetPersonal(d.personalDetails, f, v)))
  }

  /** The state after the step's edit has gone through `updateData`. */
  function Edit(d: WizardData, f: PersonalField, v: string): WizardData
  {
    UpdateData(d, Update(d, f, v))
  }

  // ----- Lemmas -------------------------------------------------------------

  /** Personal details are determined by their fields. */
  lemma PersonalExtensionality(a: PersonalDetails, b: PersonalDetails)
    requires forall g :: GetPersonal(a, g) == GetPersonal(b, g)
    ensures a == b
  {
    assert GetPersonal(a, FullName) == GetPersonal(b, FullName);
    assert GetPersonal(a, Email) == GetPersonal(b, Email);
    assert GetPersonal(a, Phone) == GetPersonal(b, Phone);
    assert GetPersonal(a, Location) == GetPersonal(b, Location);
    assert GetPersonal(a, Linkedin) == GetPersonal(b, Linkedin);
    assert GetPersonal(a, Github) == GetPersonal(b, Github);
    assert GetPersonal(a, PortfolioLink) == GetPersonal(b, PortfolioLink);
  }

  /** After the edit, field `f` holds `v`, every other personal field and
      every other top-level key is unchanged. */
  lemma EditEffect(d: WizardData, f: PersonalField, v: string)
    ensures GetPersonal(Edit(d, f, v).personalDetails, f) == Some(v)
    ensures forall g :: g != f ==> GetPersonal(Edit(d, f, v).personalDetails, g) == GetPersonal(d.personalDetails, g)
    ensures forall k :: k != PersonalDetailsKey ==> Field(Edit(d, f, v), k) == Field(d, k)
  {
  }

  /** Repeating an edit changes nothing more. */
  lemma EditIdempotent(d: WizardData, f: PersonalField, v: string)
    ensures Edit(Edit(d, f, v), f, v) == Edit(d, f, v)
  {
    var once := Edit(d, f, v).personalDetails;
    var twice := Edit(Edit(d, f, v), f, v).personalDetails;
    PersonalExtensionality(once, twice);
  }

  /** Edits to different fields commute. */
  lemma EditsCommute(d: WizardData, f: PersonalField, v: string, g: PersonalField, w: string)
    requires f != g
    ensures Edit(Edit(d, f, v), g, w) == Edit(Edit(d, g, w), f, v)
  {
    var a := Edit(Edit(d, f, v), g, w).personalDetails;
    var b := Edit(Edit(d, g, w), f, v).personalDetails;
    PersonalExtensionality(a, b);
  }
}
