/** The Experience step (src/components/wizard/StepExperience.tsx): append
    a blank experience, edit one field of the experience with a given id,
    remove the experiences with a given id. Each emits only the
    `experiences` key. The new id comes from `crypto.randomUUID()`; here the
    caller supplies it. */
module StepExperience {
  import opened Wrappers
  import opened WizardTypes
  import opened WizardState
  import opened KeyedLists

  /** `keyof Experience`. */
  datatype ExperienceField = Id | Title | Company | Duration | Description

  function GetExperience(e: Experience, f: ExperienceField): string
  {
    match f
    case Id => e.id
    case Title => e.title
    case Company => e.company
    case Duration => e.duration
    case Description => e.description
  }

  /** `{ ...e, [f]: v }`. */
  function SetExperience(e: Experience, f: ExperienceField, v: string): (r: Experience)
    ensures GetExperience(r, f) == v
    ensures forall g :: g != f ==> GetExperience(r, g) == GetExperience(e, g)
  {
    match f
    case Id => e.(id := v)
    case Title => e.(title := v)
    case Company => e.(company := v)
    case Duration => e.(duration := v)
    case Description => e.(description := v)
  }

  function ExperienceId(e: Experience): string
  {
    e.id
  }

  /** The blank experience `addExp` creates: every field but the id is empty. */
  function NewExperience(id: string): (e: Experience)
    ensures e.id == id
    ensures forall f :: f != Id ==> GetExperience(e, f) == ""
  {
    Experience(id, "", "", "", "")
  }

  /** `addExp()`: the list grows by exactly one blank experience at the end;
      the existing experiences are kept, in order. */
  function AddExperience(d: WizardData, freshId: string): (p: WizardPatch)
    ensures Keys(p) == {ExperiencesKey}
    ensures p.experiences.Some?
    ensures |p.experiences.value| == |d.experiences| + 1
    ensures p.experiences.value[..|d.experiences|] == d.experiences
    ensures p.experiences.value[|d.experiences|] == NewExperience(freshId)
  {
    EmptyPatch.(experiences := Some(d.experiences + [NewExperience(freshId)]))
  }

  /** `updateExp(id, f, v)`: same length and order; an experience whose id is
      `id` gets `v` in field `f` and keeps its other fields; every other
      experience is kept as it is. */
  function UpdateExperience(d: WizardData, id: string, f: ExperienceField, v: string): (p: WizardPatch)
    ensures Keys(p) == {ExperiencesKey}
    ensures p.experiences.Some?
    ensures |p.experiences.value| == |d.experiences|
    ensures forall i :: 0 <= i < |d.experiences| && d.experiences[i].id == id ==>
              GetExperience(p.experiences.value[i], f) == v
              && forall g :: g != f ==> GetExperience(p.experiences.value[i], g) == GetExperience(d.experiences[i], g)
    ensures forall i :: 0 <= i < |d.experiences| && d.experiences[i].id != id ==> p.experiences.value[i] == d.experiences[i]
  {
    EmptyPatch.(experiences := Some(UpdateWhere(d.experiences, ExperienceId, id, (e: Experience) => SetExperience(e, f, v))))
  }

  /** `removeExp(id)`: no experience with id `id` is left; every other
      experience is kept. */
  function RemoveExperience(d: WizardData, id: string): (p: WizardPatch)
    ensures Keys(p) == {ExperiencesKey}
    ensures p.experiences.Some?
    ensures forall i :: 0 <= i < |p.experiences.value| ==> p.experiences.value[i].id != id && p.experiences.value[i] in d.experiences
    ensures forall i :: 0 <= i < |d.experiences| && d.experiences[i].id != id ==> d.experiences[i] in p.experiences.value
  {
    EmptyPatch.(experiences := Some(RemoveWhere(d.experiences, ExperienceId, id)))
  }

  // ----- Lemmas -------------------------------------------------------------

  /** Editing a field other than the id keeps every experience's id in
      place, and so keeps ids unique. */
  lemma UpdateExperienceKeepsIds(d: WizardData, id: string, f: ExperienceField, v: string)
    requires f != Id
    ensures var es := UpdateExperience(d, id, f, v).experiences.value;
      && (forall i :: 0 <= i < |es| ==> es[i].id == d.experiences[i].id)
      && (UniqueKeys(d.experiences, ExperienceId) ==> UniqueKeys(es, ExperienceId))
  {
    UpdateWhereKeepsKeys(d.experiences, ExperienceId, id, (e: Experience) => SetExperience(e, f, v));
  }

  /** Updating an id that no experience has changes nothing. */
  lemma UpdateExperienceAbsent(d: WizardData, id: string, f: ExperienceField, v: string)
    requires !HasKey(d.experiences, ExperienceId, id)
    ensures UpdateExperience(d, id, f, v).experiences.value == d.experiences
  {
    UpdateWhereAbsent(d.experiences, ExperienceId, id, (e: Experience) => SetExperience(e, f, v));
  }

  /** Removal keeps ids unique. */
  lemma RemoveExperienceKeepsUnique(d: WizardData, id: string)
    requires UniqueKeys(d.experiences, ExperienceId)
    ensures UniqueKeys(RemoveExperience(d, id).experiences.value, ExperienceId)
  {
    RemoveWhereKeepsUnique(d.experiences, ExperienceId, id);
  }

  /** Adding an experience with a fresh id keeps ids unique. */
  lemma AddExperienceKeepsUnique(d: WizardData, freshId: string)
    requires UniqueKeys(d.experiences, ExperienceId)
    requires !HasKey(d.experiences, ExperienceId, freshId)
    ensures UniqueKeys(AddExperience(d, freshId).experiences.value, ExperienceId)
  {
    AppendFreshKeepsUnique(d.experiences, ExperienceId, NewExperience(freshId));
  }
}
