/** The Projects step (src/components/wizard/StepProjects.tsx): append a
    blank project, edit one field of the project with a given id, remove
    the projects with a given id. Each emits only the `projects` key. The
    new project's id comes from `crypto.randomUUID()`; here the caller
    supplies it. */
module StepProjects {
  import opened Wrappers
  import opened WizardTypes
  import opened WizardState
  import opened KeyedLists

  /** `keyof Project`. */
  datatype ProjectField = Id | Title | Problem | TechStack | Contributions | Outcome

  function GetProject(p: Project, f: ProjectField): string
  {
    match f
    case Id => p.id
    case Title => p.title
    case Problem => p.problem
    case TechStack => p.techStack
    case Contributions => p.contributions
    case Outcome => p.outcome
  }

  /** `{ ...p, [f]: v }`. */
  function SetProject(p: Project, f: ProjectField, v: string): (r: Project)
    ensures GetProject(r, f) == v
    ensures forall g :: g != f ==> GetProject(r, g) == GetProject(p, g)
  {
    match f
    case Id => p.(id := v)
    case Title => p.(title := v)
    case Problem => p.(problem := v)
    case TechStack => p.(techStack := v)
    case Contributions => p.(contributions := v)
    case Outcome => p.(outcome := v)
  }

  function ProjectId(p: Project): string
  {
    p.id
  }

  /** The blank project `addProject` creates: every field but the id is empty. */
  function NewProject(id: string): (p: Project)
    ensures p.id == id
    ensures forall f :: f != Id ==> GetProject(p, f) == ""
  {
    Project(id, "", "", "", "", "")
  }

  /** `addProject()`: the list grows by exactly one blank project at the
      end; the existing projects are kept, in order. */
  function AddProject(d: WizardData, freshId: string): (p: WizardPatch)
    ensures Keys(p) == {ProjectsKey}
    ensures p.projects.Some?
    ensures |p.projects.value| == |d.projects| + 1
    ensures p.projects.value[..|d.projects|] == d.projects
    ensures p.projects.value[|d.projects|] == NewProject(freshId)
  {
    EmptyPatch.(projects := Some(d.projects + [NewProject(freshId)]))
  }

  /** `updateProject(id, f, v)`: same length and order; a project whose id is
      `id` gets `v` in field `f` and keeps its other fields; every other
      project is kept as it is. */
  function UpdateProject(d: WizardData, id: string, f: ProjectField, v: string): (p: WizardPatch)
    ensures Keys(p) == {ProjectsKey}
    ensures p.projects.Some?
    ensures |p.projects.value| == |d.projects|
    ensures forall i :: 0 <= i < |d.projects| && d.projects[i].id == id ==>
              GetProject(p.projects.value[i], f) == v
              && forall g :: g != f ==> GetProject(p.projects.value[i], g) == GetProject(d.projects[i], g)
    ensures forall i :: 0 <= i < |d.projects| && d.projects[i].id != id ==> p.projects.value[i] == d.projects[i]
  {
    EmptyPatch.(projects := Some(UpdateWhere(d.projects, ProjectId, id, (q: Project) => SetProject(q, f, v))))
  }

  /** `removeProject(id)`: no project with id `id` is left; every other
      project is kept. */
  function RemoveProject(d: WizardData, id: string): (p: WizardPatch)
    ensures Keys(p) == {ProjectsKey}
    ensures p.projects.Some?
    ensures forall i :: 0 <= i < |p.projects.value| ==> p.projects.value[i].id != id && p.projects.value[i] in d.projects
    ensures forall i :: 0 <= i < |d.projects| && d.projects[i].id != id ==> d.projects[i] in p.projects.value
  {
    EmptyPatch.(projects := Some(RemoveWhere(d.projects, ProjectId, id)))
  }

  // ----- Lemmas -------------------------------------------------------------

  /** Editing a field other than the id keeps every project's id in place,
      and so keeps ids unique. */
  lemma UpdateProjectKeepsIds(d: WizardData, id: string, f: ProjectField, v: string)
    requires f != Id
    ensures var ps := UpdateProject(d, id, f, v).projects.value;
      && (forall i :: 0 <= i < |ps| ==> ps[i].id == d.projects[i].id)
      && (UniqueKeys(d.projects, ProjectId) ==> UniqueKeys(ps, ProjectId))
  {
    UpdateWhereKeepsKeys(d.projects, ProjectId, id, (q: Project) => SetProject(q, f, v));
  }

  /** Updating an id that no project has changes nothing. */
  lemma UpdateProjectAbsent(d: WizardData, id: string, f: ProjectField, v: string)
    requires !HasKey(d.projects, ProjectId, id)
    ensures UpdateProject(d, id, f, v).projects.value == d.projects
  {
    UpdateWhereAbsent(d.projects, ProjectId, id, (q: Project) => SetProject(q, f, v));
  }

  /** Removal keeps ids unique. */
  lemma RemoveProjectKeepsUnique(d: WizardData, id: string)
    requires UniqueKeys(d.projects, ProjectId)
    ensures UniqueKeys(RemoveProject(d, id).projects.value, ProjectId)
  {
    RemoveWhereKeepsUnique(d.projects, ProjectId, id);
  }

  /** Adding a project with a fresh id keeps ids unique. */
  lemma AddProjectKeepsUnique(d: WizardData, freshId: string)
    requires UniqueKeys(d.projects, ProjectId)
    requires !HasKey(d.projects, ProjectId, freshId)
    ensures UniqueKeys(AddProject(d, freshId).projects.value, ProjectId)
  {
    AppendFreshKeepsUnique(d.projects, ProjectId, NewProject(freshId));
  }
}
