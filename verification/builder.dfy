/** The wizard page (src/pages/Builder.tsx): eight steps with Previous and
    Next buttons, the load of existing records named in the URL, and "Save &
    Preview", which writes a resume and/or a portfolio record for the
    signed-in user and navigates to the preview. The database calls are
    modelled as writes on `Store.Db`; each insert is given its new row id by
    the caller (the database generates it). */
module Builder {
  import opened Wrappers
  import opened WizardTypes
  import opened WizardState
  import opened Slug
  import opened Store
  import SearchParams
  import StepOutput
  import StepPersonal
  import StepEducation
  import StepRole
  import StepSkills
  import StepProjects
  import StepExperience
  import StepCertifications

  // ----- Steps and navigation -----------------------------------------------

  const Steps: seq<string> := [
    "Personal Details",
    "Education",
    "Target Role",
    "Skills",
    "Projects",
    "Experience",
    "Certifications",
    "Choose Output"
  ]

  const LastStep := |Steps| - 1

  predicate ValidStep(step: int)
  {
    0 <= step < |Steps|
  }

  datatype Nav = Previous | Next

  /** Previous is disabled on the first step. */
  predicate PreviousEnabled(step: int)
  {
    step != 0
  }

  /** Next is offered before the last step; the last step offers Save &
      Preview in its place. */
  predicate OffersNext(step: int)
  {
    step < LastStep
  }

  /** The step after a click. A disabled or absent button does nothing. */
  function Click(step: int, nav: Nav): (r: int)
    ensures ValidStep(step) ==> ValidStep(r)
    ensures nav == Previous && PreviousEnabled(step) ==> r == step - 1
    ensures nav == Next && OffersNext(step) ==> r == step + 1
    ensures (nav == Previous && !PreviousEnabled(step)) || (nav == Next && !OffersNext(step)) ==> r == step
  {
    match nav
    case Previous => if PreviousEnabled(step) then step - 1 else step
    case Next => if OffersNext(step) then step + 1 else step
  }

  /** The step after a run of clicks. */
  function Run(step: int, navs: seq<Nav>): int
    decreases |navs|
  {
    if |navs| == 0 then step else Run(Click(step, navs[0]), navs[1..])
  }

  function Repeat(nav: Nav, k: nat): (r: seq<Nav>)
    ensures |r| == k && forall i :: 0 <= i < k ==> r[i] == nav
  {
    if k == 0 then [] else [nav] + Repeat(nav, k - 1)
  }

  /** `((step + 1) / STEPS.length) * 100`. */
  function Progress(step: int): (r: real)
    ensures ValidStep(step) ==> 12.5 <= r <= 100.0
    ensures ValidStep(step) ==> (r == 100.0 <==> step == LastStep)
  {
    (step + 1) as real / |Steps| as real * 100.0
  }

  /** The profile keys each step's editor writes. */
  function StepKeys(step: int): (ks: set<Key>)
    requires ValidStep(step)
  {
    if step == 0 then {PersonalDetailsKey}
    else if step == 1 then {EducationKey}
    else if step == 2 then {TargetRoleKey}
    else if step == 3 then {SkillsKey}
    else if step == 4 then {ProjectsKey}
    else if step == 5 then {ExperiencesKey}
    else if step == 6 then {CertificationsKey}
    else {DocumentTypeKey, ResumeTemplateKey, PortfolioTemplateKey}
  }

  /** The step whose editor writes key `k`. */
  function StepOf(k: Key): int
  {
    match k
    case PersonalDetailsKey => 0
    case EducationKey => 1
    case TargetRoleKey => 2
    case SkillsKey => 3
    case ProjectsKey => 4
    case ExperiencesKey => 5
    case CertificationsKey => 6
    case _ => 7
  }

  // ----- Loading existing records ------------------------------------------

  /** The editor's state besides the current step. */
  datatype Editor = Editor(data: WizardData, resumeId: Option<string>, portfolioId: Option<string>)

  const InitialEditor := Editor(DefaultWizardData, None, None)

  /** Opening the Builder with `?resume=…&portfolio=…`: each non-empty id is
      remembered whether or not its record is found, and each record found
      is merged over the state. The two lookups run concurrently, so which
      merge lands last is a parameter. */
  function Open(e: Editor, db: Db, resumeParam: Option<string>, portfolioParam: Option<string>, resumeLandsFirst: bool): (r: Editor)
    ensures r.resumeId == (if Truthy(resumeParam) then resumeParam else e.resumeId)
    ensures r.portfolioId == (if Truthy(portfolioParam) then portfolioParam else e.portfolioId)
    ensures !Truthy(resumeParam) && !Truthy(portfolioParam) ==> r.data == e.data
    ensures Truthy(resumeParam) && !Truthy(portfolioParam) ==>
              r.data == LoadResume(e.data, db.resumes, resumeParam.value)
    ensures !Truthy(resumeParam) && Truthy(portfolioParam) ==>
              r.data == LoadPortfolio(e.data, db.portfolios, portfolioParam.value)
    ensures Truthy(resumeParam) && Truthy(portfolioParam) && resumeLandsFirst ==>
              r.data == LoadPortfolio(LoadResume(e.data, db.resumes, resumeParam.value),
                                      db.portfolios, portfolioParam.value)
    ensures Truthy(resumeParam) && Truthy(portfolioParam) && !resumeLandsFirst ==>
              r.data == LoadResume(LoadPortfolio(e.data, db.portfolios, portfolioParam.value),
                                   db.resumes, resumeParam.value)
  {
    var withResume := (d: WizardData) => if Truthy(resumeParam) then LoadResume(d, db.resumes, resumeParam.value) else d;
    var withPortfolio := (d: WizardData) => if Truthy(portfolioParam) then LoadPortfolio(d, db.portfolios, portfolioParam.value) else d;
    var data := if resumeLandsFirst then withPortfolio(withResume(e.data)) else withResume(withPortfolio(e.data));
    Editor(data,
           if Truthy(resumeParam) then resumeParam else e.resumeId,
           if Truthy(portfolioParam) then portfolioParam else e.portfolioId)
  }

  // ----- Saving -------------------------------------------------------------

  /** `fullName || "Untitled"`. */
  function SaveTitle(d: WizardData): (t: string)
    ensures t != ""
    ensures d.personalDetails.fullName != "" ==> t == d.personalDetails.fullName
    ensures d.personalDetails.fullName == "" ==> t == "Untitled"
  {
    OrElse(Some(d.personalDetails.fullName), "Untitled")
  }

  /** Where a record is written: a new row for the user, or the existing
      row with that id. */
  datatype Target = InsertFor(userId: string) | UpdateId(id: string)

  /** `existingId ? update(...).eq("id", existingId) : insert({user_id, ...})`. */
  function TargetFor(userId: string, existing: Option<string>): (t: Target)
    ensures t.UpdateId? <==> Truthy(existing)
    ensures t.UpdateId? ==> t.id == existing.value
    ensures t.InsertFor? ==> t.userId == userId
  {
    if Truthy(existing) then UpdateId(existing.value) else InsertFor(userId)
  }

  /** One record write of a save. */
  datatype Write =
    | ResumeWrite(target: Target, data: WizardData, template: string, title: string)
    | PortfolioWrite(target: Target, data: WizardData, template: string, title: string, slug: string)

  /** The resume write of a save. */
  function ResumeWriteOf(userId: string, e: Editor): Write
  {
    ResumeWrite(TargetFor(userId, e.resumeId), e.data, e.data.resumeTemplate, SaveTitle(e.data) + " - Resume")
  }

  /** The portfolio write of a save. */
  function PortfolioWriteOf(userId: string, e: Editor): Write
  {
    PortfolioWrite(TargetFor(userId, e.portfolioId), e.data, e.data.portfolioTemplate,
                   SaveTitle(e.data) + " - Portfolio", MakeSlug(SaveTitle(e.data)))
  }

  /** The writes of "Save & Preview": none when signed out; otherwise the
      resume write when the document type includes a resume, then the
      portfolio write when it includes a portfolio. */
  function SavePlan(user: Option<string>, e: Editor): (ws: seq<Write>)
    ensures user.None? ==> ws == []
    ensures user.Some? && e.data.documentType == ResumeOnly ==> ws == [ResumeWriteOf(user.value, e)]
    ensures user.Some? && e.data.documentType == PortfolioOnly ==> ws == [PortfolioWriteOf(user.value, e)]
    ensures user.Some? && e.data.documentType == Both ==> ws == [ResumeWriteOf(user.value, e), PortfolioWriteOf(user.value, e)]
  {
    if user.None? then []
    else
      var t := e.data.documentType;
      (if t == ResumeOnly || t == Both then [ResumeWriteOf(user.value, e)] else [])
      + (if t == PortfolioOnly || t == Both then [PortfolioWriteOf(user.value, e)] else [])
  }

  /** The database after one write. An insert stores the whole profile in a
      new row with id `freshId`; a new portfolio is published. An update
      rewrites the row with the remembered id and nothing else. */
  function Apply(db: Db, w: Write, freshId: string): (r: Db)
    ensures w.ResumeWrite? ==> r.portfolios == db.portfolios
    ensures w.PortfolioWrite? ==> r.resumes == db.resumes
    ensures w.ResumeWrite? && w.target.InsertFor? ==>
              r.resumes == db.resumes + [ResumeRow(freshId, w.target.userId, PatchOf(w.data), w.template, w.title)]
    ensures w.PortfolioWrite? && w.target.InsertFor? ==>
              r.portfolios == db.portfolios + [PortfolioRow(freshId, w.target.userId, PatchOf(w.data), w.template, w.title, w.slug, true)]
    ensures w.ResumeWrite? && w.target.UpdateId? ==>
              r.resumes == UpdateResume(db.resumes, w.target.id, PatchOf(w.data), w.template, w.title)
    ensures w.PortfolioWrite? && w.target.UpdateId? ==>
              r.portfolios == UpdatePortfolio(db.portfolios, w.target.id, PatchOf(w.data), w.template, w.title, w.slug)
  {
    match w
    case ResumeWrite(target, data, template, title) =>
      (match target
       case InsertFor(userId) =>
         db.(resumes := db.resumes + [ResumeRow(freshId, userId, PatchOf(data), template, title)])
       case UpdateId(id) =>
         db.(resumes := UpdateResume(db.resumes, id, PatchOf(data), template, title)))
    case PortfolioWrite(target, data, template, title, slug) =>
      match target
      case InsertFor(userId) =>
        db.(portfolios := db.portfolios + [PortfolioRow(freshId, userId, PatchOf(data), template, title, slug, true)])
      case UpdateId(id) =>
        db.(portfolios := UpdatePortfolio(db.portfolios, id, PatchOf(data), template, title, slug))
  }

  /** The preview query the save navigates to. It is built from the ids as
      they were when the save started: an id learnt from an insert during
      this save is not in it. */
  function PreviewQuery(t: DocumentType, resumeId: Option<string>, portfolioId: Option<string>): string
  {
    SearchParams.Encode([
      ("type", DocumentTypeName(t)),
      ("resumeId", OrElse(resumeId, "")),
      ("portfolioId", OrElse(portfolioId, ""))])
  }

  datatype SaveOutcome = SaveOutcome(db: Db, editor: Editor, navigateTo: Option<string>)

  /** "Save & Preview" as a whole: the writes of `SavePlan` applied in
      order, inserted ids remembered for the next save, and navigation to
      the preview query. Signed out, nothing happens. */
  function Save(e: Editor, user: Option<string>, db: Db, freshResumeId: string, freshPortfolioId: string): (o: SaveOutcome)
    ensures user.None? ==> o == SaveOutcome(db, e, None)
    ensures user.Some? ==> o.navigateTo == Some(PreviewQuery(e.data.documentType, e.resumeId, e.portfolioId))
    ensures o.editor.data == e.data
    ensures o.editor.resumeId ==
              if user.Some? && StepOutput.ShowResumeChooser(e.data.documentType) && !Truthy(e.resumeId)
              then Some(freshResumeId) else e.resumeId
    ensures o.editor.portfolioId ==
              if user.Some? && StepOutput.ShowPortfolioChooser(e.data.documentType) && !Truthy(e.portfolioId)
              then Some(freshPortfolioId) else e.portfolioId
  {
    if user.None? then SaveOutcome(db, e, None)
    else
      var t := e.data.documentType;
      var writesResume := t == ResumeOnly || t == Both;
      var writesPortfolio := t == PortfolioOnly || t == Both;
      var db1 := if writesResume then Apply(db, ResumeWriteOf(user.value, e), freshResumeId) else db;
      var db2 := if writesPortfolio then Apply(db1, PortfolioWriteOf(user.value, e), freshPortfolioId) else db1;
      var resumeId := if writesResume && !Truthy(e.resumeId) then Some(freshResumeId) else e.resumeId;
      var portfolioId := if writesPortfolio && !Truthy(e.portfolioId) then Some(freshPortfolioId) else e.portfolioId;
      SaveOutcome(db2, Editor(e.data, resumeId, portfolioId),
                  Some(PreviewQuery(t, e.resumeId, e.portfolioId)))
  }

  /** Save & Preview as evidently intended: the same writes, but the
      preview query carries the ids the records have after the save, so a
      first save previews the records it has just created. */
  function SaveIntended(e: Editor, user: Option<string>, db: Db, freshResumeId: string, freshPortfolioId: string): (o: SaveOutcome)
    ensures var written := Save(e, user, db, freshResumeId, freshPortfolioId);
      o.db == written.db && o.editor == written.editor
    ensures user.None? ==> o.navigateTo == None
    ensures user.Some? ==> o.navigateTo == Some(PreviewQuery(e.data.documentType, o.editor.resumeId, o.editor.portfolioId))
  {
    var written := Save(e, user, db, freshResumeId, freshPortfolioId);
    if user.None? then written
    else written.(navigateTo := Some(PreviewQuery(e.data.documentType, written.editor.resumeId, written.editor.portfolioId)))
  }

  /** The database after a save applies the plan's writes in order. */
  function ApplyAll(db: Db, ws: seq<Write>, freshResumeId: string, freshPortfolioId: string): Db
    decreases |ws|
  {
    if |ws| == 0 then db
    else
      var newId := if ws[0].ResumeWrite? then freshResumeId else freshPortfolioId;
      ApplyAll(Apply(db, ws[0], newId), ws[1..], freshResumeId, freshPortfolioId)
  }

  // ----- Lemmas -------------------------------------------------------------

  /** Eight steps; a run of clicks from a valid step stays within them. */
  lemma {:induction false} RunStaysValid(step: int, navs: seq<Nav>)
    requires ValidStep(step)
    ensures ValidStep(Run(step, navs))
    decreases |navs|
  {
    if |navs| > 0 {
      RunStaysValid(Click(step, navs[0]), navs[1..]);
    }
  }

  /** `k` clicks on Next from step `s` reach step `s + k`, stopping at the
      last step. */
  lemma {:induction false} NextRun(step: int, k: nat)
    requires ValidStep(step)
    ensures Run(step, Repeat(Next, k)) == if step + k <= LastStep then step + k else LastStep
    decreases k
  {
    if k > 0 {
      assert Repeat(Next, k)[1..] == Repeat(Next, k - 1);
      NextRun(Click(step, Next), k - 1);
    }
  }

  /** `k` clicks on Previous go back `k` steps, stopping at the first. */
  lemma {:induction false} PreviousRun(step: int, k: nat)
    requires ValidStep(step)
    ensures Run(step, Repeat(Previous, k)) == if step - k >= 0 then step - k else 0
    decreases k
  {
    if k > 0 {
      assert Repeat(Previous, k)[1..] == Repeat(Previous, k - 1);
      PreviousRun(Click(step, Previous), k - 1);
    }
  }

  /** Save & Preview is reached from the first step by seven Nexts, and
      not before. */
  lemma SaveReachable(k: nat)
    ensures OffersNext(Run(0, Repeat(Next, k))) <==> k < LastStep
  {
    NextRun(0, k);
  }

  /** Every profile key is written by exactly one step, `StepOf(k)`. */
  lemma StepKeysPartition(k: Key, step: int)
    requires ValidStep(step)
    ensures ValidStep(StepOf(k)) && k in StepKeys(StepOf(k))
    ensures k in StepKeys(step) <==> step == StepOf(k)
  {
  }

  /** Each step's editor writes only its own keys, so edits made on
      different steps commute. */
  lemma StepEditsStayInStep(d: WizardData, v: string, t: DocumentType, id: string)
    ensures forall f :: Keys(StepPersonal.Update(d, f, v)) <= StepKeys(0)
    ensures forall f :: Keys(StepEducation.Update(d, f, v)) <= StepKeys(1)
    ensures Keys(StepRole.PickRole(v)) <= StepKeys(2)
    ensures forall f :: Keys(StepSkills.Update(d, f, v)) <= StepKeys(3)
    ensures Keys(StepProjects.AddProject(d, id)) <= StepKeys(4)
    ensures forall f :: Keys(StepProjects.UpdateProject(d, id, f, v)) <= StepKeys(4)
    ensures Keys(StepProjects.RemoveProject(d, id)) <= StepKeys(4)
    ensures Keys(StepExperience.AddExperience(d, id)) <= StepKeys(5)
    ensures forall f :: Keys(StepExperience.UpdateExperience(d, id, f, v)) <= StepKeys(5)
    ensures Keys(StepExperience.RemoveExperience(d, id)) <= StepKeys(5)
    ensures Keys(StepCertifications.EditCertifications(v)) <= StepKeys(6)
    ensures Keys(StepOutput.PickDocumentType(t)) <= StepKeys(7)
    ensures Keys(StepOutput.PickResumeTemplate(v)) <= StepKeys(7)
    ensures Keys(StepOutput.PickPortfolioTemplate(v)) <= StepKeys(7)
  {
  }

  /** A profile saved as a new resume loads back whole: the new row is the
      one `.single()` finds, and merging it restores the profile. */
  lemma SavedResumeLoadsBack(prev: WizardData, e: Editor, userId: string, db: Db, freshId: string)
    requires e.data.documentType != PortfolioOnly
    requires !Truthy(e.resumeId)
    requires forall i :: 0 <= i < |db.resumes| ==> db.resumes[i].id != freshId
    ensures var after := Save(e, Some(userId), db, freshId, "").db;
      LoadResume(prev, after.resumes, freshId) == e.data
  {
    var after := Save(e, Some(userId), db, freshId, "").db;
    var rows := db.resumes + [ResumeRow(freshId, userId, PatchOf(e.data), e.data.resumeTemplate, SaveTitle(e.data) + " - Resume")];
    assert after.resumes == rows;
    SingleFindsTheOnlyMatch(rows, ResumeWithId(freshId), |db.resumes|);
    MergeSavedRecord(prev, e.data, ResumeKind);
  }

  /** Re-saving over an existing resume whose id is unique leaves that
      row holding the new profile; loading it restores the profile. */
  lemma ResavedResumeLoadsBack(prev: WizardData, e: Editor, userId: string, db: Db, k: nat)
    requires e.data.documentType != PortfolioOnly
    requires Truthy(e.resumeId) && k < |db.resumes| && db.resumes[k].id == e.resumeId.value
    requires forall i :: 0 <= i < |db.resumes| && i != k ==> db.resumes[i].id != e.resumeId.value
    ensures var after := Save(e, Some(userId), db, "", "").db;
      LoadResume(prev, after.resumes, e.resumeId.value) == e.data
  {
    var id := e.resumeId.value;
    var after := Save(e, Some(userId), db, "", "").db;
    assert after.resumes == UpdateResume(db.resumes, id, PatchOf(e.data), e.data.resumeTemplate, SaveTitle(e.data) + " - Resume");
    SingleFindsTheOnlyMatch(after.resumes, ResumeWithId(id), k);
    MergeSavedRecord(prev, e.data, ResumeKind);
  }

  /** When both records were saved from the same profile, opening the
      Builder on them restores that profile whichever lookup lands last. */
  lemma OpenOrderIrrelevantForSavedPair(e: Editor, db: Db, d: WizardData, i: nat, j: nat, resumeFirst: bool)
    requires i < |db.resumes| && j < |db.portfolios|
    requires db.resumes[i].data == PatchOf(d) && db.resumes[i].template == d.resumeTemplate
    requires db.portfolios[j].data == PatchOf(d) && db.portfolios[j].template == d.portfolioTemplate
    requires db.resumes[i].id != "" && db.portfolios[j].id != ""
    requires forall k :: 0 <= k < |db.resumes| && k != i ==> db.resumes[k].id != db.resumes[i].id
    requires forall k :: 0 <= k < |db.portfolios| && k != j ==> db.portfolios[k].id != db.portfolios[j].id
    ensures Open(e, db, Some(db.resumes[i].id), Some(db.portfolios[j].id), resumeFirst).data == d
  {
    SingleFindsTheOnlyMatch(db.resumes, ResumeWithId(db.resumes[i].id), i);
    SingleFindsTheOnlyMatch(db.portfolios, PortfolioWithId(db.portfolios[j].id), j);
    forall prev: WizardData
      ensures LoadResume(prev, db.resumes, db.resumes[i].id) == d
      ensures LoadPortfolio(prev, db.portfolios, db.portfolios[j].id) == d
    {
      MergeSavedRecord(prev, d, ResumeKind);
      MergeSavedRecord(prev, d, PortfolioKind);
    }
  }

  /** The plan writes a resume exactly when the output step offers a
      resume template. */
  lemma SavePlanWritesResumeIff(user: Option<string>, e: Editor)
    ensures var ws := SavePlan(user, e);
      (exists i :: 0 <= i < |ws| && ws[i].ResumeWrite?) <==>
        user.Some? && StepOutput.ShowResumeChooser(e.data.documentType)
  {
    var ws := SavePlan(user, e);
    if user.Some? && StepOutput.ShowResumeChooser(e.data.documentType) {
      assert ws[0].ResumeWrite?;
    }
  }

  /** The plan writes a portfolio exactly when the output step offers a
      portfolio template. */
  lemma SavePlanWritesPortfolioIff(user: Option<string>, e: Editor)
    ensures var ws := SavePlan(user, e);
      (exists i :: 0 <= i < |ws| && ws[i].PortfolioWrite?) <==>
        user.Some? && StepOutput.ShowPortfolioChooser(e.data.documentType)
  {
    var ws := SavePlan(user, e);
    if user.Some? && e.data.documentType == PortfolioOnly {
      assert ws[0].PortfolioWrite?;
    } else if user.Some? && e.data.documentType == Both {
      assert ws[1].PortfolioWrite?;
    }
  }

  /** The resume is written before the portfolio. */
  lemma SavePlanResumeFirst(user: Option<string>, e: Editor)
    ensures var ws := SavePlan(user, e);
      forall i, j :: 0 <= i < |ws| && 0 <= j < |ws| && ws[i].ResumeWrite? && ws[j].PortfolioWrite? ==> i < j
  {
  }

  /** `Save` writes the database as the plan's writes, applied in order. */
  lemma SaveAppliesPlan(e: Editor, user: Option<string>, db: Db, freshResumeId: string, freshPortfolioId: string)
    ensures Save(e, user, db, freshResumeId, freshPortfolioId).db
              == ApplyAll(db, SavePlan(user, e), freshResumeId, freshPortfolioId)
  {
    if user.Some? {
      var r := ResumeWriteOf(user.value, e);
      var p := PortfolioWriteOf(user.value, e);
      match e.data.documentType
      case ResumeOnly =>
        ApplyAllOne(db, r, freshResumeId, freshPortfolioId);
      case PortfolioOnly =>
        ApplyAllOne(db, p, freshResumeId, freshPortfolioId);
      case Both =>
        ApplyAllOne(Apply(db, r, freshResumeId), p, freshResumeId, freshPortfolioId);
        assert [r, p][1..] == [p];
    }
  }

  lemma ApplyAllOne(db: Db, w: Write, freshResumeId: string, freshPortfolioId: string)
    ensures ApplyAll(db, [w], freshResumeId, freshPortfolioId)
              == Apply(db, w, if w.ResumeWrite? then freshResumeId else freshPortfolioId)
  {
    assert [w][1..] == [];
  }

  /** A save from a profile without a name titles both records
      "Untitled". */
  lemma UntitledSave(userId: string, e: Editor)
    requires e.data.personalDetails.fullName == ""
    ensures ResumeWriteOf(userId, e).title == "Untitled - Resume"
    ensures PortfolioWriteOf(userId, e).title == "Untitled - Portfolio"
  {
    WriteTitles(userId, e);
    UntitledTitles(SaveTitle(e.data));
  }

  lemma UntitledTitles(t: string)
    requires t == "Untitled"
    ensures t + " - Resume" == "Untitled - Resume"
    ensures t + " - Portfolio" == "Untitled - Portfolio"
  {
  }

  /** Both records are titled after the profile. */
  lemma WriteTitles(userId: string, e: Editor)
    ensures ResumeWriteOf(userId, e).title == SaveTitle(e.data) + " - Resume"
    ensures PortfolioWriteOf(userId, e).title == SaveTitle(e.data) + " - Portfolio"
  {
  }

}
