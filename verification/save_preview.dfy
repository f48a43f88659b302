/** What "Save & Preview" leads to: the preview page (src/pages/Preview.tsx)
    opened on the query the Builder (src/pages/Builder.tsx) navigates to,
    over the database the save leaves behind. */
module SaveAndPreview {
  import opened Wrappers
  import opened WizardTypes
  import opened WizardState
  import opened Store
  import opened Slug
  import SearchParams
  import StepOutput
  import ResumeClassicAts
  import Builder
  import Preview

  /** The preview query reads back the document type and both ids, an
      absent id as the empty string, when no id holds `&`. */
  lemma PreviewQueryReadsBack(t: DocumentType, resumeId: Option<string>, portfolioId: Option<string>)
    requires '&' !in OrElse(resumeId, "") && '&' !in OrElse(portfolioId, "")
    ensures var q := Builder.PreviewQuery(t, resumeId, portfolioId);
      && SearchParams.Get(q, "type") == Some(DocumentTypeName(t))
      && SearchParams.Get(q, "resumeId") == Some(OrElse(resumeId, ""))
      && SearchParams.Get(q, "portfolioId") == Some(OrElse(portfolioId, ""))
  {
    var pairs := QueryPairs(t, resumeId, portfolioId);
    QueryPairsWellFormed(t, resumeId, portfolioId);
    SearchParams.GetEncoded(pairs, 0);
    SearchParams.GetEncoded(pairs, 1);
    SearchParams.GetEncoded(pairs, 2);
  }

  function QueryPairs(t: DocumentType, resumeId: Option<string>, portfolioId: Option<string>): (pairs: seq<(string, string)>)
    ensures SearchParams.Encode(pairs) == Builder.PreviewQuery(t, resumeId, portfolioId)
  {
    [("type", DocumentTypeName(t)), ("resumeId", OrElse(resumeId, "")), ("portfolioId", OrElse(portfolioId, ""))]
  }

  /** The query's names are distinct and hold neither `=` nor `&`, and its
      values hold no `&`. */
  lemma QueryPairsWellFormed(t: DocumentType, resumeId: Option<string>, portfolioId: Option<string>)
    requires '&' !in OrElse(resumeId, "") && '&' !in OrElse(portfolioId, "")
    ensures var pairs := QueryPairs(t, resumeId, portfolioId);
      && |pairs| == 3
      && (forall i :: 0 <= i < |pairs| ==> '=' !in pairs[i].0 && '&' !in pairs[i].0 && '&' !in pairs[i].1)
      && (forall i, j :: 0 <= i < j < |pairs| ==> pairs[i].0 != pairs[j].0)
  {
    var pairs := QueryPairs(t, resumeId, portfolioId);
    assert '&' !in DocumentTypeName(t);
    assert pairs[0].0[0] == 't' && pairs[1].0[0] == 'r' && pairs[2].0[0] == 'p';
  }

  /** The preview page for a query that reads back the given type and ids. */
  lemma PreviewOfQuery(t: DocumentType, resumeId: Option<string>, portfolioId: Option<string>, db: Db)
    requires '&' !in OrElse(resumeId, "") && '&' !in OrElse(portfolioId, "")
    ensures var v := Preview.PreviewPage(Builder.PreviewQuery(t, resumeId, portfolioId), db);
      var l := Preview.Load(db, Some(OrElse(resumeId, "")), Some(OrElse(portfolioId, "")));
      && v.resume == (if StepOutput.ShowResumeChooser(t) then Some(ResumeClassicAts.Render(l.data)) else None)
      && v.portfolioFrame == (if StepOutput.ShowPortfolioChooser(t) && Truthy(l.slug) then Some("/portfolio/" + l.slug.value) else None)
  {
    var q := Builder.PreviewQuery(t, resumeId, portfolioId);
    PreviewQueryReadsBack(t, resumeId, portfolioId);
    var name := DocumentTypeName(t);
    assert name != "" by {
      assert name == "resume" || name == "portfolio" || name == "both";
    }
    assert Preview.PreviewType(q) == name;
    Preview.TypeGatingMatchesOutputStep(t);
  }

  /** Requirements on a first save: both ids unknown, a signed-in user, and
      new row ids that are non-empty, free of `&` and not in use. */
  predicate FirstSave(e: Builder.Editor, user: Option<string>, db: Db, freshResumeId: string, freshPortfolioId: string)
  {
    && e.resumeId.None? && e.portfolioId.None? && user.Some?
    && freshResumeId != "" && '&' !in freshResumeId
    && freshPortfolioId != "" && '&' !in freshPortfolioId
    && (forall i :: 0 <= i < |db.resumes| ==> db.resumes[i].id != freshResumeId)
    && (forall i :: 0 <= i < |db.portfolios| ==> db.portfolios[i].id != freshPortfolioId)
  }

  /** As written, the first save of a profile navigates with empty ids, so
      the preview shows the default profile's resume and no portfolio,
      whatever was saved. */
  lemma FirstSavePreviewsDefault(e: Builder.Editor, user: Option<string>, db: Db, freshResumeId: string, freshPortfolioId: string)
    requires FirstSave(e, user, db, freshResumeId, freshPortfolioId)
    ensures var o := Builder.Save(e, user, db, freshResumeId, freshPortfolioId);
      var v := Preview.PreviewPage(o.navigateTo.value, o.db);
      && v.resume == (if StepOutput.ShowResumeChooser(e.data.documentType) then Some(ResumeClassicAts.Render(DefaultWizardData)) else None)
      && v.portfolioFrame == None
  {
    var o := Builder.Save(e, user, db, freshResumeId, freshPortfolioId);
    PreviewOfQuery(e.data.documentType, None, None, o.db);
  }

  /** With the intended query, the first save previews what it saved: the
      profile's resume and the portfolio under its new slug, each when the
      document type includes it. */
  lemma FirstSaveIntendedPreview(e: Builder.Editor, user: Option<string>, db: Db, freshResumeId: string, freshPortfolioId: string)
    requires FirstSave(e, user, db, freshResumeId, freshPortfolioId)
    ensures var o := Builder.SaveIntended(e, user, db, freshResumeId, freshPortfolioId);
      var v := Preview.PreviewPage(o.navigateTo.value, o.db);
      && v.resume == (if StepOutput.ShowResumeChooser(e.data.documentType) then Some(ResumeClassicAts.Render(e.data)) else None)
      && v.portfolioFrame == (if StepOutput.ShowPortfolioChooser(e.data.documentType)
                              then Some("/portfolio/" + MakeSlug(Builder.SaveTitle(e.data))) else None)
  {
    var o := Builder.SaveIntended(e, user, db, freshResumeId, freshPortfolioId);
    var t := e.data.documentType;
    var rid := if StepOutput.ShowResumeChooser(t) then Some(freshResumeId) else None;
    var pid := if StepOutput.ShowPortfolioChooser(t) then Some(freshPortfolioId) else None;
    assert o.editor.resumeId == rid && o.editor.portfolioId == pid;
    PreviewOfQuery(t, rid, pid, o.db);
    var l := Preview.Load(o.db, Some(OrElse(rid, "")), Some(OrElse(pid, "")));
    FirstSaveLoads(e, user, db, freshResumeId, freshPortfolioId);
  }

  /** The loads of the intended query restore the saved profile, and the
      portfolio's slug, when the type includes a portfolio. */
  lemma FirstSaveLoads(e: Builder.Editor, user: Option<string>, db: Db, freshResumeId: string, freshPortfolioId: string)
    requires FirstSave(e, user, db, freshResumeId, freshPortfolioId)
    ensures var o := Builder.Save(e, user, db, freshResumeId, freshPortfolioId);
      var t := e.data.documentType;
      var rid := if StepOutput.ShowResumeChooser(t) then freshResumeId else "";
      var pid := if StepOutput.ShowPortfolioChooser(t) then freshPortfolioId else "";
      var l := Preview.Load(o.db, Some(rid), Some(pid));
      && l.data == e.data
      && l.slug == (if StepOutput.ShowPortfolioChooser(t) then Some(MakeSlug(Builder.SaveTitle(e.data))) else None)
  {
    var o := Builder.Save(e, user, db, freshResumeId, freshPortfolioId);
    var d := e.data;
    if StepOutput.ShowResumeChooser(d.documentType) {
      FirstSaveResumeLoads(e, user, db, freshResumeId, freshPortfolioId, DefaultWizardData);
    }
    if StepOutput.ShowPortfolioChooser(d.documentType) {
      FirstSavePortfolioLoads(e, user, db, freshResumeId, freshPortfolioId, DefaultWizardData);
      FirstSavePortfolioLoads(e, user, db, freshResumeId, freshPortfolioId, d);
    }
  }

  /** The resume a first save creates is found by its new id and restores
      the profile. */
  lemma FirstSaveResumeLoads(e: Builder.Editor, user: Option<string>, db: Db, freshResumeId: string, freshPortfolioId: string, prev: WizardData)
    requires FirstSave(e, user, db, freshResumeId, freshPortfolioId)
    requires StepOutput.ShowResumeChooser(e.data.documentType)
    ensures LoadResume(prev, Builder.Save(e, user, db, freshResumeId, freshPortfolioId).db.resumes, freshResumeId) == e.data
  {
    var d := e.data;
    var rows := Builder.Save(e, user, db, freshResumeId, freshPortfolioId).db.resumes;
    assert rows == db.resumes + [ResumeRow(freshResumeId, user.value, PatchOf(d), d.resumeTemplate, Builder.SaveTitle(d) + " - Resume")];
    SingleFindsTheOnlyMatch(rows, ResumeWithId(freshResumeId), |db.resumes|);
    MergeSavedRecord(prev, d, ResumeKind);
  }

  /** The portfolio a first save creates is found by its new id, restores
      the profile and carries the slug of the title. */
  lemma FirstSavePortfolioLoads(e: Builder.Editor, user: Option<string>, db: Db, freshResumeId: string, freshPortfolioId: string, prev: WizardData)
    requires FirstSave(e, user, db, freshResumeId, freshPortfolioId)
    requires StepOutput.ShowPortfolioChooser(e.data.documentType)
    ensures var rows := Builder.Save(e, user, db, freshResumeId, freshPortfolioId).db.portfolios;
      && LoadPortfolio(prev, rows, freshPortfolioId) == e.data
      && Preview.SlugOf(rows, freshPortfolioId) == Some(MakeSlug(Builder.SaveTitle(e.data)))
  {
    var d := e.data;
    var rows := Builder.Save(e, user, db, freshResumeId, freshPortfolioId).db.portfolios;
    assert rows == db.portfolios + [PortfolioRow(freshPortfolioId, user.value, PatchOf(d), d.portfolioTemplate,
                                                 Builder.SaveTitle(d) + " - Portfolio", MakeSlug(Builder.SaveTitle(d)), true)];
    SingleFindsTheOnlyMatch(rows, PortfolioWithId(freshPortfolioId), |db.portfolios|);
    MergeSavedRecord(prev, d, PortfolioKind);
  }
}
