/** The preview page (src/pages/Preview.tsx), reached at
    `/preview?type=…&resumeId=…&portfolioId=…`: it loads the records named
    in the query over the default profile, resume first, and shows the
    resume (with a PDF download) and/or a frame of the live portfolio,
    according to `type`. */
module Preview {
  import opened Wrappers
  import opened Text
  import opened WizardTypes
  import opened WizardState
  import opened Store
  import SearchParams
  import StepOutput
  import ResumeClassicAts

  /** `searchParams.get("type") || "resume"`. */
  function PreviewType(q: string): (t: string)
    ensures t != ""
    ensures Truthy(SearchParams.Get(q, "type")) ==> t == SearchParams.Get(q, "type").value
    ensures !Truthy(SearchParams.Get(q, "type")) ==> t == "resume"
  {
    OrElse(SearchParams.Get(q, "type"), "resume")
  }

  predicate ShowResume(t: string)
  {
    t == "resume" || t == "both"
  }

  predicate ShowPortfolio(t: string)
  {
    t == "portfolio" || t == "both"
  }

  /** The page's state once its loads have landed. */
  datatype Loaded = Loaded(data: WizardData, slug: Option<string>)

  /** The slug of the portfolio `.single()` finds by id, if any. */
  function SlugOf(rows: seq<PortfolioRow>, id: string): (r: Option<string>)
    ensures r.Some? <==> Single(rows, PortfolioWithId(id)).Some?
    ensures r.Some? ==> exists i :: 0 <= i < |rows| && rows[i].id == id && rows[i].slug == r.value
  {
    match Single(rows, PortfolioWithId(id))
    case None => None
    case Some(row) => Some(row.slug)
  }

  /** The loads: from the default profile, the resume named by a non-empty
      `resumeId` is merged, then the portfolio named by a non-empty
      `portfolioId`, whose slug is kept. */
  function Load(db: Db, resumeId: Option<string>, portfolioId: Option<string>): (l: Loaded)
    ensures !Truthy(resumeId) && !Truthy(portfolioId) ==> l == Loaded(DefaultWizardData, None)
    ensures !Truthy(portfolioId) ==> l.slug == None
    ensures Truthy(portfolioId) ==> l.slug == SlugOf(db.portfolios, portfolioId.value)
    ensures Truthy(resumeId) && !Truthy(portfolioId) ==>
              l.data == LoadResume(DefaultWizardData, db.resumes, resumeId.value)
    ensures !Truthy(resumeId) && Truthy(portfolioId) ==>
              l.data == LoadPortfolio(DefaultWizardData, db.portfolios, portfolioId.value)
    ensures Truthy(resumeId) && Truthy(portfolioId) ==>
              l.data == LoadPortfolio(LoadResume(DefaultWizardData, db.resumes, resumeId.value),
                                      db.portfolios, portfolioId.value)
  {
    var afterResume := if Truthy(resumeId) then LoadResume(DefaultWizardData, db.resumes, resumeId.value) else DefaultWizardData;
    if Truthy(portfolioId) then
      Loaded(LoadPortfolio(afterResume, db.portfolios, portfolioId.value), SlugOf(db.portfolios, portfolioId.value))
    else Loaded(afterResume, None)
  }

  /** With both records found, every top-level field of the loaded profile
      comes from the portfolio when the portfolio stores it, else from the
      resume (whose template column is its `resumeTemplate`), else from the
      defaults; `portfolioTemplate` is the portfolio's template column. So
      a `resumeTemplate` the portfolio stores wins over the resume's own
      template: the portfolio lands last. */
  lemma LoadBothFields(db: Db, resumeId: string, portfolioId: string, res: ResumeRow, port: PortfolioRow)
    requires resumeId != "" && portfolioId != ""
    requires Single(db.resumes, ResumeWithId(resumeId)) == Some(res)
    requires Single(db.portfolios, PortfolioWithId(portfolioId)) == Some(port)
    ensures forall k :: Field(Load(db, Some(resumeId), Some(portfolioId)).data, k) ==
              if k == PortfolioTemplateKey then TextValue(port.template)
              else if k in Keys(port.data) then PatchField(port.data, k).value
              else if k == ResumeTemplateKey then TextValue(res.template)
              else if k in Keys(res.data) then PatchField(res.data, k).value
              else Field(DefaultWizardData, k)
  {
    var afterResume := LoadResume(DefaultWizardData, db.resumes, resumeId);
    assert afterResume == MergeRecord(DefaultWizardData, res.data, ResumeKind, res.template);
    assert Load(db, Some(resumeId), Some(portfolioId)).data
        == MergeRecord(afterResume, port.data, PortfolioKind, port.template);
  }

  /** What the page shows: the resume with its download button, and the
      frame of `/portfolio/<slug>` with its link. */
  datatype View = View(resume: Option<ResumeClassicAts.Resume>, portfolioFrame: Option<string>)

  /** The page for query string `q` over the database. The resume is shown
      for types "resume" and "both"; the portfolio frame for "portfolio"
      and "both", and only once a portfolio with a non-empty slug has
      loaded. */
  function PreviewPage(q: string, db: Db): (v: View)
    ensures v.resume.Some? <==> ShowResume(PreviewType(q))
    ensures v.resume.Some? ==>
              v.resume.value == ResumeClassicAts.Render(Load(db, SearchParams.Get(q, "resumeId"), SearchParams.Get(q, "portfolioId")).data)
    ensures v.portfolioFrame.Some? <==>
              ShowPortfolio(PreviewType(q)) && Truthy(Load(db, SearchParams.Get(q, "resumeId"), SearchParams.Get(q, "portfolioId")).slug)
    ensures v.portfolioFrame.Some? ==>
              v.portfolioFrame.value == "/portfolio/" + Load(db, SearchParams.Get(q, "resumeId"), SearchParams.Get(q, "portfolioId")).slug.value
  {
    var t := PreviewType(q);
    var l := Load(db, SearchParams.Get(q, "resumeId"), SearchParams.Get(q, "portfolioId"));
    View(if ShowResume(t) then Some(ResumeClassicAts.Render(l.data)) else None,
         if ShowPortfolio(t) && Truthy(l.slug) then Some("/portfolio/" + l.slug.value) else None)
  }

  /** The downloaded file's name: `<full name or "resume">-ai-resume.pdf`. */
  function PdfFileName(d: WizardData): (name: string)
    ensures d.personalDetails.fullName != "" ==> name == d.personalDetails.fullName + "-ai-resume.pdf"
    ensures d.personalDetails.fullName == "" ==> name == "resume-ai-resume.pdf"
  {
    OrElse(Some(d.personalDetails.fullName), "resume") + "-ai-resume.pdf"
  }

  // ----- Lemmas -------------------------------------------------------------

  /** For the type strings the output step writes, the preview shows the
      resume exactly when the output step offered a resume template, and
      the portfolio exactly when it offered a portfolio template. */
  lemma TypeGatingMatchesOutputStep(t: DocumentType)
    ensures ShowResume(DocumentTypeName(t)) <==> StepOutput.ShowResumeChooser(t)
    ensures ShowPortfolio(DocumentTypeName(t)) <==> StepOutput.ShowPortfolioChooser(t)
  {
  }

  /** A type string that names no document type shows nothing. */
  lemma UnknownTypeShowsNothing(q: string, db: Db)
    requires Truthy(SearchParams.Get(q, "type"))
    requires ParseDocumentType(SearchParams.Get(q, "type").value).None?
    ensures PreviewPage(q, db) == View(None, None)
  {
  }

  /** Without a `type` (or with an empty one) the resume alone is shown. */
  lemma MissingTypeShowsResume(q: string, db: Db)
    requires !Truthy(SearchParams.Get(q, "type"))
    ensures PreviewPage(q, db).resume.Some? && PreviewPage(q, db).portfolioFrame.None?
  {
  }

  /** Names the file after the person, falling back to "resume". */
  lemma PdfFileNameEndsWithSuffix(d: WizardData)
    ensures |PdfFileName(d)| > |"-ai-resume.pdf"|
    ensures PdfFileName(d)[|PdfFileName(d)| - |"-ai-resume.pdf"|..] == "-ai-resume.pdf"
  {
  }
}
