/** The Choose Output step (src/components/wizard/StepOutput.tsx): the
    document-type choice, the two template catalogues, which template
    chooser is shown, and the one-key partials the choices emit. */
module StepOutput {
  import opened Wrappers
  import opened WizardTypes

  /** One entry of a radio-group catalogue. */
  datatype Choice = Choice(value: string, title: string, desc: string)

  const DocTypeChoices: seq<Choice> := [
    Choice("resume", "Resume Only", "Download as PDF"),
    Choice("portfolio", "Portfolio Only", "Get a live URL"),
    Choice("both", "Resume + Portfolio", "Best of both worlds")
  ]

  const ResumeTemplates: seq<Choice> := [
    Choice("classic-ats", "Classic ATS", "Single column, ATS-optimized"),
    Choice("modern-ai", "Modern AI", "Modern layout, strong project focus"),
    Choice("fresher-ai", "Fresher AI", "Projects & certifications heavy")
  ]

  const PortfolioTemplates: seq<Choice> := [
    Choice("minimal-ai", "Minimal AI", "Clean, minimal sections"),
    Choice("modern-dev", "Modern AI Dev", "Hero + Skills + Timeline"),
    Choice("research", "AI Research", "Research-oriented layout")
  ]

  /** `showResume`: the resume template chooser is offered. */
  predicate ShowResumeChooser(t: DocumentType)
  {
    t == ResumeOnly || t == Both
  }

  /** `showPortfolio`: the portfolio template chooser is offered. */
  predicate ShowPortfolioChooser(t: DocumentType)
  {
    t == PortfolioOnly || t == Both
  }

  /** Picking a document type emits only `documentType`, so the templates
      chosen earlier are kept. */
  function PickDocumentType(t: DocumentType): (p: WizardPatch)
    ensures Keys(p) == {DocumentTypeKey}
    ensures PatchField(p, DocumentTypeKey) == Some(DocumentTypeValue(t))
  {
    EmptyPatch.(documentType := Some(t))
  }

  /** Picking a resume template emits only `resumeTemplate`. */
  function PickResumeTemplate(v: string): (p: WizardPatch)
    ensures Keys(p) == {ResumeTemplateKey}
    ensures PatchField(p, ResumeTemplateKey) == Some(TextValue(v))
  {
    EmptyPatch.(resumeTemplate := Some(v))
  }

  /** Picking a portfolio template emits only `portfolioTemplate`. */
  function PickPortfolioTemplate(v: string): (p: WizardPatch)
    ensures Keys(p) == {PortfolioTemplateKey}
    ensures PatchField(p, PortfolioTemplateKey) == Some(TextValue(v))
  {
    EmptyPatch.(portfolioTemplate := Some(v))
  }

  /** The values of a catalogue's entries are pairwise distinct. */
  predicate DistinctValues(cs: seq<Choice>)
  {
    forall i, j :: 0 <= i < j < |cs| ==> cs[i].value != cs[j].value
  }

  /** Some entry of the catalogue has value `v`. */
  predicate Offers(cs: seq<Choice>, v: string)
  {
    exists i :: 0 <= i < |cs| && cs[i].value == v
  }

  // ----- Lemmas -------------------------------------------------------------

  /** Whatever the document type, at least one template chooser is shown,
      and both are shown exactly for "both". */
  lemma ChoosersCover(t: DocumentType)
    ensures ShowResumeChooser(t) || ShowPortfolioChooser(t)
    ensures (ShowResumeChooser(t) && ShowPortfolioChooser(t)) <==> t == Both
  {
  }

  /** The document-type catalogue lists exactly the three document types, by
      their names, in order. */
  lemma DocTypeChoicesMatchTypes()
    ensures |DocTypeChoices| == 3
    ensures DocTypeChoices[0].value == DocumentTypeName(ResumeOnly)
    ensures DocTypeChoices[1].value == DocumentTypeName(PortfolioOnly)
    ensures DocTypeChoices[2].value == DocumentTypeName(Both)
  {
  }

  /** Each template catalogue has three entries with distinct values, and
      the default profile's templates are among them. */
  lemma CataloguesWellFormed()
    ensures |ResumeTemplates| == 3 && DistinctValues(ResumeTemplates)
    ensures |PortfolioTemplates| == 3 && DistinctValues(PortfolioTemplates)
    ensures DistinctValues(DocTypeChoices)
    ensures Offers(ResumeTemplates, DefaultWizardData.resumeTemplate)
    ensures Offers(PortfolioTemplates, DefaultWizardData.portfolioTemplate)
  {
    assert ResumeTemplates[0].value == DefaultWizardData.resumeTemplate;
    assert PortfolioTemplates[0].value == DefaultWizardData.portfolioTemplate;
  }
}
