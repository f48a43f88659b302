/** The career profile the wizard collects (`WizardData`), its parts, its
    all-empty default, the list of target roles, and `Partial<WizardData>`,
    the shape every wizard step emits and every stored record holds. */
module WizardTypes {
  import opened Wrappers

  /** `portfolioLink` is the only optional field. */
  datatype PersonalDetails = PersonalDetails(
    fullName: string,
    email: string,
    phone: string,
    location: string,
    linkedin: string,
    github: string,
    portfolioLink: Option<string>)

  datatype Education = Education(
    degree: string,
    college: string,
    gradYear: string,
    cgpa: string)

  /** Five free-text, comma-separated categories. */
  datatype Skills = Skills(
    languages: string,
    mlSkills: string,
    tools: string,
    frameworks: string,
    databases: string)

  datatype Project = Project(
    id: string,
    title: string,
    problem: string,
    techStack: string,
    contributions: string,
    outcome: string)

  datatype Experience = Experience(
    id: string,
    title: string,
    company: string,
    duration: string,
    description: string)

  /** `"resume" | "portfolio" | "both"`. */
  datatype DocumentType = ResumeOnly | PortfolioOnly | Both

  /** The string a document type is written as (in stored data and in the
      preview URL). */
  function DocumentTypeName(t: DocumentType): string
  {
    match t
    case ResumeOnly => "resume"
    case PortfolioOnly => "portfolio"
    case Both => "both"
  }

  /** Reads a document type back from its string; any other string is not
      a document type. */
  function ParseDocumentType(s: string): (r: Option<DocumentType>)
    ensures r.Some? ==> DocumentTypeName(r.value) == s
    ensures s in {"resume", "portfolio", "both"} <==> r.Some?
  {
    if s == "resume" then Some(ResumeOnly)
    else if s == "portfolio" then Some(PortfolioOnly)
    else if s == "both" then Some(Both)
    else None
  }

  datatype WizardData = WizardData(
    personalDetails: PersonalDetails,
    education: Education,
    targetRole: string,
    skills: Skills,
    projects: seq<Project>,
    experiences: seq<Experience>,
    certifications: string,
    documentType: DocumentType,
    resumeTemplate: string,
    portfolioTemplate: string)

  const AiRoles: seq<string> := [
    "AI Engineer",
    "ML Engineer",
    "Data Scientist",
    "GenAI Developer",
    "NLP Engineer",
    "Computer Vision Engineer",
    "MLOps Engineer",
    "AI Research Scientist",
    "Deep Learning Engineer",
    "Data Analyst (AI)"
  ]

  const DefaultPersonalDetails := PersonalDetails("", "", "", "", "", "", None)
  const DefaultEducation := Education("", "", "", "")
  const DefaultSkills := Skills("", "", "", "", "")

  const DefaultWizardData := WizardData(
    DefaultPersonalDetails, DefaultEducation, "", DefaultSkills, [], [], "",
    ResumeOnly, "classic-ats", "minimal-ai")

  // ----- Partial<WizardData> ----------------------------------------------

  /** The top-level keys of `WizardData`. */
  datatype Key =
    | PersonalDetailsKey | EducationKey | TargetRoleKey | SkillsKey
    | ProjectsKey | ExperiencesKey | CertificationsKey | DocumentTypeKey
    | ResumeTemplateKey | PortfolioTemplateKey

  const AllKeys: set<Key> := {
    PersonalDetailsKey, EducationKey, TargetRoleKey, SkillsKey, ProjectsKey,
    ExperiencesKey, CertificationsKey, DocumentTypeKey, ResumeTemplateKey,
    PortfolioTemplateKey
  }

  /** The value held under one top-level key. */
  datatype Value =
    | PersonalValue(personal: PersonalDetails)
    | EducationValue(education: Education)
    | TextValue(text: string)
    | SkillsValue(skills: Skills)
    | ProjectsValue(projects: seq<Project>)
    | ExperiencesValue(experiences: seq<Experience>)
    | DocumentTypeValue(documentType: DocumentType)

  /** `Partial<WizardData>`: each top-level key is present or absent. */
  datatype WizardPatch = WizardPatch(
    personalDetails: Option<PersonalDetails>,
    education: Option<Education>,
    targetRole: Option<string>,
    skills: Option<Skills>,
    projects: Option<seq<Project>>,
    experiences: Option<seq<Experience>>,
    certifications: Option<string>,
    documentType: Option<DocumentType>,
    resumeTemplate: Option<string>,
    portfolioTemplate: Option<string>)

  const EmptyPatch := WizardPatch(None, None, None, None, None, None, None, None, None, None)

  /** The value of top-level key `k` in `d`. */
  function Field(d: WizardData, k: Key): Value
  {
    match k
    case PersonalDetailsKey => PersonalValue(d.personalDetails)
    case EducationKey => EducationValue(d.education)
    case TargetRoleKey => TextValue(d.targetRole)
    case SkillsKey => SkillsValue(d.skills)
    case ProjectsKey => ProjectsValue(d.projects)
    case ExperiencesKey => ExperiencesValue(d.experiences)
    case CertificationsKey => TextValue(d.certifications)
    case DocumentTypeKey => DocumentTypeValue(d.documentType)
    case ResumeTemplateKey => TextValue(d.resumeTemplate)
    case PortfolioTemplateKey => TextValue(d.portfolioTemplate)
  }

  /** The value of top-level key `k` in `p`, if `p` holds that key. */
  function PatchField(p: WizardPatch, k: Key): Option<Value>
  {
    match k
    case PersonalDetailsKey => if p.personalDetails.Some? then Some(PersonalValue(p.personalDetails.value)) else None
    case EducationKey => if p.education.Some? then Some(EducationValue(p.education.value)) else None
    case TargetRoleKey => if p.targetRole.Some? then Some(TextValue(p.targetRole.value)) else None
    case SkillsKey => if p.skills.Some? then Some(SkillsValue(p.skills.value)) else None
    case ProjectsKey => if p.projects.Some? then Some(ProjectsValue(p.projects.value)) else None
    case ExperiencesKey => if p.experiences.Some? then Some(ExperiencesValue(p.experiences.value)) else None
    case CertificationsKey => if p.certifications.Some? then Some(TextValue(p.certifications.value)) else None
    case DocumentTypeKey => if p.documentType.Some? then Some(DocumentTypeValue(p.documentType.value)) else None
    case ResumeTemplateKey => if p.resumeTemplate.Some? then Some(TextValue(p.resumeTemplate.value)) else None
    case PortfolioTemplateKey => if p.portfolioTemplate.Some? then Some(TextValue(p.portfolioTemplate.value)) else None
  }

  /** The keys a partial object holds (`Object.keys(p)`). */
  function Keys(p: WizardPatch): (ks: set<Key>)
    ensures forall k :: k in ks <==> PatchField(p, k).Some?
  {
    set k | k in AllKeys && PatchField(p, k).Some?
  }

  /** The partial object holding every key of `d` (what a save stores). */
  function PatchOf(d: WizardData): (p: WizardPatch)
    ensures Keys(p) == AllKeys
    ensures forall k :: PatchField(p, k) == Some(Field(d, k))
  {
    WizardPatch(
      Some(d.personalDetails), Some(d.education), Some(d.targetRole), Some(d.skills),
      Some(d.projects), Some(d.experiences), Some(d.certifications),
      Some(d.documentType), Some(d.resumeTemplate), Some(d.portfolioTemplate))
  }

  /** The two kinds of stored record; each carries its own template column. */
  datatype RecordKind = ResumeKind | PortfolioKind

  /** The profile key a record kind's template column is written back to. */
  function TemplateKey(kind: RecordKind): Key
  {
    match kind
    case ResumeKind => ResumeTemplateKey
    case PortfolioKind => PortfolioTemplateKey
  }

  // ----- Lemmas -------------------------------------------------------------

  /** Two profiles are equal exactly when they agree on every top-level key. */
  lemma FieldExtensionality(a: WizardData, b: WizardData)
    ensures (forall k :: Field(a, k) == Field(b, k)) <==> a == b
  {
    if forall k :: Field(a, k) == Field(b, k) {
      assert Field(a, PersonalDetailsKey) == Field(b, PersonalDetailsKey);
      assert Field(a, EducationKey) == Field(b, EducationKey);
      assert Field(a, TargetRoleKey) == Field(b, TargetRoleKey);
      assert Field(a, SkillsKey) == Field(b, SkillsKey);
      assert Field(a, ProjectsKey) == Field(b, ProjectsKey);
      assert Field(a, ExperiencesKey) == Field(b, ExperiencesKey);
      assert Field(a, CertificationsKey) == Field(b, CertificationsKey);
      assert Field(a, DocumentTypeKey) == Field(b, DocumentTypeKey);
      assert Field(a, ResumeTemplateKey) == Field(b, ResumeTemplateKey);
      assert Field(a, PortfolioTemplateKey) == Field(b, PortfolioTemplateKey);
    }
  }

  /** Every free-text field of the default profile is empty, both lists are
      empty, and the optional portfolio link is absent. */
  lemma DefaultIsEmpty()
    ensures var d := DefaultWizardData;
      && d.personalDetails.fullName == "" && d.personalDetails.email == ""
      && d.personalDetails.phone == "" && d.personalDetails.location == ""
      && d.personalDetails.linkedin == "" && d.personalDetails.github == ""
      && d.personalDetails.portfolioLink == None
      && d.education.degree == "" && d.education.college == ""
      && d.education.gradYear == "" && d.education.cgpa == ""
      && d.targetRole == "" && d.certifications == ""
      && d.skills.languages == "" && d.skills.mlSkills == "" && d.skills.tools == ""
      && d.skills.frameworks == "" && d.skills.databases == ""
      && d.projects == [] && d.experiences == []
  {
  }

  /** The default output choices. */
  lemma DefaultOutputChoices()
    ensures DocumentTypeName(DefaultWizardData.documentType) == "resume"
    ensures DefaultWizardData.resumeTemplate == "classic-ats"
    ensures DefaultWizardData.portfolioTemplate == "minimal-ai"
  {
  }

  /** A document type is exactly one of the three strings, and reading a
      document type back from its string gives it back. */
  lemma DocumentTypeRoundTrip(t: DocumentType)
    ensures ParseDocumentType(DocumentTypeName(t)) == Some(t)
    ensures DocumentTypeName(t) in {"resume", "portfolio", "both"}
  {
  }

  /** Three document types, with three distinct names. */
  lemma DocumentTypeNamesDistinct(a: DocumentType, b: DocumentType)
    ensures DocumentTypeName(a) == DocumentTypeName(b) <==> a == b
  {
  }

  /** Ten target roles, no two alike. */
  lemma AiRolesDistinct()
    ensures |AiRoles| == 10
    ensures forall i, j :: 0 <= i < j < |AiRoles| ==> AiRoles[i] != AiRoles[j]
  {
  }
}
