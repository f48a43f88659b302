/** The classic ATS resume template
    (src/components/templates/ResumeClassicATS.tsx): a header that is always
    there, then Education, Technical Skills, Projects, Experience and
    Certifications & Achievements, each present only when it has something
    to show. */
module ResumeClassicAts {
  import opened Wrappers
  import opened Text
  import opened WizardTypes
  import opened Document

  /** The header's contact line order: email, phone, location, LinkedIn,
      GitHub. */
  const ResumeContactOrder: seq<ContactKind> :=
    [EmailContact, PhoneContact, LocationContact, LinkedinContact, GithubContact]

  function ResumeContactRank(k: ContactKind): int
  {
    match k
    case EmailContact => 0
    case PhoneContact => 1
    case LocationContact => 2
    case LinkedinContact => 3
    case GithubContact => 4
  }

  /** The name shown when the profile has none. */
  const PlaceholderName := "Your Name"

  datatype Header = Header(name: string, role: Option<string>, contacts: seq<Contact>)

  /** One experience entry: `title — company`, the duration, and the
      description's non-empty lines when the description is non-empty. */
  datatype ExperienceEntry = ExperienceEntry(heading: string, duration: string, bullets: Option<seq<string>>)

  /** The rendered resume; an absent section is `None`. */
  datatype Resume = Resume(
    header: Header,
    education: Option<EducationEntry>,
    skills: Option<seq<string>>,
    projects: Option<seq<ProjectEntry>>,
    experience: Option<seq<ExperienceEntry>>,
    certifications: Option<seq<string>>)

  /** `fullName || "Your Name"`: the header never shows an empty name. */
  function DisplayName(fullName: string): (r: string)
    ensures r != ""
    ensures fullName != "" ==> r == fullName
    ensures fullName == "" ==> r == PlaceholderName
  {
    OrElse(Some(fullName), PlaceholderName)
  }

  /** One Technical Skills line: the category heading, `: `, the value. */
  function SkillItem(c: Category, v: string): string
  {
    CategoryLabel(c) + ": " + v
  }

  /** Reads a skills line back: the first category whose heading and `: `
      start the line, and the rest of the line. */
  function ParseSkillItem(item: string): (r: Option<(Category, string)>)
    ensures r.Some? ==> SkillItem(r.value.0, r.value.1) == item
  {
    ParseSkillItemFrom(CategoryOrder, item)
  }

  function ParseSkillItemFrom(cs: seq<Category>, item: string): (r: Option<(Category, string)>)
    ensures r.Some? ==> SkillItem(r.value.0, r.value.1) == item
  {
    if |cs| == 0 then None
    else
      var prefix := CategoryLabel(cs[0]) + ": ";
      if |prefix| <= |item| && item[..|prefix|] == prefix then
        assert item == prefix + item[|prefix|..];
        Some((cs[0], item[|prefix|..]))
      else ParseSkillItemFrom(cs[1..], item)
  }

  /** The Technical Skills lines: one per non-empty category, in display
      order (what the lines say is `SkillItemsContent`). */
  function SkillItems(s: Skills): (r: seq<string>)
    ensures |r| == |PresentCategories(s)| <= 5
    ensures forall i :: 0 <= i < |r| ==>
              r[i] == SkillItem(PresentCategories(s)[i], CategoryValue(s, PresentCategories(s)[i]))
  {
    ItemsOf(s, PresentCategories(s))
  }

  function ItemsOf(s: Skills, cs: seq<Category>): (r: seq<string>)
    ensures |r| == |cs| && forall i :: 0 <= i < |cs| ==> r[i] == SkillItem(cs[i], CategoryValue(s, cs[i]))
  {
    seq(|cs|, i requires 0 <= i < |cs| => SkillItem(cs[i], CategoryValue(s, cs[i])))
  }

  /** An experience entry. */
  function ExperienceItem(e: Experience): (r: ExperienceEntry)
    ensures r.heading == e.title + " \U{2014} " + e.company
    ensures r.duration == e.duration
    ensures r.bullets.Some? <==> e.description != ""
    ensures r.bullets.Some? ==> r.bullets.value == SplitLines(e.description)
  {
    ExperienceEntry(e.title + " \U{2014} " + e.company, e.duration,
                    if e.description == "" then None else Some(SplitLines(e.description)))
  }

  /** `experiences.length > 0 && <section>`: one entry per experience, in
      order. */
  function ExperienceSection(es: seq<Experience>): (r: Option<seq<ExperienceEntry>>)
    ensures r.Some? <==> |es| > 0
    ensures r.Some? ==> |r.value| == |es| && forall i :: 0 <= i < |es| ==> r.value[i] == ExperienceItem(es[i])
  {
    if |es| == 0 then None
    else Some(seq(|es|, i requires 0 <= i < |es| => ExperienceItem(es[i])))
  }

  /** The header: the display name, the target role when there is one,
      and a contact line for each non-empty contact field, in the order
      email, phone, location, LinkedIn, GitHub. */
  function HeaderOf(d: WizardData): (h: Header)
    ensures h.name == DisplayName(d.personalDetails.fullName)
    ensures h.role == IfText(d.targetRole)
    ensures forall i :: 0 <= i < |h.contacts| ==>
              h.contacts[i].text == ContactValue(d.personalDetails, h.contacts[i].kind) != ""
    ensures forall k :: ContactValue(d.personalDetails, k) != "" <==>
              exists i :: 0 <= i < |h.contacts| && h.contacts[i].kind == k
  {
    AllContactsListed();
    Header(DisplayName(d.personalDetails.fullName), IfText(d.targetRole),
           Contacts(d.personalDetails, ResumeContactOrder))
  }

  /** `skillItems.length > 0 && <section>`. */
  function SkillsSection(s: Skills): (r: Option<seq<string>>)
    ensures r.Some? <==> exists c :: CategoryValue(s, c) != ""
    ensures r.Some? ==> r.value == SkillItems(s)
  {
    SkillsPresentIff(s);
    if |SkillItems(s)| > 0 then Some(SkillItems(s)) else None
  }

  /** The resume of a profile: every section is the block of the field it
      shows, absent exactly when that block's condition fails. */
  function Render(d: WizardData): (r: Resume)
    ensures r.header == HeaderOf(d)
    ensures r.education == EducationBlock(d.education)
    ensures r.skills == SkillsSection(d.skills)
    ensures r.projects == ProjectsSection(d.projects)
    ensures r.experience == ExperienceSection(d.experiences)
    ensures r.certifications == CertificationsSection(d.certifications)
  {
    Resume(HeaderOf(d), EducationBlock(d.education), SkillsSection(d.skills),
           ProjectsSection(d.projects), ExperienceSection(d.experiences),
           CertificationsSection(d.certifications))
  }

  // ----- Lemmas -------------------------------------------------------------

  /** The header lists every contact kind. */
  lemma AllContactsListed()
    ensures forall k :: k in ResumeContactOrder
  {
    forall k ensures k in ResumeContactOrder {
      assert ResumeContactOrder[ResumeContactRank(k)] == k;
    }
  }

  /** The skills section has lines exactly when some category is
      non-empty. */
  lemma SkillsPresentIff(s: Skills)
    ensures |SkillItems(s)| > 0 <==> exists c :: CategoryValue(s, c) != ""
  {
    if exists c :: CategoryValue(s, c) != "" {
      var c :| CategoryValue(s, c) != "";
      assert c in PresentCategories(s);
    }
  }

  /** Every skills line reads back as a category and that category's
      non-empty value, in display order. */
  lemma SkillItemsReadBack(s: Skills)
    ensures var r := SkillItems(s);
      forall i :: 0 <= i < |r| ==>
        ParseSkillItem(r[i]) == Some((PresentCategories(s)[i], CategoryValue(s, PresentCategories(s)[i])))
        && CategoryValue(s, PresentCategories(s)[i]) != ""
  {
    var cs := PresentCategories(s);
    var r := SkillItems(s);
    forall i | 0 <= i < |r|
      ensures ParseSkillItem(r[i]) == Some((cs[i], CategoryValue(s, cs[i])))
    {
      SkillItemRoundTrip(cs[i], CategoryValue(s, cs[i]));
    }
  }

  /** A category has its skills line exactly when its value is non-empty. */
  lemma SkillItemsCover(s: Skills)
    ensures forall c :: CategoryValue(s, c) != "" <==> SkillItem(c, CategoryValue(s, c)) in SkillItems(s)
  {
    var cs := PresentCategories(s);
    var r := SkillItems(s);
    forall c | SkillItem(c, CategoryValue(s, c)) in r ensures CategoryValue(s, c) != "" {
      var i :| 0 <= i < |r| && r[i] == SkillItem(c, CategoryValue(s, c));
      SkillItemRoundTrip(c, CategoryValue(s, c));
      SkillItemRoundTrip(cs[i], CategoryValue(s, cs[i]));
    }
    forall c | CategoryValue(s, c) != "" ensures SkillItem(c, CategoryValue(s, c)) in r {
      var i :| 0 <= i < |cs| && cs[i] == c;
      assert r[i] == SkillItem(c, CategoryValue(s, c));
    }
  }

  /** No two headings start with the same letter. */
  lemma LabelInitialsDistinct(c: Category, d: Category)
    ensures CategoryLabel(c)[0] == CategoryLabel(d)[0] <==> c == d
  {
  }

  lemma {:induction false} ParseFromFinds(cs: seq<Category>, c: Category, v: string)
    requires c in cs
    ensures ParseSkillItemFrom(cs, SkillItem(c, v)) == Some((c, v))
  {
    var item := SkillItem(c, v);
    var prefix := CategoryLabel(cs[0]) + ": ";
    assert item == CategoryLabel(c) + ": " + v;
    if cs[0] == c {
      assert item[..|prefix|] == prefix;
      assert item[|prefix|..] == v;
    } else {
      LabelInitialsDistinct(c, cs[0]);
      assert item[0] == CategoryLabel(c)[0];
      if |prefix| <= |item| {
        assert item[..|prefix|][0] != prefix[0];
      }
      ParseFromFinds(cs[1..], c, v);
    }
  }

  /** A skills line reads back as the category and value it was made from,
      whatever the value holds: no heading starts with another heading's
      first letter. */
  lemma SkillItemRoundTrip(c: Category, v: string)
    ensures ParseSkillItem(SkillItem(c, v)) == Some((c, v))
  {
    assert CategoryOrder[CategoryRank(c)] == c;
    ParseFromFinds(CategoryOrder, c, v);
  }

  lemma ResumeContactOrderAscending()
    ensures Ascending(ResumeContactOrder, ResumeContactRank)
  {
    forall i | 0 <= i < |ResumeContactOrder| ensures ResumeContactRank(ResumeContactOrder[i]) == i {
      assert i == 0 || i == 1 || i == 2 || i == 3 || i == 4;
    }
  }

  /** Contact lines come email, phone, location, LinkedIn, GitHub. */
  lemma ResumeContactsOrdered(d: WizardData)
    ensures Ascending(ContactKinds(Render(d).header.contacts), ResumeContactRank)
  {
    ResumeContactOrderAscending();
    ContactsOrdered(d.personalDetails, ResumeContactOrder, ResumeContactRank);
  }

  /** The blank profile renders the bare header with the placeholder name
      and no section. */
  lemma RenderDefault(d: WizardData)
    requires d == DefaultWizardData
    ensures Render(d) == Resume(Header(PlaceholderName, None, []), None, None, None, None, None)
  {
    NoSkillsSection(d.skills);
    assert CertificationsSection(d.certifications) == None;
  }

  /** Empty skills give no skills section. */
  lemma NoSkillsSection(s: Skills)
    requires s == DefaultSkills
    ensures SkillsSection(s) == None
  {
    forall c ensures CategoryValue(s, c) == "" {
      match c
      case LanguagesCategory =>
      case AiMlCategory =>
      case FrameworksCategory =>
      case ToolsCategory =>
      case DatabasesCategory =>
    }
  }

  /** The resume shows the profile only: the document type, both template
      choices and the projects' and experiences' ids do not change it. */
  lemma RenderIgnoresChoicesAndIds(d: WizardData, e: WizardData)
    requires d.personalDetails == e.personalDetails && d.education == e.education
    requires d.targetRole == e.targetRole && d.skills == e.skills
    requires d.certifications == e.certifications
    requires |d.projects| == |e.projects|
    requires forall i :: 0 <= i < |d.projects| ==> d.projects[i].(id := "") == e.projects[i].(id := "")
    requires |d.experiences| == |e.experiences|
    requires forall i :: 0 <= i < |d.experiences| ==> d.experiences[i].(id := "") == e.experiences[i].(id := "")
    ensures Render(d) == Render(e)
  {
    forall i | 0 <= i < |d.projects| ensures ProjectCard(d.projects[i]) == ProjectCard(e.projects[i]) {
      assert d.projects[i].(id := "").title == e.projects[i].(id := "").title;
    }
    forall i | 0 <= i < |d.experiences| ensures ExperienceItem(d.experiences[i]) == ExperienceItem(e.experiences[i]) {
      assert d.experiences[i].(id := "").title == e.experiences[i].(id := "").title;
    }
    if |d.projects| > 0 {
      assert ProjectsSection(d.projects).value == ProjectsSection(e.projects).value;
    }
    if |d.experiences| > 0 {
      assert ExperienceSection(d.experiences).value == ExperienceSection(e.experiences).value;
    }
  }
}
