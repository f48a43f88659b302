/** The public portfolio page (src/pages/PublicPortfolio.tsx), served at
    `/portfolio/:slug`: it looks up the one published portfolio with that
    slug and renders its stored profile as a hero, a Skills section that is
    always there, and Projects, Education and Certifications sections that
    appear only when non-empty. Work experience and the phone number are
    never shown on it. */
module PublicPortfolio {
  import opened Wrappers
  import opened Text
  import opened WizardTypes
  import opened WizardState
  import opened Document
  import opened Store
  import ResumeClassicAts

  /** The hero's contact order: location, email, GitHub, LinkedIn. */
  const PortfolioContactOrder: seq<ContactKind> :=
    [LocationContact, EmailContact, GithubContact, LinkedinContact]

  function PortfolioContactRank(k: ContactKind): int
  {
    match k
    case LocationContact => 0
    case EmailContact => 1
    case GithubContact => 2
    case LinkedinContact => 3
    case PhoneContact => 4
  }

  datatype Hero = Hero(name: string, role: Option<string>, contacts: seq<Contact>)

  /** One skill card: the category heading and its comma-separated tags. */
  datatype SkillCard = SkillCard(title: string, tags: seq<string>)

  datatype Portfolio = Portfolio(
    hero: Hero,
    skills: seq<SkillCard>,
    projects: Option<seq<ProjectEntry>>,
    education: Option<EducationEntry>,
    certifications: Option<seq<string>>)

  /** What the page shows. */
  datatype Page =
    | Loading        // no slug in the route: the spinner never stops
    | NotFound       // "Portfolio Not Found"
    | RenderError    // the stored profile lacks a key the page reads
    | Shown(portfolio: Portfolio)

  /** `items.split(",").map((s) => s.trim())`: one tag per comma-separated
      piece, trimmed; blank pieces stay as empty tags. */
  function Tags(items: string): (r: seq<string>)
    ensures |r| == Count(items, ',') + 1
    ensures forall i :: 0 <= i < |r| ==> ',' !in r[i]
    ensures forall i :: 0 <= i < |r| ==> r[i] == Trim(Split(items, ',')[i])
  {
    SplitTrim(items, ',')
  }

  /** The skill cards: one per non-empty category, in display order, titled
      with the category heading. */
  function SkillCards(s: Skills): (r: seq<SkillCard>)
    ensures |r| == |PresentCategories(s)|
    ensures forall i :: 0 <= i < |r| ==> r[i] == CardOf(s, PresentCategories(s)[i])
  {
    CardsOf(s, PresentCategories(s))
  }

  function CardsOf(s: Skills, cs: seq<Category>): (r: seq<SkillCard>)
    ensures |r| == |cs| && forall i :: 0 <= i < |cs| ==> r[i] == CardOf(s, cs[i])
  {
    seq(|cs|, i requires 0 <= i < |cs| => CardOf(s, cs[i]))
  }

  /** The card of one category: its heading and the tags of its value. */
  function CardOf(s: Skills, c: Category): (card: SkillCard)
    ensures card.title == CategoryLabel(c)
    ensures card.tags == Tags(CategoryValue(s, c))
  {
    SkillCard(CategoryLabel(c), Tags(CategoryValue(s, c)))
  }

  /** The hero: the full name as stored (possibly empty), the target role
      when there is one, and a contact line for each non-empty location,
      email, GitHub and LinkedIn field. */
  function HeroOf(d: WizardData): (h: Hero)
    ensures h.name == d.personalDetails.fullName
    ensures h.role == IfText(d.targetRole)
    ensures forall i :: 0 <= i < |h.contacts| ==>
              h.contacts[i].text == ContactValue(d.personalDetails, h.contacts[i].kind) != ""
    ensures forall k :: (k != PhoneContact && ContactValue(d.personalDetails, k) != "") <==>
              exists i :: 0 <= i < |h.contacts| && h.contacts[i].kind == k
  {
    PortfolioContactsListed();
    Hero(d.personalDetails.fullName, IfText(d.targetRole), Contacts(d.personalDetails, PortfolioContactOrder))
  }

  /** The portfolio of a profile. */
  function Render(d: WizardData): (r: Portfolio)
    ensures r.hero == HeroOf(d)
    ensures r.skills == SkillCards(d.skills)
    ensures r.projects == ProjectsSection(d.projects)
    ensures r.education == EducationBlock(d.education)
    ensures r.certifications == CertificationsSection(d.certifications)
  {
    Portfolio(HeroOf(d), SkillCards(d.skills), ProjectsSection(d.projects),
              EducationBlock(d.education), CertificationsSection(d.certifications))
  }

  /** The stored profile holds every key the page reads without a guard;
      `targetRole` may be missing (it reads as empty). */
  predicate Renderable(p: WizardPatch)
  {
    p.personalDetails.Some? && p.education.Some? && p.skills.Some?
    && p.projects.Some? && p.certifications.Some?
  }

  /** The page for route parameter `slug` over the `portfolios` table. The
      stored profile is used as it is, not merged with defaults; reading it
      over the default profile gives the same page whenever it is
      `Renderable`, because the page reads no other key but `targetRole`. */
  function PageFor(slug: Option<string>, rows: seq<PortfolioRow>): (page: Page)
    ensures page == Loading <==> !Truthy(slug)
    ensures Truthy(slug) && Single(rows, PublishedWithSlug(slug.value)).None? ==> page == NotFound
    ensures page.Shown? <==>
              Truthy(slug) && Single(rows, PublishedWithSlug(slug.value)).Some?
              && Renderable(Single(rows, PublishedWithSlug(slug.value)).value.data)
    ensures page.Shown? ==>
              page.portfolio == Render(UpdateData(DefaultWizardData, Single(rows, PublishedWithSlug(slug.value)).value.data))
  {
    if !Truthy(slug) then Loading
    else
      match Single(rows, PublishedWithSlug(slug.value))
      case None => NotFound
      case Some(row) =>
        if Renderable(row.data) then Shown(Render(UpdateData(DefaultWizardData, row.data)))
        else RenderError
  }

  // ----- Lemmas -------------------------------------------------------------

  lemma PortfolioContactOrderAscending()
    ensures Ascending(PortfolioContactOrder, PortfolioContactRank)
  {
    forall i | 0 <= i < |PortfolioContactOrder| ensures PortfolioContactRank(PortfolioContactOrder[i]) == i {
      assert i == 0 || i == 1 || i == 2 || i == 3;
    }
  }

  /** The hero lists every contact kind but the phone. */
  lemma PortfolioContactsListed()
    ensures forall k :: k in PortfolioContactOrder <==> k != PhoneContact
  {
    forall k | k != PhoneContact ensures k in PortfolioContactOrder {
      assert PortfolioContactOrder[PortfolioContactRank(k)] == k;
    }
  }

  /** Hero contacts come location, email, GitHub, LinkedIn. */
  lemma HeroContactsOrdered(d: WizardData)
    ensures Ascending(ContactKinds(Render(d).hero.contacts), PortfolioContactRank)
  {
    PortfolioContactOrderAscending();
    ContactsOrdered(d.personalDetails, PortfolioContactOrder, PortfolioContactRank);
  }

  /** Tags that carry no surrounding whitespace join back, with commas,
      into the text they came from. */
  lemma TagsRoundTrip(items: string)
    requires forall i :: 0 <= i < |Split(items, ',')| ==> Trim(Split(items, ',')[i]) == Split(items, ',')[i]
    ensures Join(Tags(items), ',') == items
  {
    assert Tags(items) == Split(items, ',');
    JoinSplit(items, ',');
  }

  /** Tags of comma-joined pieces are the trimmed pieces, one per piece:
      a blank piece gives an empty tag rather than being dropped. */
  lemma TagsOfJoined(xs: seq<string>)
    requires |xs| >= 1
    requires forall i :: 0 <= i < |xs| ==> ',' !in xs[i]
    ensures |Tags(Join(xs, ','))| == |xs|
    ensures forall i :: 0 <= i < |xs| ==> Tags(Join(xs, ','))[i] == Trim(xs[i])
  {
    SplitJoin(xs, ',');
  }

  /** The portfolio and the resume show the same projects, education block
      and certifications, and the portfolio's skill cards are headed by
      exactly the categories the resume lists, in the same order. */
  lemma SharedSectionsAgree(d: WizardData)
    ensures Render(d).projects == ResumeClassicAts.Render(d).projects
    ensures Render(d).education == ResumeClassicAts.Render(d).education
    ensures Render(d).certifications == ResumeClassicAts.Render(d).certifications
    ensures |Render(d).skills| == |ResumeClassicAts.SkillItems(d.skills)|
    ensures forall i :: 0 <= i < |Render(d).skills| ==>
              ResumeClassicAts.SkillItem(PresentCategories(d.skills)[i], CategoryValue(d.skills, PresentCategories(d.skills)[i]))
                == Render(d).skills[i].title + ": " + CategoryValue(d.skills, PresentCategories(d.skills)[i])
  {
  }

  /** Work experience and the phone number never reach the page. */
  lemma ExperienceAndPhoneNotShown(d: WizardData, es: seq<Experience>, phone: string)
    ensures Render(d.(experiences := es, personalDetails := d.personalDetails.(phone := phone))) == Render(d)
  {
    var e := d.(experiences := es, personalDetails := d.personalDetails.(phone := phone));
    assert HeroOf(e).contacts == HeroOf(d).contacts by {
      assert forall k :: k in PortfolioContactOrder ==> ContactValue(e.personalDetails, k) == ContactValue(d.personalDetails, k);
      KeepSameOnListed(PortfolioContactOrder, HasContact(e.personalDetails), HasContact(d.personalDetails));
    }
  }

  /** Two filters that agree on the listed elements keep the same ones. */
  lemma {:induction false} KeepSameOnListed<K>(order: seq<K>, f: K -> bool, g: K -> bool)
    requires forall i :: 0 <= i < |order| ==> f(order[i]) == g(order[i])
    ensures Keep(order, f) == Keep(order, g)
  {
    if |order| > 0 {
      KeepSameOnListed(order[1..], f, g);
    }
  }

  /** The page shown depends on the slug's published rows only: adding a
      row that is unpublished or has another slug changes nothing. */
  lemma PageIgnoresOtherRows(slug: Option<string>, rows: seq<PortfolioRow>, row: PortfolioRow)
    requires Truthy(slug) ==> !(row.slug == slug.value && row.isPublished)
    ensures PageFor(slug, rows + [row]) == PageFor(slug, rows)
  {
    if Truthy(slug) {
      SingleIgnoresNonMatching(rows, [row], PublishedWithSlug(slug.value));
    }
  }

  /** Two published portfolios under one slug hide each other: the page
      reports the portfolio as not found. */
  lemma DuplicateSlugNotFound(slug: string, rows: seq<PortfolioRow>, i: nat, j: nat)
    requires slug != ""
    requires i < j < |rows|
    requires rows[i].slug == slug && rows[i].isPublished
    requires rows[j].slug == slug && rows[j].isPublished
    ensures PageFor(Some(slug), rows) == NotFound
  {
    SingleNoneWhenTwo(rows, PublishedWithSlug(slug), i, j);
  }

  /** The only published row under a slug is shown, rendered from the
      profile it stores. */
  lemma OnlyPublishedRowShown(slug: string, rows: seq<PortfolioRow>, i: nat)
    requires slug != "" && i < |rows|
    requires rows[i].slug == slug && rows[i].isPublished && Renderable(rows[i].data)
    requires forall j :: 0 <= j < |rows| && j != i ==> !(rows[j].slug == slug && rows[j].isPublished)
    ensures PageFor(Some(slug), rows) == Shown(Render(UpdateData(DefaultWizardData, rows[i].data)))
  {
    SingleFindsTheOnlyMatch(rows, PublishedWithSlug(slug), i);
  }
}
