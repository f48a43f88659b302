/** What the two document templates have in common: the `s && <X>` idiom,
    contact lines and skill categories shown in a fixed order when non-empty,
    and the education, project and certification blocks, which the classic
    ATS resume (src/components/templates/ResumeClassicATS.tsx) and the public
    portfolio page (src/pages/PublicPortfolio.tsx) render from the same
    fields under the same conditions. Markup, icons and styling are not
    modelled; a rendered document is the text it shows, section by section. */
module Document {
  import opened Wrappers
  import opened Text
  import opened WizardTypes

  /** `s && <X>`: the element is rendered exactly when `s` is non-empty, and
      then shows `s`. */
  function IfText(s: string): (r: Option<string>)
    ensures r.Some? <==> s != ""
    ensures r.Some? ==> r.value == s
  {
    if s == "" then None else Some(s)
  }

  // ----- Keeping the present entries of a fixed order ----------------------

  /** The elements of `order` that satisfy `keep`, in the order of `order`:
      what a fixed list of `cond && <X>` children renders. */
  function Keep<K(==)>(order: seq<K>, keep: K -> bool): (r: seq<K>)
    ensures |r| <= |order|
    ensures forall i :: 0 <= i < |r| ==> keep(r[i]) && r[i] in order
    ensures forall i :: 0 <= i < |order| && keep(order[i]) ==> order[i] in r
  {
    if |order| == 0 then []
    else
      assert order == [order[0]] + order[1..];
      (if keep(order[0]) then [order[0]] else []) + Keep(order[1..], keep)
  }

  /** `rank` strictly increases along `xs`. */
  predicate Ascending<K>(xs: seq<K>, rank: K -> int)
  {
    forall i, j :: 0 <= i < j < |xs| ==> rank(xs[i]) < rank(xs[j])
  }

  /** Kept elements appear in the order `order` lists them: a rank that
      increases along `order` increases along the kept elements. */
  lemma {:induction false} KeepOrdered<K>(order: seq<K>, keep: K -> bool, rank: K -> int)
    requires Ascending(order, rank)
    ensures Ascending(Keep(order, keep), rank)
  {
    if |order| > 0 {
      var tail := Keep(order[1..], keep);
      KeepOrdered(order[1..], keep, rank);
      KeepAbove(order, keep, rank);
      var head := if keep(order[0]) then [order[0]] else [];
      assert Keep(order, keep) == head + tail;
      AscendingCons(head, tail, rank);
    }
  }

  /** What is kept from the tail of an ascending list ranks above its head. */
  lemma KeepAbove<K>(order: seq<K>, keep: K -> bool, rank: K -> int)
    requires |order| > 0 && Ascending(order, rank)
    ensures forall i :: 0 <= i < |Keep(order[1..], keep)| ==> rank(order[0]) < rank(Keep(order[1..], keep)[i])
  {
    var tail := Keep(order[1..], keep);
    forall i | 0 <= i < |tail| ensures rank(order[0]) < rank(tail[i]) {
      var m :| 0 <= m < |order[1..]| && order[1..][m] == tail[i];
      assert order[m + 1] == tail[i];
    }
  }

  /** An ascending list preceded by at most one smaller element is
      ascending. */
  lemma AscendingCons<K>(head: seq<K>, tail: seq<K>, rank: K -> int)
    requires |head| <= 1 && Ascending(tail, rank)
    requires forall i, j :: 0 <= i < |head| && 0 <= j < |tail| ==> rank(head[i]) < rank(tail[j])
    ensures Ascending(head + tail, rank)
  {
    var r := head + tail;
    forall i, j | 0 <= i < j < |r| ensures rank(r[i]) < rank(r[j]) {
      assert r[j] == tail[j - |head|];
      if i >= |head| {
        assert r[i] == tail[i - |head|];
      }
    }
  }

  // ----- Contacts ------------------------------------------------------------

  datatype ContactKind = EmailContact | PhoneContact | LocationContact | LinkedinContact | GithubContact

  /** One contact line: which field, and the text shown. */
  datatype Contact = Contact(kind: ContactKind, text: string)

  function ContactValue(p: PersonalDetails, k: ContactKind): string
  {
    match k
    case EmailContact => p.email
    case PhoneContact => p.phone
    case LocationContact => p.location
    case LinkedinContact => p.linkedin
    case GithubContact => p.github
  }

  /** The field of contact `k` is non-empty. */
  function HasContact(p: PersonalDetails): ContactKind -> bool
  {
    k => ContactValue(p, k) != ""
  }

  /** The contact lines of a fixed order whose field is non-empty, each
      showing its field verbatim. */
  function Contacts(p: PersonalDetails, order: seq<ContactKind>): (r: seq<Contact>)
    ensures forall i :: 0 <= i < |r| ==> r[i].text == ContactValue(p, r[i].kind) && r[i].text != ""
    ensures forall k :: k in order && ContactValue(p, k) != "" <==> exists i :: 0 <= i < |r| && r[i].kind == k
  {
    var ks := Keep(order, HasContact(p));
    var r := seq(|ks|, i requires 0 <= i < |ks| => Contact(ks[i], ContactValue(p, ks[i])));
    forall k | k in ks ensures exists i :: 0 <= i < |r| && r[i].kind == k {
      var m :| 0 <= m < |ks| && ks[m] == k;
      assert r[m].kind == k;
    }
    r
  }

  /** The kinds of a list of contact lines, in order. */
  function ContactKinds(cs: seq<Contact>): (ks: seq<ContactKind>)
    ensures |ks| == |cs| && forall i :: 0 <= i < |cs| ==> ks[i] == cs[i].kind
  {
    seq(|cs|, i requires 0 <= i < |cs| => cs[i].kind)
  }

  /** Contact lines come in the order given: a rank that increases along
      `order` increases along the contact lines. */
  lemma ContactsOrdered(p: PersonalDetails, order: seq<ContactKind>, rank: ContactKind -> int)
    requires Ascending(order, rank)
    ensures Ascending(ContactKinds(Contacts(p, order)), rank)
  {
    KeepOrdered(order, HasContact(p), rank);
    assert ContactKinds(Contacts(p, order)) == Keep(order, HasContact(p));
  }

  // ----- Skill categories --------------------------------------------------

  /** The five skill categories, in the order both templates list them. */
  datatype Category = LanguagesCategory | AiMlCategory | FrameworksCategory | ToolsCategory | DatabasesCategory

  const CategoryOrder: seq<Category> :=
    [LanguagesCategory, AiMlCategory, FrameworksCategory, ToolsCategory, DatabasesCategory]

  /** The heading a category is shown under. */
  function CategoryLabel(c: Category): string
  {
    match c
    case LanguagesCategory => "Languages"
    case AiMlCategory => "AI/ML"
    case FrameworksCategory => "Frameworks"
    case ToolsCategory => "Tools"
    case DatabasesCategory => "Databases"
  }

  function CategoryValue(s: Skills, c: Category): string
  {
    match c
    case LanguagesCategory => s.languages
    case AiMlCategory => s.mlSkills
    case FrameworksCategory => s.frameworks
    case ToolsCategory => s.tools
    case DatabasesCategory => s.databases
  }

  /** The place of a category in `CategoryOrder`. */
  function CategoryRank(c: Category): (n: int)
    ensures 0 <= n < |CategoryOrder| && CategoryOrder[n] == c
  {
    match c
    case LanguagesCategory => 0
    case AiMlCategory => 1
    case FrameworksCategory => 2
    case ToolsCategory => 3
    case DatabasesCategory => 4
  }

  /** The value of category `c` is non-empty. */
  function HasCategory(s: Skills): Category -> bool
  {
    c => CategoryValue(s, c) != ""
  }

  /** The categories with a non-empty value, in display order. */
  function PresentCategories(s: Skills): (r: seq<Category>)
    ensures |r| <= 5
    ensures forall i :: 0 <= i < |r| ==> CategoryValue(s, r[i]) != ""
    ensures forall c :: c in r <==> CategoryValue(s, c) != ""
  {
    var r := Keep(CategoryOrder, HasCategory(s));
    forall c ensures c in r <==> CategoryValue(s, c) != "" {
      assert HasCategory(s)(c) == (CategoryValue(s, c) != "");
      if CategoryValue(s, c) != "" {
        assert CategoryOrder[CategoryRank(c)] == c;
      }
    }
    r
  }

  // ----- Education, projects, certifications -------------------------------

  /** The education block: degree and college always, the graduation year
      and the CGPA line each only when non-empty. */
  datatype EducationEntry = EducationEntry(degree: string, college: string, gradYear: Option<string>, cgpa: Option<string>)

  /** `edu.degree && <block>`: the block exists exactly when the degree is
      non-empty; it shows degree and college verbatim, and the CGPA with its
      `CGPA: ` label. */
  function EducationBlock(edu: Education): (r: Option<EducationEntry>)
    ensures r.Some? <==> edu.degree != ""
    ensures r.Some? ==> r.value.degree == edu.degree && r.value.college == edu.college
    ensures r.Some? ==> r.value.gradYear == IfText(edu.gradYear)
    ensures r.Some? ==> (r.value.cgpa.Some? <==> edu.cgpa != "")
    ensures r.Some? && r.value.cgpa.Some? ==> r.value.cgpa.value == "CGPA: " + edu.cgpa
  {
    if edu.degree == "" then None
    else Some(EducationEntry(edu.degree, edu.college, IfText(edu.gradYear),
                             if edu.cgpa == "" then None else Some("CGPA: " + edu.cgpa)))
  }

  /** One project card: title and tech stack always; problem, contribution
      bullets and outcome each only when the field is non-empty. */
  datatype ProjectEntry = ProjectEntry(
    title: string,
    techStack: string,
    problem: Option<string>,
    contributions: Option<seq<string>>,
    outcome: Option<string>)

  /** The contribution list exists when the text is non-empty, and holds its
      non-empty lines (so `"\n"` gives an empty list). */
  function ProjectCard(p: Project): (r: ProjectEntry)
    ensures r.title == p.title && r.techStack == p.techStack
    ensures r.problem == IfText(p.problem) && r.outcome == IfText(p.outcome)
    ensures r.contributions.Some? <==> p.contributions != ""
    ensures r.contributions.Some? ==> r.contributions.value == SplitLines(p.contributions)
  {
    ProjectEntry(p.title, p.techStack, IfText(p.problem),
                 if p.contributions == "" then None else Some(SplitLines(p.contributions)),
                 IfText(p.outcome))
  }

  /** `projects.length > 0 && <section>`: one card per project, in order. */
  function ProjectsSection(ps: seq<Project>): (r: Option<seq<ProjectEntry>>)
    ensures r.Some? <==> |ps| > 0
    ensures r.Some? ==> |r.value| == |ps| && forall i :: 0 <= i < |ps| ==> r.value[i] == ProjectCard(ps[i])
  {
    if |ps| == 0 then None
    else Some(seq(|ps|, i requires 0 <= i < |ps| => ProjectCard(ps[i])))
  }

  /** `certList.length > 0 && <section>`: the non-empty lines of the
      certifications text; the section is absent when the text has none. */
  function CertificationsSection(text: string): (r: Option<seq<string>>)
    ensures r.Some? <==> exists i :: 0 <= i < |text| && text[i] != '\n'
    ensures r.Some? ==> r.value == SplitLines(text) && |r.value| > 0
  {
    var lines := SplitLines(text);
    SplitLinesEmptyIff(text);
    if |lines| == 0 then None else Some(lines)
  }

  // ----- Lemmas -------------------------------------------------------------

  /** The certification section loses no text: its entries put together are
      the text without its line breaks. */
  lemma CertificationsKeepText(text: string)
    ensures var r := CertificationsSection(text);
      Concat(if r.Some? then r.value else []) == Remove(text, '\n')
  {
    SplitLinesContent(text);
    if CertificationsSection(text).None? {
      SplitLinesEmptyIff(text);
      RemoveEmptyIff(text, '\n');
    }
  }

  /** The same is true of each project's contribution bullets. */
  lemma ContributionsKeepText(p: Project)
    ensures var c := ProjectCard(p).contributions;
      Concat(if c.Some? then c.value else []) == Remove(p.contributions, '\n')
  {
    SplitLinesContent(p.contributions);
  }

  /** Categories are listed by rank, and no two share a heading. */
  lemma CategoriesDistinct()
    ensures Ascending(CategoryOrder, CategoryRank)
    ensures forall c, d :: CategoryLabel(c) == CategoryLabel(d) <==> c == d
  {
    forall i | 0 <= i < |CategoryOrder| ensures CategoryRank(CategoryOrder[i]) == i {
      assert i == 0 || i == 1 || i == 2 || i == 3 || i == 4;
    }
  }

  /** Present categories are listed in display order. */
  lemma PresentCategoriesOrdered(s: Skills)
    ensures Ascending(PresentCategories(s), CategoryRank)
  {
    CategoriesDistinct();
    KeepOrdered(CategoryOrder, HasCategory(s), CategoryRank);
    assert PresentCategories(s) == Keep(CategoryOrder, HasCategory(s));
  }
}
