/** The two tables the core reads and writes, `resumes` and `portfolios`,
    as sequences of rows, with the query shapes the pages use: a filter by
    column equality and PostgREST's `.single()`, which yields the row when
    exactly one row matches and nothing otherwise. The network, row-level
    security and column defaults beyond those written are not modelled. */
module Store {
  import opened Wrappers
  import opened WizardTypes
  import opened KeyedLists
  import opened WizardState
  import Document

  /** A `resumes` row: `data` is the stored JSON profile, which may lack
      keys (rows saved before a key existed). */
  datatype ResumeRow = ResumeRow(id: string, userId: string, data: WizardPatch, template: string, title: string)

  datatype PortfolioRow = PortfolioRow(
    id: string, userId: string, data: WizardPatch, template: string, title: string,
    slug: string, isPublished: bool)

  datatype Db = Db(resumes: seq<ResumeRow>, portfolios: seq<PortfolioRow>)

  /** `.single()`: the matching row when exactly one row matches; no row
      (an error, read as `data: null`) when none or several do. The `.eq(...)`
      filters before it keep the matching rows in table order, which is
      `Document.Keep`. */
  function Single<T(==)>(rows: seq<T>, p: T -> bool): (r: Option<T>)
    ensures r.Some? <==> |Document.Keep(rows, p)| == 1
    ensures r.Some? ==> p(r.value) && r.value in rows
    ensures r.Some? ==> forall i :: 0 <= i < |rows| && p(rows[i]) ==> rows[i] == r.value
  {
    var matches := Document.Keep(rows, p);
    if |matches| == 1 then
      assert matches[0] in matches;
      Some(matches[0])
    else None
  }

  function RowId(r: ResumeRow): string
  {
    r.id
  }

  function PortfolioId(r: PortfolioRow): string
  {
    r.id
  }

  function ResumeWithId(id: string): ResumeRow -> bool
  {
    (r: ResumeRow) => r.id == id
  }

  function PortfolioWithId(id: string): PortfolioRow -> bool
  {
    (r: PortfolioRow) => r.id == id
  }

  /** `.eq("slug", slug).eq("is_published", true)`. */
  function PublishedWithSlug(slug: string): PortfolioRow -> bool
  {
    (r: PortfolioRow) => r.slug == slug && r.isPublished
  }

  /** `.from("resumes").update({data, template, title}).eq("id", id)`: every
      row with that id takes the new columns and keeps its id and owner;
      no other row changes. */
  function UpdateResume(rows: seq<ResumeRow>, id: string, data: WizardPatch, template: string, title: string): (r: seq<ResumeRow>)
    ensures |r| == |rows|
    ensures forall i :: 0 <= i < |rows| && rows[i].id == id ==>
              r[i] == rows[i].(data := data, template := template, title := title)
    ensures forall i :: 0 <= i < |rows| && rows[i].id != id ==> r[i] == rows[i]
  {
    UpdateWhere(rows, RowId, id, (x: ResumeRow) => x.(data := data, template := template, title := title))
  }

  /** The portfolio update also rewrites the slug; `is_published` is kept. */
  function UpdatePortfolio(rows: seq<PortfolioRow>, id: string, data: WizardPatch, template: string, title: string, slug: string): (r: seq<PortfolioRow>)
    ensures |r| == |rows|
    ensures forall i :: 0 <= i < |rows| && rows[i].id == id ==>
              r[i] == rows[i].(data := data, template := template, title := title, slug := slug)
    ensures forall i :: 0 <= i < |rows| && rows[i].id != id ==> r[i] == rows[i]
  {
    UpdateWhere(rows, PortfolioId, id, (x: PortfolioRow) => x.(data := data, template := template, title := title, slug := slug))
  }

  /** Loading a resume by id over `prev`: when `.single()` finds the row,
      its stored profile is merged over `prev` and its template column
      becomes `resumeTemplate`; otherwise `prev` stays. */
  function LoadResume(prev: WizardData, rows: seq<ResumeRow>, id: string): (r: WizardData)
    ensures Single(rows, ResumeWithId(id)).None? ==> r == prev
    ensures Single(rows, ResumeWithId(id)).Some? ==>
              var row := Single(rows, ResumeWithId(id)).value;
              r == MergeRecord(prev, row.data, ResumeKind, row.template)
  {
    match Single(rows, ResumeWithId(id))
    case None => prev
    case Some(row) => MergeRecord(prev, row.data, ResumeKind, row.template)
  }

  /** The same for a portfolio, whose template becomes `portfolioTemplate`. */
  function LoadPortfolio(prev: WizardData, rows: seq<PortfolioRow>, id: string): (r: WizardData)
    ensures Single(rows, PortfolioWithId(id)).None? ==> r == prev
    ensures Single(rows, PortfolioWithId(id)).Some? ==>
              var row := Single(rows, PortfolioWithId(id)).value;
              r == MergeRecord(prev, row.data, PortfolioKind, row.template)
  {
    match Single(rows, PortfolioWithId(id))
    case None => prev
    case Some(row) => MergeRecord(prev, row.data, PortfolioKind, row.template)
  }

  // ----- Lemmas -------------------------------------------------------------

  /** Filtering a concatenation filters each part. */
  lemma {:induction false} KeepAppend<T>(a: seq<T>, b: seq<T>, p: T -> bool)
    ensures Document.Keep(a + b, p) == Document.Keep(a, p) + Document.Keep(b, p)
  {
    if |a| == 0 {
      assert a + b == b;
    } else {
      assert (a + b)[0] == a[0];
      assert (a + b)[1..] == a[1..] + b;
      KeepAppend(a[1..], b, p);
    }
  }

  /** Two matching positions leave `.single()` without a row. */
  lemma {:induction false} SingleNoneWhenTwo<T>(rows: seq<T>, p: T -> bool, i: nat, j: nat)
    requires i < j < |rows| && p(rows[i]) && p(rows[j])
    ensures Single(rows, p) == None
  {
    assert rows == rows[..i] + [rows[i]] + rows[i + 1..j] + [rows[j]] + rows[j + 1..];
    KeepAppend(rows[..i] + [rows[i]] + rows[i + 1..j] + [rows[j]], rows[j + 1..], p);
    KeepAppend(rows[..i] + [rows[i]] + rows[i + 1..j], [rows[j]], p);
    KeepAppend(rows[..i] + [rows[i]], rows[i + 1..j], p);
    KeepAppend(rows[..i], [rows[i]], p);
  }

  /** A row that matches while no other does is what `.single()` yields. */
  lemma {:induction false} SingleFindsTheOnlyMatch<T>(rows: seq<T>, p: T -> bool, i: nat)
    requires i < |rows| && p(rows[i])
    requires forall j :: 0 <= j < |rows| && j != i ==> !p(rows[j])
    ensures Single(rows, p) == Some(rows[i])
  {
    assert rows == rows[..i] + [rows[i]] + rows[i + 1..];
    KeepAppend(rows[..i] + [rows[i]], rows[i + 1..], p);
    KeepAppend(rows[..i], [rows[i]], p);
    NoMatch(rows[..i], p);
    NoMatch(rows[i + 1..], p);
  }

  lemma {:induction false} NoMatch<T>(rows: seq<T>, p: T -> bool)
    requires forall j :: 0 <= j < |rows| ==> !p(rows[j])
    ensures Document.Keep(rows, p) == []
  {
    if |rows| > 0 {
      NoMatch(rows[1..], p);
    }
  }

  /** Rows that do not match change nothing `.single()` sees. */
  lemma SingleIgnoresNonMatching<T>(rows: seq<T>, extra: seq<T>, p: T -> bool)
    requires forall j :: 0 <= j < |extra| ==> !p(extra[j])
    ensures Single(rows + extra, p) == Single(rows, p)
  {
    KeepAppend(rows, extra, p);
    NoMatch(extra, p);
    assert Document.Keep(rows + extra, p) == Document.Keep(rows, p);
  }
}
